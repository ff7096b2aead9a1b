/** Withdrawal requests ("demandes de sortie"): creation, which validates the
    people named and takes the stock out, and the newest-first listing. */
module Demandes {
  import opened Basics
  import opened Records
  import opened Lookup
  import opened Inventory

  const SupervisorNotFound: string := "Superviseur non trouvé"
  const Agent1NotFound: string := "Agent 1 non trouvé"
  const Agent2NotFound: string := "Agent 2 non trouvé"

  /** The stored request for `req`, with the people's names and badge numbers copied in. */
  function NewDemande(req: DemandeCreate, id: string, date: int, sup: Person, a1: Person, a2: Person): Demande
  {
    Demande(id,
      req.superviseurId, sup.nom, sup.matricule,
      req.agent1Id, a1.nom, a1.matricule,
      req.agent2Id, a2.nom, a2.matricule,
      date, req.materielsDemandes, req.signature, DefaultStatus)
  }

  /** POST /demandes. `id` and `date` stand for the fresh `uuid4` and
      `utcnow()` the record is created with. The supervisor, then agent 1,
      then agent 2 are looked up, and the first one missing answers 404 with
      nothing changed. Otherwise the request is appended and every strictly
      positive requested quantity is taken off the matching material; ids
      that match no material are ignored. */
  function CreateDemande(s: Store, req: DemandeCreate, id: string, date: int): (r: Response<Demande>)
    ensures FindPerson(s.superviseurs, req.superviseurId).None? ==>
      r == Response(Err(HttpError(404, SupervisorNotFound)), s)
    ensures (FindPerson(s.superviseurs, req.superviseurId).Some?
      && FindPerson(s.agents, req.agent1Id).None?) ==>
      r == Response(Err(HttpError(404, Agent1NotFound)), s)
    ensures (FindPerson(s.superviseurs, req.superviseurId).Some?
      && FindPerson(s.agents, req.agent1Id).Some?
      && FindPerson(s.agents, req.agent2Id).None?) ==>
      r == Response(Err(HttpError(404, Agent2NotFound)), s)
    ensures r.result.Ok? <==>
      && FindPerson(s.superviseurs, req.superviseurId).Some?
      && FindPerson(s.agents, req.agent1Id).Some?
      && FindPerson(s.agents, req.agent2Id).Some?
    ensures r.result.Err? ==> r.store == s
    ensures r.result.Ok? ==>
      var d := r.result.value;
      var sup := FindPerson(s.superviseurs, req.superviseurId).value;
      var a1 := FindPerson(s.agents, req.agent1Id).value;
      var a2 := FindPerson(s.agents, req.agent2Id).value;
      && r.store.demandes == s.demandes + [d]
      && r.store.agents == s.agents
      && r.store.superviseurs == s.superviseurs
      && r.store.materials == ApplyWithdrawal(s.materials, req.materielsDemandes)
      && d.id == id && d.date == date
      && d.superviseurId == req.superviseurId && d.superviseurNom == sup.nom && d.superviseurMatricule == sup.matricule
      && d.agent1Id == req.agent1Id && d.agent1Nom == a1.nom && d.agent1Matricule == a1.matricule
      && d.agent2Id == req.agent2Id && d.agent2Nom == a2.nom && d.agent2Matricule == a2.matricule
      && d.materielsDemandes == req.materielsDemandes
      && d.signature == req.signature
      && d.status == "en_attente"
  {
    match FindPerson(s.superviseurs, req.superviseurId)
    case None => Response(Err(HttpError(404, SupervisorNotFound)), s)
    case Some(sup) =>
      match FindPerson(s.agents, req.agent1Id)
      case None => Response(Err(HttpError(404, Agent1NotFound)), s)
      case Some(a1) =>
        match FindPerson(s.agents, req.agent2Id)
        case None => Response(Err(HttpError(404, Agent2NotFound)), s)
        case Some(a2) =>
          var d := NewDemande(req, id, date, sup, a1, a2);
          Response(Ok(d), s.(demandes := s.demandes + [d],
                             materials := ApplyWithdrawal(s.materials, req.materielsDemandes)))
  }

  /** What a successful creation does to the stock, material by material:
      the first material with a requested id ends at exactly its old quantity
      minus the request's strictly positive amount (no floor at zero); every
      other material is untouched and no material appears or disappears. */
  lemma CreateDemandeStock(s: Store, req: DemandeCreate, id: string, date: int)
    requires CreateDemande(s, req, id, date).result.Ok?
    ensures var ms, ms' := s.materials, CreateDemande(s, req, id, date).store.materials;
      && |ms'| == |ms|
      && (forall i :: 0 <= i < |ms| ==> ms'[i].id == ms[i].id && ms'[i].nom == ms[i].nom)
      && (forall mid | mid in req.materielsDemandes && req.materielsDemandes[mid] > 0 && IndexOf(ms, mid).Some? ::
            ms'[IndexOf(ms, mid).value].quantite == ms[IndexOf(ms, mid).value].quantite - req.materielsDemandes[mid])
      && (forall i :: 0 <= i < |ms| && (ms[i].id !in req.materielsDemandes || req.materielsDemandes[ms[i].id] <= 0) ==>
            ms'[i] == ms[i])
  {
  }

  /** A successful creation never changes a material id, so unique ids stay unique. */
  lemma CreateDemandePreservesUniqueIds(s: Store, req: DemandeCreate, id: string, date: int)
    requires UniqueIds(s.materials)
    ensures UniqueIds(CreateDemande(s, req, id, date).store.materials)
  {
  }

  /** Requests ordered by date, newest first. */
  ghost predicate NewestFirst(ds: seq<Demande>)
  {
    forall i, j :: 0 <= i < j < |ds| ==> ds[i].date >= ds[j].date
  }

  /** Places `d` in a newest-first sequence, before the first request that is not newer. */
  function InsertByDate(d: Demande, ds: seq<Demande>): (r: seq<Demande>)
    requires NewestFirst(ds)
    ensures NewestFirst(r)
    ensures multiset(r) == multiset(ds) + multiset{d}
    ensures |r| == |ds| + 1
    ensures r[0] == d || (|ds| > 0 && r[0] == ds[0])
    decreases |ds|
  {
    if |ds| == 0 then [d]
    else if d.date >= ds[0].date then [d] + ds
    else
      var rest := InsertByDate(d, ds[1..]);
      assert ds == [ds[0]] + ds[1..];
      assert rest[0].date <= ds[0].date;
      [ds[0]] + rest
  }

  /** The requests newest first (`sort("date", -1)`); requests with equal
      dates keep their store order. */
  function SortNewestFirst(ds: seq<Demande>): (r: seq<Demande>)
    ensures NewestFirst(r)
    ensures multiset(r) == multiset(ds)
    decreases |ds|
  {
    if |ds| == 0 then []
    else
      assert ds == [ds[0]] + ds[1..];
      InsertByDate(ds[0], SortNewestFirst(ds[1..]))
  }

  /** The first `k` of a newest-first ordering of `all` are its newest
      requests: whatever is left out is no newer than any of them. */
  lemma PrefixIsNewest(all: seq<Demande>, sorted: seq<Demande>, k: nat)
    requires NewestFirst(sorted)
    requires multiset(sorted) == multiset(all)
    requires k <= |sorted|
    ensures NewestFirst(sorted[..k])
    ensures multiset(sorted[..k]) <= multiset(all)
    ensures k == |all| ==> multiset(sorted[..k]) == multiset(all)
    ensures forall d | d in multiset(all) - multiset(sorted[..k]) ::
      forall i | 0 <= i < k :: d.date <= sorted[i].date
  {
    assert sorted == sorted[..k] + sorted[k..];
    assert multiset(all) - multiset(sorted[..k]) == multiset(sorted[k..]);
    forall d, i | d in multiset(all) - multiset(sorted[..k]) && 0 <= i < k
      ensures d.date <= sorted[i].date
    {
      assert d in sorted[k..];
      var j :| 0 <= j < |sorted[k..]| && sorted[k..][j] == d;
      assert sorted[k + j] == d;
    }
  }

  /** GET /demandes: the newest `ListLimit` requests, newest first. */
  function GetDemandes(s: Store): (r: seq<Demande>)
    ensures |r| == Min(|s.demandes|, ListLimit)
    ensures NewestFirst(r)
    ensures multiset(r) <= multiset(s.demandes)
    ensures |s.demandes| <= ListLimit ==> multiset(r) == multiset(s.demandes)
    ensures forall d | d in multiset(s.demandes) - multiset(r) ::
      forall i | 0 <= i < |r| :: d.date <= r[i].date
  {
    var sorted := SortNewestFirst(s.demandes);
    PrefixIsNewest(s.demandes, sorted, Min(|sorted|, ListLimit));
    sorted[..Min(|sorted|, ListLimit)]
  }
}
