/** Stock arithmetic of a withdrawal: the per-item `$inc` on the materials
    collection and its effect on the whole collection. */
module Inventory {
  import opened Basics
  import opened Records
  import opened Lookup

  /** `update_one({"id": id}, {"$inc": {"quantite": delta}})`: the first material
      with that id gets `delta` added to its quantity; no match, no change (no upsert). */
  function IncQuantity(ms: seq<Material>, id: string, delta: int): (r: seq<Material>)
    ensures |r| == |ms|
    ensures IndexOf(ms, id).None? ==> r == ms
    ensures IndexOf(ms, id).Some? ==>
      var i := IndexOf(ms, id).value;
      r[i].quantite == ms[i].quantite + delta
      && r[i].id == ms[i].id && r[i].nom == ms[i].nom && r[i].dateAjout == ms[i].dateAjout
      && forall j :: 0 <= j < |ms| && j != i ==> r[j] == ms[j]
  {
    match IndexOf(ms, id)
    case None => ms
    case Some(i) => ms[i := ms[i].(quantite := ms[i].quantite + delta)]
  }

  /** The quantity a request actually withdraws for `id`: its entry when strictly
      positive, nothing for a missing, zero or negative entry. */
  function Positive(req: map<string, int>, id: string): nat
  {
    if id in req && req[id] > 0 then req[id] else 0
  }

  /** Material `i` is the first one carrying its id, i.e. the one `update_one` hits. */
  predicate IsFirst(ms: seq<Material>, i: nat)
    requires i < |ms|
  {
    forall j :: 0 <= j < i ==> ms[j].id != ms[i].id
  }

  /** How much a withdrawal takes from material `i` once the requested ids in
      `done` have been processed: the positive amount asked for its id when
      `i` is the first material with that id, and nothing otherwise. */
  function Taken(ms: seq<Material>, req: map<string, int>, done: set<string>, i: nat): nat
    requires i < |ms|
  {
    if IsFirst(ms, i) && ms[i].id in done then Positive(req, ms[i].id) else 0
  }

  /** The materials once the requested ids in `done` have been processed. */
  function Withdraw(ms: seq<Material>, req: map<string, int>, done: set<string>): (r: seq<Material>)
    ensures |r| == |ms|
    ensures forall i :: 0 <= i < |ms| ==>
      r[i].id == ms[i].id && r[i].nom == ms[i].nom && r[i].dateAjout == ms[i].dateAjout
    ensures forall i :: 0 <= i < |ms| ==> r[i].quantite <= ms[i].quantite
  {
    seq(|ms|, i requires 0 <= i < |ms| => ms[i].(quantite := ms[i].quantite - Taken(ms, req, done, i)))
  }

  /** The materials after a withdrawal: every requested id processed. The
      collection keeps its length and every material its id, name and date;
      only quantities move (see `WithdrawalEffect`). */
  function ApplyWithdrawal(ms: seq<Material>, req: map<string, int>): (r: seq<Material>)
    ensures |r| == |ms|
    ensures forall i :: 0 <= i < |ms| ==>
      r[i].id == ms[i].id && r[i].nom == ms[i].nom && r[i].dateAjout == ms[i].dateAjout
  {
    Withdraw(ms, req, req.Keys)
  }

  lemma IsFirstIsIndexOf(ms: seq<Material>, i: nat)
    requires i < |ms|
    ensures IsFirst(ms, i) <==> IndexOf(ms, ms[i].id) == Some(i)
  {
    var r := IndexOf(ms, ms[i].id);
    assert r.Some?;
  }

  /** The first material with a requested id loses exactly the positive amount asked for it. */
  lemma WithdrawalHits(ms: seq<Material>, req: map<string, int>, id: string)
    requires IndexOf(ms, id).Some?
    ensures var i := IndexOf(ms, id).value;
      ApplyWithdrawal(ms, req)[i].quantite == ms[i].quantite - Positive(req, id)
  {
    var i := IndexOf(ms, id).value;
    IsFirstIsIndexOf(ms, i);
    assert Taken(ms, req, req.Keys, i) == Positive(req, id);
  }

  /** A material that is not requested with a positive amount, or that an
      earlier material with the same id shadows, is left as it was. */
  lemma WithdrawalSkips(ms: seq<Material>, req: map<string, int>, i: nat)
    requires i < |ms|
    requires Positive(req, ms[i].id) == 0 || IndexOf(ms, ms[i].id) != Some(i)
    ensures ApplyWithdrawal(ms, req)[i] == ms[i]
  {
    IsFirstIsIndexOf(ms, i);
    assert Taken(ms, req, req.Keys, i) == 0;
  }

  /** With unique ids every material is the first with its id. */
  lemma WithdrawalUnique(ms: seq<Material>, req: map<string, int>, i: nat)
    requires UniqueIds(ms) && i < |ms|
    ensures ApplyWithdrawal(ms, req)[i].quantite == ms[i].quantite - Positive(req, ms[i].id)
  {
    IndexOfUnique(ms, i);
    WithdrawalHits(ms, req, ms[i].id);
  }

  /** What a withdrawal does to quantities. The first material with a
      requested id loses exactly the strictly positive amount asked for it;
      a material whose id is not requested, is requested with a quantity of
      zero or less, or is shadowed by an earlier material with the same id is
      left exactly as it was. With unique ids, every material loses exactly
      the positive amount asked for its id. */
  lemma WithdrawalEffect(ms: seq<Material>, req: map<string, int>)
    ensures var r := ApplyWithdrawal(ms, req);
      forall id | IndexOf(ms, id).Some? ::
        r[IndexOf(ms, id).value].quantite == ms[IndexOf(ms, id).value].quantite - Positive(req, id)
    ensures var r := ApplyWithdrawal(ms, req);
      forall i :: 0 <= i < |ms| && Positive(req, ms[i].id) == 0 ==> r[i] == ms[i]
    ensures var r := ApplyWithdrawal(ms, req);
      forall i :: 0 <= i < |ms| && IndexOf(ms, ms[i].id) != Some(i) ==> r[i] == ms[i]
    ensures var r := ApplyWithdrawal(ms, req);
      UniqueIds(ms) ==> forall i :: 0 <= i < |ms| ==> r[i].quantite == ms[i].quantite - Positive(req, ms[i].id)
  {
    forall id | IndexOf(ms, id).Some? {
      WithdrawalHits(ms, req, id);
    }
    forall i | 0 <= i < |ms| && (Positive(req, ms[i].id) == 0 || IndexOf(ms, ms[i].id) != Some(i)) {
      WithdrawalSkips(ms, req, i);
    }
    if UniqueIds(ms) {
      forall i | 0 <= i < |ms| {
        WithdrawalUnique(ms, req, i);
      }
    }
  }

  /** Processing one more id `k` adds its amount to what is taken from the
      first material with id `k`, and to nothing else. */
  lemma TakenStep(ms: seq<Material>, req: map<string, int>, done: set<string>, k: string, i: nat)
    requires k !in done && i < |ms|
    ensures Taken(ms, req, done + {k}, i)
      == Taken(ms, req, done, i) + (if IndexOf(ms, k) == Some(i) then Positive(req, k) else 0)
  {
  }

  /** Processing one more requested id `k` with a strictly positive amount is
      one `$inc` of minus that amount on the materials. */
  lemma WithdrawStepPositive(ms: seq<Material>, req: map<string, int>, done: set<string>, k: string)
    requires k in req && k !in done && req[k] > 0
    ensures Withdraw(ms, req, done + {k}) == IncQuantity(Withdraw(ms, req, done), k, -req[k])
  {
    var a, b := Withdraw(ms, req, done), Withdraw(ms, req, done + {k});
    IndexOfSameIds(a, ms, k);
    var c := IncQuantity(a, k, -req[k]);
    forall i | 0 <= i < |ms| ensures b[i] == c[i] {
      TakenStep(ms, req, done, k, i);
    }
  }

  /** Processing one more requested id `k` whose amount is zero or negative
      changes nothing. */
  lemma WithdrawStepIgnored(ms: seq<Material>, req: map<string, int>, done: set<string>, k: string)
    requires k in req && k !in done && req[k] <= 0
    ensures Withdraw(ms, req, done + {k}) == Withdraw(ms, req, done)
  {
  }

  /** The stock loop of `create_demande` as written: one `$inc` per requested id
      whose quantity is strictly positive, visiting the ids in any order. */
  method WithdrawLoop(ms: seq<Material>, req: map<string, int>) returns (r: seq<Material>)
    ensures r == ApplyWithdrawal(ms, req)
  {
    r := ms;
    var todo := req.Keys;
    ghost var done: set<string> := {};
    assert Withdraw(ms, req, done) == ms;
    while todo != {}
      invariant todo + done == req.Keys && todo !! done
      invariant r == Withdraw(ms, req, done)
      decreases todo
    {
      var k :| k in todo;
      if req[k] > 0 {
        WithdrawStepPositive(ms, req, done, k);
        r := IncQuantity(r, k, -req[k]);
      } else {
        WithdrawStepIgnored(ms, req, done, k);
      }
      todo := todo - {k};
      done := done + {k};
    }
  }

  /** Sum of all quantities in the collection. */
  function TotalStock(ms: seq<Material>): int
  {
    if |ms| == 0 then 0 else ms[0].quantite + TotalStock(ms[1..])
  }

  /** Replacing one material changes the total by the difference of the two quantities. */
  lemma {:induction false} TotalStockUpdate(ms: seq<Material>, i: nat, m: Material)
    requires i < |ms|
    ensures TotalStock(ms[i := m]) == TotalStock(ms) - ms[i].quantite + m.quantite
    decreases |ms|
  {
    if i > 0 {
      TotalStockUpdate(ms[1..], i - 1, m);
      assert ms[i := m][1..] == ms[1..][i - 1 := m];
    }
  }

  /** One `$inc` changes the total stock by exactly `delta` when it matches a
      material and leaves it alone otherwise: nothing is lost or duplicated. */
  lemma IncQuantityConserves(ms: seq<Material>, id: string, delta: int)
    ensures IndexOf(ms, id).Some? ==> TotalStock(IncQuantity(ms, id, delta)) == TotalStock(ms) + delta
    ensures IndexOf(ms, id).None? ==> TotalStock(IncQuantity(ms, id, delta)) == TotalStock(ms)
  {
    match IndexOf(ms, id)
    case None =>
    case Some(i) => TotalStockUpdate(ms, i, ms[i].(quantite := ms[i].quantite + delta));
  }

  /** What a request takes out of the listed materials: the sum, over the
      materials in the collection, of the strictly positive amount asked for its id. */
  function Requested(ms: seq<Material>, req: map<string, int>): int
  {
    if |ms| == 0 then 0 else Positive(req, ms[0].id) + Requested(ms[1..], req)
  }

  /** Lowering each material by its positive requested amount lowers the total by `Requested`. */
  lemma {:induction false} TotalStockLessRequested(after: seq<Material>, ms: seq<Material>, req: map<string, int>)
    requires |after| == |ms|
    requires forall i :: 0 <= i < |ms| ==> after[i].quantite == ms[i].quantite - Positive(req, ms[i].id)
    ensures TotalStock(after) == TotalStock(ms) - Requested(ms, req)
    decreases |ms|
  {
    if |ms| > 0 {
      TotalStockLessRequested(after[1..], ms[1..], req);
    }
  }

  /** Stock is conserved by a withdrawal over materials with unique ids: the
      total afterwards is the total before less exactly what was requested of
      the materials that exist; unknown ids add nothing and take nothing. */
  lemma WithdrawalConserves(ms: seq<Material>, req: map<string, int>)
    requires UniqueIds(ms)
    ensures TotalStock(ApplyWithdrawal(ms, req)) == TotalStock(ms) - Requested(ms, req)
  {
    WithdrawalEffect(ms, req);
    TotalStockLessRequested(ApplyWithdrawal(ms, req), ms, req);
  }

  /** Two withdrawals applied one after the other remove the sum of their
      amounts from the material each id first names: both decrements take effect. */
  lemma WithdrawalsAccumulate(ms: seq<Material>, a: map<string, int>, b: map<string, int>, id: string)
    requires IndexOf(ms, id).Some?
    ensures
      var i := IndexOf(ms, id).value;
      ApplyWithdrawal(ApplyWithdrawal(ms, a), b)[i].quantite == ms[i].quantite - Positive(a, id) - Positive(b, id)
  {
    IndexOfSameIds(ApplyWithdrawal(ms, a), ms, id);
    WithdrawalHits(ms, a, id);
    WithdrawalHits(ApplyWithdrawal(ms, a), b, id);
  }

  /** The order of two withdrawals does not matter for the resulting stock. */
  lemma WithdrawalsCommute(ms: seq<Material>, a: map<string, int>, b: map<string, int>)
    ensures ApplyWithdrawal(ApplyWithdrawal(ms, a), b) == ApplyWithdrawal(ApplyWithdrawal(ms, b), a)
  {
    var ma, mb := ApplyWithdrawal(ms, a), ApplyWithdrawal(ms, b);
    var ab, ba := ApplyWithdrawal(ma, b), ApplyWithdrawal(mb, a);
    forall i | 0 <= i < |ms| ensures ab[i] == ba[i] {
      var id := ms[i].id;
      IndexOfSameIds(ma, ms, id);
      IndexOfSameIds(mb, ms, id);
      if IndexOf(ms, id) == Some(i) {
        WithdrawalsAccumulate(ms, a, b, id);
        WithdrawalsAccumulate(ms, b, a, id);
      } else {
        WithdrawalSkips(ms, a, i);
        WithdrawalSkips(ms, b, i);
        WithdrawalSkips(ma, b, i);
        WithdrawalSkips(mb, a, i);
      }
    }
  }
}
