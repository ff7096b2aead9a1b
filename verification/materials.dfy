/** The material endpoints that change one document: partial update and delete. */
module MaterialEndpoints {
  import opened Basics
  import opened Records
  import opened Lookup

  const NoDataDetail: string := "Aucune donnée à mettre à jour"
  const MaterialNotFound: string := "Matériel non trouvé"
  const DeletedMessage: string := "Matériel supprimé avec succès"

  /** The fields of `upd` that are not `None`: the `$set` document. */
  predicate HasData(upd: MaterialUpdate)
  {
    upd.nom.Some? || upd.quantite.Some?
  }

  /** `$set` of the supplied fields on one material. */
  function Patch(m: Material, upd: MaterialUpdate): Material
  {
    m.(nom := upd.nom.GetOr(m.nom), quantite := upd.quantite.GetOr(m.quantite))
  }

  /** PUT /materials/{id}: 400 when the update carries no field, 404 when no
      material has the id; otherwise the first material with the id gets the
      supplied fields and is returned as re-read from the store. */
  function UpdateMaterial(s: Store, id: string, upd: MaterialUpdate): (r: Response<Material>)
    ensures !HasData(upd) ==> r == Response(Err(HttpError(400, NoDataDetail)), s)
    ensures HasData(upd) && IndexOf(s.materials, id).None? ==>
      r == Response(Err(HttpError(404, MaterialNotFound)), s)
    ensures r.result.Ok? <==> HasData(upd) && IndexOf(s.materials, id).Some?
    ensures r.result.Ok? ==> |r.store.materials| == |s.materials|
    ensures r.result.Ok? ==>
      var i := IndexOf(s.materials, id).value;
      var m, m' := s.materials[i], r.store.materials[i];
      && r.store == s.(materials := r.store.materials)
      && (forall j :: 0 <= j < |s.materials| && j != i ==> r.store.materials[j] == s.materials[j])
      && m'.id == id && m'.dateAjout == m.dateAjout
      && m'.nom == (if upd.nom.Some? then upd.nom.value else m.nom)
      && m'.quantite == (if upd.quantite.Some? then upd.quantite.value else m.quantite)
      && IndexOf(r.store.materials, id) == Some(i)
      && r.result.value == m'
  {
    if !HasData(upd) then
      Response(Err(HttpError(400, NoDataDetail)), s)
    else
      match IndexOf(s.materials, id)
      case None => Response(Err(HttpError(404, MaterialNotFound)), s)
      case Some(i) =>
        var ms' := s.materials[i := Patch(s.materials[i], upd)];
        IndexOfSameIds(ms', s.materials, id);
        Response(Ok(ms'[i]), s.(materials := ms'))
  }

  /** DELETE /materials/{id}: 404 when no material has the id; otherwise the
      first material with the id is removed and all others keep their order. */
  function DeleteMaterial(s: Store, id: string): (r: Response<string>)
    ensures r.result.Err? <==> IndexOf(s.materials, id).None?
    ensures r.result.Err? ==> r == Response(Err(HttpError(404, MaterialNotFound)), s)
    ensures r.result.Ok? ==>
      var i := IndexOf(s.materials, id).value;
      && r.result.value == DeletedMessage
      && r.store == s.(materials := r.store.materials)
      && |r.store.materials| == |s.materials| - 1
      && multiset(r.store.materials) + multiset{s.materials[i]} == multiset(s.materials)
      && s.materials[i].id == id
      && (forall j :: 0 <= j < i ==> r.store.materials[j] == s.materials[j])
      && (forall j :: i <= j < |r.store.materials| ==> r.store.materials[j] == s.materials[j + 1])
  {
    match IndexOf(s.materials, id)
    case None => Response(Err(HttpError(404, MaterialNotFound)), s)
    case Some(i) =>
      RemoveAt(s.materials, i);
      Response(Ok(DeletedMessage), s.(materials := s.materials[..i] + s.materials[i + 1..]))
  }

  /** Removing position `i` drops exactly that element and shifts the rest down by one. */
  lemma RemoveAt(ms: seq<Material>, i: nat)
    requires i < |ms|
    ensures var r := ms[..i] + ms[i + 1..];
      && |r| == |ms| - 1
      && multiset(r) + multiset{ms[i]} == multiset(ms)
      && (forall j :: 0 <= j < i ==> r[j] == ms[j])
      && (forall j :: i <= j < |r| ==> r[j] == ms[j + 1])
  {
    assert ms == ms[..i] + [ms[i]] + ms[i + 1..];
  }

  /** Sending the same update twice leaves the store as one update does and
      returns the same material. */
  lemma UpdateIdempotent(s: Store, id: string, upd: MaterialUpdate)
    ensures UpdateMaterial(UpdateMaterial(s, id, upd).store, id, upd) == UpdateMaterial(s, id, upd)
  {
  }

  /** Update never changes an id, so unique material ids stay unique. */
  lemma UpdatePreservesUniqueIds(s: Store, id: string, upd: MaterialUpdate)
    requires UniqueIds(s.materials)
    ensures UniqueIds(UpdateMaterial(s, id, upd).store.materials)
  {
  }

  /** With unique ids, a successful delete leaves no material with that id, the
      ids stay unique, and deleting again answers 404. */
  lemma DeleteRemovesId(s: Store, id: string)
    requires UniqueIds(s.materials)
    requires DeleteMaterial(s, id).result.Ok?
    ensures var s' := DeleteMaterial(s, id).store;
      && (forall j :: 0 <= j < |s'.materials| ==> s'.materials[j].id != id)
      && UniqueIds(s'.materials)
      && DeleteMaterial(s', id) == Response(Err(HttpError(404, MaterialNotFound)), s')
  {
  }
}
