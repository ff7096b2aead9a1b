/** Lookup by `id` in a collection, as `find_one({"id": ...})`, `update_one` and
    `delete_one` do it: the first document in natural order whose id matches. */
module Lookup {
  import opened Basics
  import opened Records

  /** Position of the first material whose id is `id`, if any: the document
      `update_one` and `delete_one` act on. */
  function IndexOf(ms: seq<Material>, id: string): (r: Option<nat>)
    ensures r.Some? ==> r.value < |ms| && ms[r.value].id == id
    ensures r.Some? ==> forall j :: 0 <= j < r.value ==> ms[j].id != id
    ensures r.None? <==> forall j :: 0 <= j < |ms| ==> ms[j].id != id
    decreases |ms|
  {
    if |ms| == 0 then None
    else if ms[0].id == id then Some(0)
    else
      match IndexOf(ms[1..], id)
      case None => None
      case Some(i) => Some(i + 1)
  }

  /** The first agent or supervisor whose id is `id` (`find_one`), or `None`. */
  function FindPerson(ps: seq<Person>, id: string): (r: Option<Person>)
    ensures r.None? <==> forall j :: 0 <= j < |ps| ==> ps[j].id != id
    ensures r.Some? ==> r.value.id == id
    ensures r.Some? ==> exists i :: 0 <= i < |ps| && ps[i] == r.value && (forall j :: 0 <= j < i ==> ps[j].id != id)
    decreases |ps|
  {
    if |ps| == 0 then None
    else if ps[0].id == id then Some(ps[0])
    else
      var r := FindPerson(ps[1..], id);
      assert r.Some? ==> forall j :: 1 <= j < |ps| ==> ps[1..][j - 1] == ps[j];
      r
  }

  /** No two materials share an id (what `uuid4` ids give in practice). */
  ghost predicate UniqueIds(ms: seq<Material>)
  {
    forall i, j :: 0 <= i < |ms| && 0 <= j < |ms| && i != j ==> ms[i].id != ms[j].id
  }

  /** Under unique ids the first match is the only match, so `IndexOf` finds
      exactly the material that carries the id. */
  lemma IndexOfUnique(ms: seq<Material>, i: nat)
    requires UniqueIds(ms)
    requires i < |ms|
    ensures IndexOf(ms, ms[i].id) == Some(i)
  {
  }

  /** `IndexOf` depends only on the ids: two collections with the same ids
      position by position give the same answer for every id. */
  lemma IndexOfSameIds(a: seq<Material>, b: seq<Material>, id: string)
    requires |a| == |b|
    requires forall i :: 0 <= i < |a| ==> a[i].id == b[i].id
    ensures IndexOf(a, id) == IndexOf(b, id)
  {
  }
}
