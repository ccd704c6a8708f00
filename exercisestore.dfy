/** What the service relies on from the exercise table, stated as properties of an answer
    rather than as queries: a lookup by ids returns every catalogue row whose id is
    among them, once, in no particular order. */
module ExerciseStore {

  import opened Plans

  /** The catalogue rows whose id is one of `ids`, in catalogue order. */
  function SelectByIds(catalog: seq<Exercise>, ids: seq<string>): (rows: seq<Exercise>)
    ensures forall ex :: ex in rows <==> ex in catalog && ex.id in ids
    decreases |catalog|
  {
    if |catalog| == 0 then []
    else if catalog[0].id in ids then [catalog[0]] + SelectByIds(catalog[1..], ids)
    else SelectByIds(catalog[1..], ids)
  }

  /** `rows` is a possible answer of `WHERE id = ANY(ids)`: the selected rows in any order. */
  predicate IsLookupResult(catalog: seq<Exercise>, ids: seq<string>, rows: seq<Exercise>) {
    multiset(rows) == multiset(SelectByIds(catalog, ids))
  }

  /** No two catalogue rows share an id. */
  predicate UniqueIds(catalog: seq<Exercise>) {
    forall i, j :: 0 <= i < |catalog| && 0 <= j < |catalog| && catalog[i].id == catalog[j].id ==> i == j
  }

  /** The rows of a lookup are exactly the catalogue rows with a requested id. */
  lemma LookupRows(catalog: seq<Exercise>, ids: seq<string>, rows: seq<Exercise>)
    requires IsLookupResult(catalog, ids, rows)
    ensures forall ex :: ex in rows <==> ex in catalog && ex.id in ids
  {
    var selected := SelectByIds(catalog, ids);
    forall ex ensures ex in rows <==> ex in selected {
      assert ex in rows <==> multiset(rows)[ex] > 0;
      assert ex in selected <==> multiset(selected)[ex] > 0;
    }
  }
}
