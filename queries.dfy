/**
 * Table scans and the result rules of Spring Data finders. A table is a
 * map from primary key to row; every key was drawn from the id sequence,
 * so a scan of the keys below the sequence's next value sees every row.
 */
module Queries {
  import opened Common
  import opened Seqs

  /** `where p` over a table: the keys below `bound` of the matching rows, in key order. */
  function Where<T>(table: map<int, T>, bound: nat, p: T -> bool): (r: seq<int>)
    ensures forall k :: k in r <==> k in table && 0 <= k < bound && p(table[k])
    ensures Increasing(r)
  {
    var keys := KeysBelow(table.Keys, bound);
    FilterIncreasing(keys, k => k in table && p(table[k]));
    Filter(keys, k => k in table && p(table[k]))
  }

  /** No row matches exactly when the scan is empty. */
  lemma NoMatch<T>(table: map<int, T>, bound: nat, p: T -> bool)
    ensures |Where(table, bound, p)| == 0 <==> forall k :: k in table && 0 <= k < bound ==> !p(table[k])
  {
    var m := Where(table, bound, p);
    if |m| != 0 {
      assert m[0] in m;
    }
  }

  /** Two distinct rows match exactly when the scan holds two keys or more. */
  lemma SeveralMatches<T>(table: map<int, T>, bound: nat, p: T -> bool)
    ensures |Where(table, bound, p)| >= 2 <==>
      exists a, b :: a in table && b in table && 0 <= a < b < bound && p(table[a]) && p(table[b])
  {
    var m := Where(table, bound, p);
    if |m| >= 2 {
      assert m[0] in m && m[1] in m;
    } else if |m| == 1 {
      assert forall k :: k in m ==> k == m[0];
    }
  }

  /**
   * A finder declared to return one entity: null when no row matches, the
   * row when one does, and IncorrectResultSize when two or more do.
   */
  function FindOne<T(==)>(table: map<int, T>, bound: nat, p: T -> bool): (r: Result<Option<T>>)
    ensures r == Ok(None) <==> forall k :: k in table && 0 <= k < bound ==> !p(table[k])
    ensures r.Ok? && r.value.Some? ==>
      exists k :: k in table && 0 <= k < bound && p(table[k]) && r.value.value == table[k]
    ensures r.Err? <==> exists a, b :: a in table && b in table && 0 <= a < b < bound && p(table[a]) && p(table[b])
    ensures r.Err? ==> r.error == IncorrectResultSize
  {
    var matches := Where(table, bound, p);
    NoMatch(table, bound, p);
    SeveralMatches(table, bound, p);
    if |matches| == 0 then Ok(None)
    else if |matches| == 1 then
      assert matches[0] in matches;
      Ok(Some(table[matches[0]]))
    else
      Err(IncorrectResultSize)
  }

  /** `findById(id).orElseThrow(EntityNotFoundException::new)`. */
  function FindById<T>(table: map<int, T>, id: int): (r: Result<T>)
    ensures r.Ok? <==> id in table
    ensures r.Ok? ==> r.value == table[id]
    ensures r.Err? ==> r.error == EntityNotFound
  {
    if id in table then Ok(table[id]) else Err(EntityNotFound)
  }
}
