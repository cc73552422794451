/**
 * Sequence operations behind the repository queries: a filter (a
 * `where` clause), a stable sort by a descending key (an `order by ...
 * desc` clause) and the primary-key order in which a table is scanned.
 */
module Seqs {

  /** `where p`: keeps the elements satisfying `p`, in their order. */
  function Filter<T(==,!new)>(s: seq<T>, p: T -> bool): (r: seq<T>)
    ensures forall x :: x in r <==> x in s && p(x)
    ensures |r| <= |s|
  {
    if s == [] then []
    else
      assert s == [s[0]] + s[1..];
      (if p(s[0]) then [s[0]] else []) + Filter(s[1..], p)
  }

  /** Strictly increasing: the order of a primary-key scan. */
  ghost predicate Increasing(s: seq<int>) {
    forall i, j :: 0 <= i < j < |s| ==> s[i] < s[j]
  }

  /** Every element exceeds `b`. */
  ghost predicate Above(s: seq<int>, b: int) {
    forall i :: 0 <= i < |s| ==> b < s[i]
  }

  /** Filtering keeps a strictly increasing sequence strictly increasing. */
  lemma {:induction false} FilterIncreasing(s: seq<int>, p: int -> bool)
    requires Increasing(s)
    ensures Increasing(Filter(s, p))
  {
    if s != [] {
      var tail := s[1..];
      assert Increasing(tail) by {
        forall i, j | 0 <= i < j < |tail| ensures tail[i] < tail[j] {
          assert tail[i] == s[i + 1] && tail[j] == s[j + 1];
        }
      }
      FilterIncreasing(tail, p);
      var rest := Filter(tail, p);
      assert Above(rest, s[0]) by {
        forall i | 0 <= i < |rest| ensures s[0] < rest[i] {
          assert rest[i] in tail;
        }
      }
      assert s == [s[0]] + tail;
      if p(s[0]) {
        assert Filter(s, p) == [s[0]] + rest;
      } else {
        assert Filter(s, p) == rest;
      }
    }
  }

  /** Every key is at least the key of every later element. */
  ghost predicate SortedDesc<T>(s: seq<T>, key: T -> int) {
    forall i, j :: 0 <= i < j < |s| ==> key(s[i]) >= key(s[j])
  }

  /** Places `x` before the first element whose key is not larger. */
  function InsertDesc<T(==,!new)>(x: T, s: seq<T>, key: T -> int): (r: seq<T>)
    requires SortedDesc(s, key)
    ensures SortedDesc(r, key)
    ensures multiset(r) == multiset(s) + multiset{x}
  {
    if s == [] then [x]
    else if key(x) >= key(s[0]) then
      assert Bounded(s, key(x), key) by {
        forall i | 0 <= i < |s| ensures key(s[i]) <= key(x) {
          if i > 0 {
            assert key(s[0]) >= key(s[i]);
          }
        }
      }
      ConsSorted(x, s, key);
      [x] + s
    else
      var head, tail := s[0], s[1..];
      assert s == [head] + tail;
      var t := InsertDesc(x, tail, key);
      assert Bounded(t, key(head), key) by {
        forall i | 0 <= i < |t| ensures key(t[i]) <= key(head) {
          assert t[i] in multiset(t);
          if t[i] != x {
            var j :| 0 <= j < |tail| && tail[j] == t[i];
            assert key(s[0]) >= key(s[j + 1]);
          }
        }
      }
      ConsSorted(head, t, key);
      [head] + t
  }

  /** No key exceeds `b`. */
  ghost predicate Bounded<T>(s: seq<T>, b: int, key: T -> int) {
    forall i :: 0 <= i < |s| ==> key(s[i]) <= b
  }

  /** A head whose key bounds a sorted tail keeps it sorted. */
  lemma ConsSorted<T>(h: T, t: seq<T>, key: T -> int)
    requires SortedDesc(t, key) && Bounded(t, key(h), key)
    ensures SortedDesc([h] + t, key)
  {
    var r := [h] + t;
    forall i, j | 0 <= i < j < |r| ensures key(r[i]) >= key(r[j]) {
      assert r[j] == t[j - 1];
      if i > 0 {
        assert r[i] == t[i - 1];
      }
    }
  }

  /**
   * `order by key desc`: a stable insertion sort, so elements with equal
   * keys keep their scan order.
   */
  function SortDesc<T(==,!new)>(s: seq<T>, key: T -> int): (r: seq<T>)
    ensures SortedDesc(r, key)
    ensures multiset(r) == multiset(s)
    ensures |r| == |s|
  {
    if s == [] then []
    else
      assert s == [s[0]] + s[1..];
      InsertDesc(s[0], SortDesc(s[1..], key), key)
  }

  /**
   * The keys of a table whose ids are all below `bound`, in primary-key
   * order: the order a scan of the table returns them.
   */
  function KeysBelow(keys: set<int>, bound: nat): (r: seq<int>)
    ensures forall x :: x in r <==> x in keys && 0 <= x < bound
    ensures Increasing(r)
  {
    if bound == 0 then []
    else
      var front := KeysBelow(keys, bound - 1);
      assert forall i :: 0 <= i < |front| ==> front[i] < bound - 1 by {
        forall i | 0 <= i < |front| ensures front[i] < bound - 1 {
          assert front[i] in front;
        }
      }
      front + (if bound - 1 in keys then [bound - 1] else [])
  }

  /** A row of `table` under a key below `bound`. */
  ghost predicate Stored<T>(x: T, table: map<int, T>, bound: nat) {
    exists k :: k in table && 0 <= k < bound && table[k] == x
  }

  /** Scanning the keys below `bound` reaches exactly the rows stored below `bound`. */
  lemma ScanReachesStored<T>(x: T, table: map<int, T>, bound: nat)
    ensures (exists j :: 0 <= j < |KeysBelow(table.Keys, bound)| && KeysBelow(table.Keys, bound)[j] in table
                && table[KeysBelow(table.Keys, bound)[j]] == x)
            <==> Stored(x, table, bound)
  {
    var keys := KeysBelow(table.Keys, bound);
    if Stored(x, table, bound) {
      var k :| k in table && 0 <= k < bound && table[k] == x;
      assert k in keys;
      var j :| 0 <= j < |keys| && keys[j] == k;
    }
  }

  /** A table's rows in primary-key order: what scanning the table returns. */
  function ScanTable<T(!new)>(table: map<int, T>, bound: nat): (r: seq<T>)
    ensures |r| == |KeysBelow(table.Keys, bound)|
    ensures forall i :: 0 <= i < |r| ==> r[i] == table[KeysBelow(table.Keys, bound)[i]]
    ensures forall x :: x in r <==> Stored(x, table, bound)
  {
    var keys := KeysBelow(table.Keys, bound);
    var r := seq(|keys|, i requires 0 <= i < |keys| => table[keys[i]]);
    assert forall x: T :: x in r <==> Stored(x, table, bound) by {
      forall x: T ensures x in r <==> Stored(x, table, bound) {
        if x in r {
          var j :| 0 <= j < |r| && r[j] == x;
          assert keys[j] in keys;
          assert keys[j] in table && 0 <= keys[j] < bound && table[keys[j]] == x;
        }
        if Stored(x, table, bound) {
          var k :| k in table && 0 <= k < bound && table[k] == x;
          assert k in keys;
          var j :| 0 <= j < |keys| && keys[j] == k;
          assert r[j] == x;
        }
      }
    }
    r
  }
}
