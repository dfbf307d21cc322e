/** Python's `sorted(xs, key=..., reverse=True)` over keys that are pairs of
    integers compared lexicographically: a stable sort into non-increasing
    key order, so that entries with equal keys keep their original order.
 */
module Sorting {
  import opened Common

  /** A sort key; tuples compare lexicographically in Python. */
  type Key = (int, int)

  predicate KeyGe(a: Key, b: Key) {
    a.0 > b.0 || (a.0 == b.0 && a.1 >= b.1)
  }

  /** Non-increasing by `key`. */
  predicate SortedDesc<T>(s: seq<T>, key: T -> Key) {
    forall i, j :: 0 <= i < j < |s| ==> KeyGe(key(s[i]), key(s[j]))
  }

  /** Put `x` in front of the first element whose key it is at least. */
  function Insert<T(==)>(x: T, t: seq<T>, key: T -> Key): (r: seq<T>)
    ensures |r| == |t| + 1
    ensures multiset(r) == multiset(t) + multiset{x}
  {
    if t == [] then [x]
    else if KeyGe(key(x), key(t[0])) then [x] + t
    else
      assert t == [t[0]] + t[1..];
      [t[0]] + Insert(x, t[1..], key)
  }

  /** Inserting into a sorted sequence keeps it sorted. */
  lemma {:induction false} InsertSorted<T>(x: T, t: seq<T>, key: T -> Key)
    requires SortedDesc(t, key)
    ensures SortedDesc(Insert(x, t, key), key)
  {
    if t != [] && !KeyGe(key(x), key(t[0])) {
      var rest := Insert(x, t[1..], key);
      InsertSorted(x, t[1..], key);
      forall j | 0 <= j < |rest|
        ensures KeyGe(key(t[0]), key(rest[j]))
      {
        assert rest[j] in multiset(rest);
        if rest[j] != x {
          assert rest[j] in multiset(t[1..]);
          var m :| 0 <= m < |t[1..]| && t[1..][m] == rest[j];
          assert t[m + 1] == rest[j];
        }
      }
      var r := [t[0]] + rest;
      forall i, j | 0 <= i < j < |r|
        ensures KeyGe(key(r[i]), key(r[j]))
      {
        if i > 0 {
          assert r[i] == rest[i - 1] && r[j] == rest[j - 1];
        } else {
          assert r[j] == rest[j - 1];
        }
      }
    }
  }

  /** The stable descending sort. */
  function SortDesc<T(==)>(s: seq<T>, key: T -> Key): (r: seq<T>)
    ensures |r| == |s|
    ensures multiset(r) == multiset(s)
    ensures SortedDesc(r, key)
  {
    if s == [] then []
    else
      assert s == [s[0]] + s[1..];
      InsertSorted(s[0], SortDesc(s[1..], key), key);
      Insert(s[0], SortDesc(s[1..], key), key)
  }

  function HasKey<T>(key: T -> Key, k: Key): T -> bool {
    x => key(x) == k
  }

  /** Inserting `x` only adds `x` to the run of elements whose key equals its own. */
  lemma {:induction false} InsertKeepsRuns<T>(x: T, t: seq<T>, key: T -> Key, k: Key)
    ensures Filter(Insert(x, t, key), HasKey(key, k))
         == (if key(x) == k then [x] else []) + Filter(t, HasKey(key, k))
    decreases |t|, 1
  {
    var p := HasKey(key, k);
    if t == [] {
      FilterCons(x, [], p);
      assert [x] + [] == [x];
    } else if KeyGe(key(x), key(t[0])) {
      FilterCons(x, t, p);
    } else {
      InsertKeepsRunsDeep(x, t, key, k);
    }
  }

  lemma {:induction false} InsertKeepsRunsDeep<T>(x: T, t: seq<T>, key: T -> Key, k: Key)
    requires t != [] && !KeyGe(key(x), key(t[0]))
    ensures Filter(Insert(x, t, key), HasKey(key, k))
         == (if key(x) == k then [x] else []) + Filter(t, HasKey(key, k))
    decreases |t|, 0
  {
    var p := HasKey(key, k);
    var rest := Insert(x, t[1..], key);
    var tail := Filter(t[1..], p);
    var a := if p(t[0]) then [t[0]] else [];
    var b := if p(x) then [x] else [];
    assert Insert(x, t, key) == [t[0]] + rest;
    FilterCons(t[0], rest, p);
    InsertKeepsRuns(x, t[1..], key, k);
    assert Filter(Insert(x, t, key), p) == a + (b + tail);
    assert Filter(t, p) == a + tail;
    assert a == [] || b == [];
    if a == [] {
      assert a + tail == tail;
      assert a + (b + tail) == b + tail;
    } else {
      assert b + tail == tail;
      assert b + (a + tail) == a + tail;
    }
  }

  /** Stability: for every key value, the elements carrying it appear in the
      sorted result in exactly the order they had in the input. */
  lemma {:induction false} SortDescStable<T>(s: seq<T>, key: T -> Key, k: Key)
    ensures Filter(SortDesc(s, key), HasKey(key, k)) == Filter(s, HasKey(key, k))
  {
    if s != [] {
      SortDescStable(s[1..], key, k);
      InsertKeepsRuns(s[0], SortDesc(s[1..], key), key, k);
    }
  }
}
