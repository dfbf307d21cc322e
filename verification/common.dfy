/** Small sequence utilities shared by the whole model: an Option type for
    Python's `None`, Python's prefix slice `s[:n]`, and the filter / map / sum
    comprehensions the store's listing functions are built from.
 */
module Common {

  /** `None` or a value, for the source's `Optional[...]` fields and returns. */
  datatype Option<+T> = None | Some(value: T)

  /** The value inside `o`, or `default` for `None` (Python's `x or default`
      when `x` is an optional list). */
  function OrElse<T>(o: Option<T>, default: T): T {
    match o
    case Some(v) => v
    case None => default
  }

  /** Python's prefix slice `s[:n]`: a non-negative `n` keeps at most `n`
      elements, a negative `n` drops `-n` elements from the end. */
  function SliceTo<T>(s: seq<T>, n: int): (r: seq<T>)
    ensures n >= 0 ==> |r| == (if n <= |s| then n else |s|)
    ensures n < 0 ==> |r| == (if |s| + n >= 0 then |s| + n else 0)
    ensures |r| <= |s| && r == s[..|r|]
  {
    if n >= 0 then
      (if n <= |s| then s[..n] else s)
    else if |s| + n >= 0 then s[..|s| + n]
    else []
  }

  /** No element occurs twice. */
  predicate Distinct<T(==)>(s: seq<T>) {
    forall i, j :: 0 <= i < j < |s| ==> s[i] != s[j]
  }

  /** The elements of `s` that satisfy `p`, in their original order
      (a Python list comprehension with an `if`). */
  function Filter<T(==)>(s: seq<T>, p: T -> bool): (r: seq<T>)
    ensures |r| <= |s|
    ensures forall i :: 0 <= i < |r| ==> r[i] in s && p(r[i])
    ensures forall i :: 0 <= i < |s| && p(s[i]) ==> s[i] in r
  {
    if s == [] then []
    else
      assert s == [s[0]] + s[1..];
      (if p(s[0]) then [s[0]] else []) + Filter(s[1..], p)
  }

  /** Membership in a filtered sequence, for one element. */
  lemma FilterMember<T>(s: seq<T>, p: T -> bool, x: T)
    ensures x in Filter(s, p) <==> x in s && p(x)
  {
    if x in s && p(x) {
      var i :| 0 <= i < |s| && s[i] == x;
      assert s[i] in Filter(s, p);
    }
  }

  /** Filtering a sequence with a given first element. */
  lemma FilterCons<T>(x: T, t: seq<T>, p: T -> bool)
    ensures Filter([x] + t, p) == (if p(x) then [x] else []) + Filter(t, p)
  {
    assert ([x] + t)[0] == x && ([x] + t)[1..] == t;
  }

  /** Filtering distributes over concatenation. */
  lemma {:induction false} FilterConcat<T>(a: seq<T>, b: seq<T>, p: T -> bool)
    ensures Filter(a + b, p) == Filter(a, p) + Filter(b, p)
  {
    if a == [] {
      assert a + b == b;
    } else {
      assert (a + b)[0] == a[0];
      assert (a + b)[1..] == a[1..] + b;
      FilterConcat(a[1..], b, p);
    }
  }

  /** Filtering a sequence without repetitions leaves one without repetitions. */
  lemma {:induction false} FilterDistinct<T>(s: seq<T>, p: T -> bool)
    requires Distinct(s)
    ensures Distinct(Filter(s, p))
  {
    if s != [] {
      FilterDistinct(s[1..], p);
      var rest := Filter(s[1..], p);
      assert s[0] !in rest;
    }
  }

  /** `[f(x) for x in s]`. */
  function MapSeq<T, U>(s: seq<T>, f: T -> U): (r: seq<U>)
    ensures |r| == |s|
    ensures forall i :: 0 <= i < |s| ==> r[i] == f(s[i])
  {
    seq(|s|, i requires 0 <= i < |s| => f(s[i]))
  }

  lemma MapSeqConcat<T, U>(a: seq<T>, b: seq<T>, f: T -> U)
    ensures MapSeq(a + b, f) == MapSeq(a, f) + MapSeq(b, f)
  {
    assert forall i :: 0 <= i < |a| ==> (a + b)[i] == a[i];
    assert forall i :: |a| <= i < |a| + |b| ==> (a + b)[i] == b[i - |a|];
  }

  /** `sum(f(x) for x in s)`. */
  function Sum<T>(s: seq<T>, f: T -> int): int {
    if s == [] then 0 else f(s[0]) + Sum(s[1..], f)
  }

  /** The sum of a concatenation is the sum of the parts. */
  lemma {:induction false} SumConcat<T>(a: seq<T>, b: seq<T>, f: T -> int)
    ensures Sum(a + b, f) == Sum(a, f) + Sum(b, f)
  {
    if a == [] {
      assert a + b == b;
    } else {
      assert (a + b)[0] == a[0];
      assert (a + b)[1..] == a[1..] + b;
      SumConcat(a[1..], b, f);
    }
  }

  /** Replacing the element at `i` by `v` changes a filtered sum by exactly the
      difference, provided both the old and the new element pass the filter. */
  lemma {:induction false} SumFilterUpdate<T>(s: seq<T>, i: nat, v: T, p: T -> bool, f: T -> int)
    requires i < |s| && p(s[i]) && p(v)
    ensures Sum(Filter(s[i := v], p), f) == Sum(Filter(s, p), f) - f(s[i]) + f(v)
    ensures |Filter(s[i := v], p)| == |Filter(s, p)|
  {
    var t := s[i := v];
    assert s == s[..i] + [s[i]] + s[i + 1..];
    assert t == s[..i] + [v] + s[i + 1..];
    FilterConcat(s[..i] + [s[i]], s[i + 1..], p);
    FilterConcat(s[..i], [s[i]], p);
    FilterConcat(s[..i] + [v], s[i + 1..], p);
    FilterConcat(s[..i], [v], p);
    assert Filter([s[i]], p) == [s[i]] by { assert [s[i]][1..] == []; }
    assert Filter([v], p) == [v] by { assert [v][1..] == []; }
    var a := Filter(s[..i], p);
    var b := Filter(s[i + 1..], p);
    SumConcat(a + [s[i]], b, f);
    SumConcat(a, [s[i]], f);
    SumConcat(a + [v], b, f);
    SumConcat(a, [v], f);
    assert Sum([s[i]], f) == f(s[i]) by { assert [s[i]][1..] == []; }
    assert Sum([v], f) == f(v) by { assert [v][1..] == []; }
  }

  /** Replacing an element that fails the filter by one that also fails it
      leaves the filtered sequence as it was. */
  lemma {:induction false} FilterUpdateOutside<T>(s: seq<T>, i: nat, v: T, p: T -> bool)
    requires i < |s| && !p(s[i]) && !p(v)
    ensures Filter(s[i := v], p) == Filter(s, p)
  {
    assert s == s[..i] + [s[i]] + s[i + 1..];
    assert s[i := v] == s[..i] + [v] + s[i + 1..];
    FilterConcat(s[..i] + [s[i]], s[i + 1..], p);
    FilterConcat(s[..i], [s[i]], p);
    FilterConcat(s[..i] + [v], s[i + 1..], p);
    FilterConcat(s[..i], [v], p);
    assert Filter([s[i]], p) == [] by { assert [s[i]][1..] == []; }
    assert Filter([v], p) == [] by { assert [v][1..] == []; }
  }
}
