/** Python's `dict` with string keys (the store's dictionaries are JSON
    objects): a finite map that also remembers the order in which its keys
    were first inserted. Iterating `d.values()` follows that order;
    re-assigning an existing key keeps its place, `del` drops it.
 */
module Dicts {
  import opened Common

  datatype RawDict<V> = RawDict(order: seq<string>, entries: map<string, V>)

  /** The key order lists each stored key exactly once. */
  predicate WellOrdered<V>(d: RawDict<V>) {
    && Distinct(d.order)
    && (forall k :: k in d.entries ==> k in d.order)
    && (forall k :: k in d.order ==> k in d.entries)
  }

  type Dict<V> = d: RawDict<V> | WellOrdered(d) witness RawDict([], map[])

  function Empty<V>(): (d: Dict<V>)
    ensures d.entries == map[] && d.order == []
  {
    RawDict([], map[])
  }

  /** `d.get(k)`. */
  function Get<V>(d: Dict<V>, k: string): (r: Option<V>)
    ensures r.Some? <==> k in d.entries
    ensures r.Some? ==> r.value == d.entries[k]
  {
    if k in d.entries then Some(d.entries[k]) else None
  }

  /** `d[k] = v`: a new key goes to the end of the order, an existing one
      keeps its position. */
  function Put<V>(d: Dict<V>, k: string, v: V): (r: Dict<V>)
    ensures r.entries == d.entries[k := v]
    ensures k in d.entries ==> r.order == d.order
    ensures k !in d.entries ==> r.order == d.order + [k]
  {
    if k in d.entries then RawDict(d.order, d.entries[k := v])
    else RawDict(d.order + [k], d.entries[k := v])
  }

  /** Keep exactly the entries whose key satisfies `keep`, in their order. */
  function Restrict<V>(d: Dict<V>, keep: string -> bool): (r: Dict<V>)
    ensures forall k :: k in r.entries <==> k in d.entries && keep(k)
    ensures forall k :: k in r.entries ==> r.entries[k] == d.entries[k]
    ensures r.order == Filter(d.order, keep)
  {
    FilterDistinct(d.order, keep);
    RawDict(Filter(d.order, keep), map k | k in d.entries && keep(k) :: d.entries[k])
  }

  /** The test "is some key other than `k`". */
  function NotKey(k: string): string -> bool {
    k' => k' != k
  }

  /** `del d[k]`, which raises `KeyError` for a missing key: the key and its
      value go, and the other keys keep their order. */
  function Remove<V>(d: Dict<V>, k: string): (r: Dict<V>)
    requires k in d.entries
    ensures r.entries == d.entries - {k}
    ensures forall x :: x in r.order <==> x in d.order && x != k
    ensures r.order == Filter(d.order, NotKey(k))
  {
    Restrict(d, NotKey(k))
  }

  /** The values stored under `keys`, in that order. */
  function Lookup<V>(keys: seq<string>, m: map<string, V>): (r: seq<V>)
    requires forall i :: 0 <= i < |keys| ==> keys[i] in m
    ensures |r| == |keys|
    ensures forall i :: 0 <= i < |r| ==> r[i] == m[keys[i]]
  {
    if keys == [] then [] else [m[keys[0]]] + Lookup(keys[1..], m)
  }

  /** `d.values()`, in insertion order. */
  function Values<V>(d: Dict<V>): (r: seq<V>)
    ensures |r| == |d.order|
    ensures forall i :: 0 <= i < |r| ==> d.order[i] in d.entries && r[i] == d.entries[d.order[i]]
  {
    Lookup(d.order, d.entries)
  }

  /** Every listed value is stored under some key, and every stored value is listed. */
  lemma ValuesAreStored<V>(d: Dict<V>)
    ensures forall v :: v in Values(d) ==> v in d.entries.Values
    ensures forall k :: k in d.entries ==> d.entries[k] in Values(d)
  {
    forall k | k in d.entries
      ensures d.entries[k] in Values(d)
    {
      var i :| 0 <= i < |d.order| && d.order[i] == k;
      assert Values(d)[i] == d.entries[k];
    }
  }

  /** When each value records the key it is stored under, no value is listed twice. */
  lemma ValuesDistinct<V>(d: Dict<V>, keyOf: V -> string)
    requires forall k :: k in d.entries ==> keyOf(d.entries[k]) == k
    ensures forall i, j :: 0 <= i < j < |Values(d)| ==> Values(d)[i] != Values(d)[j]
  {
    var vs := Values(d);
    forall i, j | 0 <= i < j < |vs|
      ensures vs[i] != vs[j]
    {
      assert keyOf(vs[i]) == d.order[i] != d.order[j] == keyOf(vs[j]);
    }
  }

  /** The keys whose value passes `p`. */
  function KeysWhere<V>(d: Dict<V>, p: V -> bool): set<string> {
    set k | k in d.entries && p(d.entries[k])
  }

  /** The number of listed values passing `p` is the number of keys whose value passes `p`. */
  lemma CountValues<V>(d: Dict<V>, p: V -> bool)
    ensures |Filter(Values(d), p)| == |KeysWhere(d, p)|
  {
    CountLookup(d.order, d.entries, p);
    assert (set k | k in d.order && p(d.entries[k])) == KeysWhere(d, p);
  }

  lemma {:induction false} CountLookup<V>(keys: seq<string>, m: map<string, V>, p: V -> bool)
    requires Distinct(keys)
    requires forall i :: 0 <= i < |keys| ==> keys[i] in m
    ensures |Filter(Lookup(keys, m), p)| == |set k | k in keys && p(m[k])|
  {
    if keys != [] {
      var rest := keys[1..];
      CountLookup(rest, m, p);
      var v := m[keys[0]];
      assert Lookup(keys, m) == [v] + Lookup(rest, m);
      FilterCons(v, Lookup(rest, m), p);
      CountKeysCons(keys, m, p);
    }
  }

  lemma CountKeysCons<V>(keys: seq<string>, m: map<string, V>, p: V -> bool)
    requires keys != [] && Distinct(keys)
    requires forall i :: 0 <= i < |keys| ==> keys[i] in m
    ensures |set k | k in keys && p(m[k])|
         == (if p(m[keys[0]]) then 1 else 0) + |set k | k in keys[1..] && p(m[k])|
  {
    var s := set k | k in keys && p(m[k]);
    var t := set k | k in keys[1..] && p(m[k]);
    assert keys[0] !in t;
    if p(m[keys[0]]) {
      assert s == t + {keys[0]};
    } else {
      assert s == t;
    }
  }

  /** The position of a stored key in the order. */
  function IndexOf<V>(d: Dict<V>, k: string): (i: nat)
    requires k in d.entries
    ensures i < |d.order| && d.order[i] == k
  {
    IndexIn(d.order, k)
  }

  function IndexIn(s: seq<string>, k: string): (i: nat)
    requires k in s
    ensures i < |s| && s[i] == k
  {
    if s[0] == k then 0 else 1 + IndexIn(s[1..], k)
  }

  /** Overwriting a stored key changes the listing in that key's slot only. */
  lemma ValuesPutExisting<V>(d: Dict<V>, k: string, v: V)
    requires k in d.entries
    ensures Values(Put(d, k, v)) == Values(d)[IndexOf(d, k) := v]
  {
    var i := IndexOf(d, k);
    var a := Values(Put(d, k, v));
    var b := Values(d)[i := v];
    assert |a| == |b|;
    forall j | 0 <= j < |a|
      ensures a[j] == b[j]
    {
      if j != i {
        assert d.order[j] != d.order[i];
      }
    }
  }

  /** A fresh key appends its value to the listing. */
  lemma ValuesPutNew<V>(d: Dict<V>, k: string, v: V)
    requires k !in d.entries
    ensures Values(Put(d, k, v)) == Values(d) + [v]
  {
    var a := Values(Put(d, k, v));
    var b := Values(d) + [v];
    assert |a| == |b|;
    forall j | 0 <= j < |a|
      ensures a[j] == b[j]
    {
      if j < |d.order| {
        assert d.order[j] != k;
      }
    }
  }
}
