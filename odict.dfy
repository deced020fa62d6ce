/**
 * Insertion-ordered dictionaries with string keys, behaving as Python's `dict`
 * and `OrderedDict` do: assigning to a present key keeps its position, assigning
 * to an absent key appends it.
 */
module OrderedDict {

  datatype Option<+T> = None | Some(value: T) {
    function GetOr(default: T): T {
      if Some? then value else default
    }
  }

  /** One key/value pair of a dictionary. */
  datatype Entry<V> = Entry(key: string, value: V)

  /** The keys of a dictionary, in insertion order. */
  function Keys<V>(m: seq<Entry<V>>): (ks: seq<string>)
    ensures |ks| == |m|
    ensures forall i :: 0 <= i < |m| ==> ks[i] == m[i].key
  {
    if m == [] then [] else [m[0].key] + Keys(m[1..])
  }

  /** No key occurs twice: the invariant every Python dictionary keeps. */
  predicate DistinctKeys<V>(m: seq<Entry<V>>) {
    m == [] || (m[0].key !in Keys(m[1..]) && DistinctKeys(m[1..]))
  }

  /** `m.get(k)`: the value stored under `k`, if any. */
  function Get<V>(m: seq<Entry<V>>, k: string): Option<V> {
    if m == [] then None
    else if m[0].key == k then Some(m[0].value)
    else Get(m[1..], k)
  }

  /** `k in m`: a key has a value exactly when it is one of the keys. */
  lemma {:induction false} GetKeys<V>(m: seq<Entry<V>>, k: string)
    ensures Get(m, k).Some? <==> k in Keys(m)
  {
    if m != [] {
      GetKeys(m[1..], k);
      assert Keys(m) == [m[0].key] + Keys(m[1..]);
    }
  }

  /** The position of `k` in `m`, if present: what lets a recursion descend into the value stored there. */
  function KeyIndex<V>(m: seq<Entry<V>>, k: string): (r: Option<nat>)
    ensures r.None? <==> Get(m, k).None?
    ensures r.Some? ==> r.value < |m| && m[r.value].key == k && Get(m, k) == Some(m[r.value].value)
  {
    if m == [] then None
    else if m[0].key == k then Some(0)
    else match KeyIndex(m[1..], k)
      case None => None
      case Some(i) => Some(i + 1)
  }

  /** Assigning an absent key appends it. */
  lemma PutAbsent<V>(m: seq<Entry<V>>, k: string, v: V)
    requires Get(m, k).None?
    ensures Put(m, k, v) == m + [Entry(k, v)]
  {
    if m != [] {
      PutAbsent(m[1..], k, v);
      assert m == [m[0]] + m[1..];
    }
  }

  lemma {:induction false} KeysSnoc<V>(m: seq<Entry<V>>, e: Entry<V>)
    ensures Keys(m + [e]) == Keys(m) + [e.key]
  {
  }

  /** Looking up in a dictionary with one more entry at its end. */
  lemma {:induction false} GetSnoc<V>(m: seq<Entry<V>>, e: Entry<V>, k: string)
    ensures Get(m + [e], k) == if Get(m, k).Some? then Get(m, k) else if k == e.key then Some(e.value) else None
  {
    if m != [] {
      GetSnoc(m[1..], e, k);
      assert (m + [e])[1..] == m[1..] + [e];
    }
  }

  /** Keys stay distinct when a new one is appended, and only then. */
  lemma {:induction false} DistinctKeysSnoc<V>(m: seq<Entry<V>>, e: Entry<V>)
    ensures DistinctKeys(m + [e]) <==> DistinctKeys(m) && e.key !in Keys(m)
  {
    if m != [] {
      DistinctKeysSnoc(m[1..], e);
      assert (m + [e])[1..] == m[1..] + [e];
      assert Keys(m) == [m[0].key] + Keys(m[1..]);
      assert Keys(m + [e]) == Keys(m) + [e.key];
      assert Keys(m[1..] + [e]) == Keys(m[1..]) + [e.key];
    }
  }

  /** `m[k] = v`: replaces the value in place when `k` is present, appends otherwise. */
  function Put<V>(m: seq<Entry<V>>, k: string, v: V): (r: seq<Entry<V>>)
    ensures Get(r, k) == Some(v)
    ensures forall k' :: k' != k ==> Get(r, k') == Get(m, k')
  {
    if m == [] then [Entry(k, v)]
    else if m[0].key == k then [Entry(k, v)] + m[1..]
    else
      var r := [m[0]] + Put(m[1..], k, v);
      assert r[1..] == Put(m[1..], k, v);
      r
  }

  /** Assigning keeps the position of a present key and appends an absent one, so keys stay distinct. */
  lemma {:induction false} PutKeys<V>(m: seq<Entry<V>>, k: string, v: V)
    ensures Keys(Put(m, k, v)) == if k in Keys(m) then Keys(m) else Keys(m) + [k]
    ensures DistinctKeys(m) ==> DistinctKeys(Put(m, k, v))
  {
    if m != [] && m[0].key != k {
      PutKeys(m[1..], k, v);
      var r := Put(m, k, v);
      assert r[1..] == Put(m[1..], k, v);
      assert Keys(r) == [m[0].key] + Keys(r[1..]);
      assert Keys(m) == [m[0].key] + Keys(m[1..]);
    }
  }
}
