/** A JavaScript plain object as the quiz engine uses it: an ordered list of
    (key, value) pairs. None of the keys the engine stores (kana characters) is
    an array index, so Object.keys and Object.entries list them in insertion
    order; assigning to an existing key keeps its place, assigning to a new key
    appends it. */
module Entries {

  datatype Option<T> = None | Some(value: T)

  /** Object.keys: the keys in enumeration order. */
  function Keys<V>(t: seq<(string, V)>): (ks: seq<string>)
    ensures |ks| == |t|
    ensures forall i {:trigger ks[i]} :: 0 <= i < |t| ==> ks[i] == t[i].0
  {
    if t == [] then [] else [t[0].0] + Keys(t[1..])
  }

  /** An object has each key at most once. */
  predicate Distinct<V>(t: seq<(string, V)>)
  {
    t == [] || (t[0].0 !in Keys(t[1..]) && Distinct(t[1..]))
  }

  /** Property read `o[k]`: the value stored under k, or None for `undefined`. */
  function Find<V>(t: seq<(string, V)>, k: string): Option<V>
  {
    if t == [] then None
    else if t[0].0 == k then Some(t[0].1)
    else Find(t[1..], k)
  }

  /** A read finds a value exactly when the key is one of the object's keys. */
  lemma {:induction false} FindKeys<V>(t: seq<(string, V)>, k: string)
    ensures Find(t, k).Some? <==> k in Keys(t)
  {
    if t != [] && t[0].0 != k {
      FindKeys(t[1..], k);
    }
  }

  /** A read that finds a value finds it in an entry under the key read. */
  lemma {:induction false} FindMember<V>(t: seq<(string, V)>, k: string)
    ensures Find(t, k).Some? ==> (k, Find(t, k).value) in t
  {
    if t != [] && t[0].0 != k {
      FindMember(t[1..], k);
    }
  }

  /** In an object an entry is present exactly when a read of its key gives its value. */
  lemma {:induction false} FindIn<V>(t: seq<(string, V)>, k: string, v: V)
    requires Distinct(t)
    ensures (k, v) in t <==> Find(t, k) == Some(v)
  {
    if t != [] {
      assert t == [t[0]] + t[1..];
      FindIn(t[1..], k, v);
      FindKeys(t[1..], k);
    }
  }

  /** Property write `o[k] = v`: overwrites in place when k is a key, appends otherwise. */
  function Put<V>(t: seq<(string, V)>, k: string, v: V): (r: seq<(string, V)>)
    ensures Find(r, k) == Some(v)
    ensures forall j :: j != k ==> Find(r, j) == Find(t, j)
  {
    if t == [] then [(k, v)]
    else if t[0].0 == k then [(k, v)] + t[1..]
    else [t[0]] + Put(t[1..], k, v)
  }

  /** A write keeps the key order: an existing key stays where it is, a new one goes last. */
  lemma {:induction false} PutKeys<V>(t: seq<(string, V)>, k: string, v: V)
    ensures k in Keys(t) ==> Keys(Put(t, k, v)) == Keys(t)
    ensures k !in Keys(t) ==> Put(t, k, v) == t + [(k, v)]
    ensures forall e :: e in Put(t, k, v) ==> e in t || e == (k, v)
    ensures forall j :: j in Keys(Put(t, k, v)) <==> j == k || j in Keys(t)
  {
    if t != [] && t[0].0 != k {
      PutKeys(t[1..], k, v);
      assert t == [t[0]] + t[1..];
    }
  }

  /** A write never produces a second entry for a key. */
  lemma {:induction false} PutDistinct<V>(t: seq<(string, V)>, k: string, v: V)
    requires Distinct(t)
    ensures Distinct(Put(t, k, v))
  {
    if t != [] && t[0].0 != k {
      PutDistinct(t[1..], k, v);
      PutKeys(t[1..], k, v);
    }
  }
}
