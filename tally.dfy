/** The error tally: for each symbol answered wrongly, the number of wrong
    answers not yet paid back by correct ones. It is a plain object in the
    engine, so it is an ordered entry list here, and `updateFailedSymbols`
    keeps it normal: no zero counts, entries ordered by non-increasing count,
    ties in their previous order (Array.prototype.sort is stable). */
module Tally {
  import opened Entries

  type Tally = seq<(string, int)>

  /** A count as the engine reads it: `errors[k]` with a missing key read as 0
      (`undefined > 0` is false and `undefined || 0` is 0). */
  function CountOf(t: Tally, k: string): int
  {
    match Find(t, k)
    case Some(c) => c
    case None => 0
  }

  /** The entries whose count is c, in their order: a tally restricted to one count. */
  function OfCount(t: Tally, c: int): (r: Tally)
    ensures forall e :: e in r <==> e in t && e.1 == c
  {
    if t == [] then []
    else (if t[0].1 == c then [t[0]] else []) + OfCount(t[1..], c)
  }

  /** Every count is at least one. */
  ghost predicate AllPositive(t: Tally)
  {
    forall e :: e in t ==> e.1 > 0
  }

  /** Counts never increase from one entry to the next. */
  ghost predicate Sorted(t: Tally)
  {
    forall i, j :: 0 <= i < j < |t| ==> t[i].1 >= t[j].1
  }

  /** What `updateFailedSymbols` leaves behind: sorted, and no count is zero. */
  ghost predicate IsNormal(t: Tally)
  {
    Sorted(t) && forall e :: e in t ==> e.1 != 0
  }

  /** `Object.entries(errors).filter(([, value]) => value !== 0)`: negative counts pass. */
  function NonZero(t: Tally): (r: Tally)
    ensures |r| <= |t|
  {
    if t == [] then []
    else if t[0].1 != 0 then [t[0]] + NonZero(t[1..])
    else NonZero(t[1..])
  }

  /** One step of a stable sort by non-increasing count: e goes in front of the
      first entry whose count is not larger than its own. */
  function Insert(e: (string, int), s: Tally): (r: Tally)
    ensures |r| == |s| + 1
  {
    if s == [] || s[0].1 <= e.1 then [e] + s
    else [s[0]] + Insert(e, s[1..])
  }

  /** `entries.sort((a, b) => b[1] - a[1])`, as an insertion sort. */
  function SortByCount(t: Tally): (r: Tally)
    ensures |r| == |t|
  {
    if t == [] then [] else Insert(t[0], SortByCount(t[1..]))
  }

  /** The tally `updateFailedSymbols` stores: the non-zero entries, sorted. */
  function Normalize(t: Tally): Tally
  {
    SortByCount(NonZero(t))
  }

  // ---------------------------------------------------------------------------
  // The filter

  /** The filter keeps exactly the entries whose count is not zero. */
  lemma {:induction false} NonZeroMembers(t: Tally)
    ensures forall e :: e in NonZero(t) <==> e in t && e.1 != 0
  {
    if t != [] {
      NonZeroMembers(t[1..]);
      assert t == [t[0]] + t[1..];
    }
  }

  /** The filter keeps exactly the entries of each non-zero count, in their order. */
  lemma {:induction false} NonZeroOfCount(t: Tally, c: int)
    ensures OfCount(NonZero(t), c) == if c == 0 then [] else OfCount(t, c)
  {
    if t != [] {
      NonZeroOfCount(t[1..], c);
    }
  }

  /** The filter keeps a subset of the keys, so an object stays an object. */
  lemma {:induction false} NonZeroDistinct(t: Tally)
    requires Distinct(t)
    ensures Distinct(NonZero(t))
    ensures forall k :: k in Keys(NonZero(t)) ==> k in Keys(t)
  {
    if t != [] {
      NonZeroDistinct(t[1..]);
    }
  }

  /** Filtering a tally that has no zero counts changes nothing. */
  lemma {:induction false} NonZeroIdentity(t: Tally)
    requires forall e :: e in t ==> e.1 != 0
    ensures NonZero(t) == t
  {
    if t != [] {
      assert t[0] in t;
      NonZeroIdentity(t[1..]);
    }
  }

  // ---------------------------------------------------------------------------
  // The sort

  /** Inserting adds the one entry and loses none. */
  lemma {:induction false} InsertMultiset(e: (string, int), s: Tally)
    ensures multiset(Insert(e, s)) == multiset(s) + multiset{e}
  {
    if s != [] && s[0].1 > e.1 {
      InsertMultiset(e, s[1..]);
      assert s == [s[0]] + s[1..];
    }
  }

  /** The sort is a permutation. */
  lemma {:induction false} SortMultiset(t: Tally)
    ensures multiset(SortByCount(t)) == multiset(t)
  {
    if t != [] {
      SortMultiset(t[1..]);
      InsertMultiset(t[0], SortByCount(t[1..]));
      assert t == [t[0]] + t[1..];
    }
  }

  lemma {:induction false} InsertSorted(e: (string, int), s: Tally)
    requires Sorted(s)
    ensures Sorted(Insert(e, s))
  {
    if s != [] && s[0].1 > e.1 {
      InsertSorted(e, s[1..]);
      InsertMultiset(e, s[1..]);
      var r := Insert(e, s[1..]);
      forall x | x in r ensures s[0].1 >= x.1 {
        assert x in multiset(r);
        if x != e {
          assert x in s[1..];
        }
      }
    }
  }

  /** The sort puts the counts in non-increasing order. */
  lemma {:induction false} SortSorted(t: Tally)
    ensures Sorted(SortByCount(t))
  {
    if t != [] {
      SortSorted(t[1..]);
      InsertSorted(t[0], SortByCount(t[1..]));
    }
  }

  lemma {:induction false} InsertOfCount(e: (string, int), s: Tally, c: int)
    ensures OfCount(Insert(e, s), c) == if e.1 == c then [e] + OfCount(s, c) else OfCount(s, c)
  {
    if s != [] && s[0].1 > e.1 {
      InsertOfCount(e, s[1..], c);
    }
  }

  /** The sort is stable: entries with equal counts keep their relative order. */
  lemma {:induction false} SortOfCount(t: Tally, c: int)
    ensures OfCount(SortByCount(t), c) == OfCount(t, c)
  {
    if t != [] {
      SortOfCount(t[1..], c);
      InsertOfCount(t[0], SortByCount(t[1..]), c);
    }
  }

  lemma {:induction false} InsertKeys(e: (string, int), s: Tally)
    ensures forall k :: k in Keys(Insert(e, s)) <==> k == e.0 || k in Keys(s)
    ensures e.0 !in Keys(s) && Distinct(s) ==> Distinct(Insert(e, s))
  {
    if s != [] && s[0].1 > e.1 {
      InsertKeys(e, s[1..]);
    }
  }

  /** The sort moves entries around but keeps the set of keys, so an object stays an object. */
  lemma {:induction false} SortDistinct(t: Tally)
    requires Distinct(t)
    ensures Distinct(SortByCount(t))
    ensures forall k :: k in Keys(SortByCount(t)) <==> k in Keys(t)
  {
    if t != [] {
      SortDistinct(t[1..]);
      InsertKeys(t[0], SortByCount(t[1..]));
    }
  }

  /** Sorting an already sorted tally changes nothing. */
  lemma {:induction false} SortIdentity(t: Tally)
    requires Sorted(t)
    ensures SortByCount(t) == t
  {
    if t != [] {
      SortIdentity(t[1..]);
      assert t == [t[0]] + t[1..];
    }
  }

  // ---------------------------------------------------------------------------
  // The normalised tally

  /** Normalising keeps exactly the non-zero entries of the input, as a
      permutation of them sorted by non-increasing count. */
  lemma NormalizeSpec(t: Tally)
    ensures IsNormal(Normalize(t))
    ensures multiset(Normalize(t)) == multiset(NonZero(t))
    ensures forall e :: e in Normalize(t) <==> e in t && e.1 != 0
    ensures |Normalize(t)| == |NonZero(t)|
  {
    SortSorted(NonZero(t));
    SortMultiset(NonZero(t));
    NonZeroMembers(t);
    forall e ensures e in Normalize(t) <==> e in NonZero(t) {
      assert e in Normalize(t) <==> e in multiset(Normalize(t));
    }
    assert |multiset(Normalize(t))| == |multiset(NonZero(t))|;
  }

  /** Entries of equal count keep their input order: restricted to any one
      count, the normalised tally is the input restricted to that count. */
  lemma NormalizeStable(t: Tally, c: int)
    ensures OfCount(Normalize(t), c) == if c == 0 then [] else OfCount(t, c)
  {
    SortOfCount(NonZero(t), c);
    NonZeroOfCount(t, c);
  }

  lemma SortedHead(s: Tally, e: (string, int))
    requires Sorted(s) && e in s
    ensures s[0].1 >= e.1
  {
    var j :| 0 <= j < |s| && s[j] == e;
  }

  lemma OfCountCons(t: Tally, c: int)
    requires t != []
    ensures OfCount(t, c) == (if t[0].1 == c then [t[0]] else []) + OfCount(t[1..], c)
  {
  }

  lemma OfCountHead(t: Tally)
    requires t != []
    ensures OfCount(t, t[0].1) != []
  {
  }

  /** Two sorted, non-empty tallies that agree on every count start alike. */
  lemma SortedHeads(a: Tally, b: Tally)
    requires Sorted(a) && Sorted(b) && a != [] && b != []
    requires forall c :: OfCount(a, c) == OfCount(b, c)
    ensures a[0] == b[0]
  {
    var m, n := a[0].1, b[0].1;
    OfCountCons(a, m);
    OfCountCons(b, n);
    assert a[0] in OfCount(b, m);
    assert b[0] in OfCount(a, n);
    SortedHead(b, a[0]);
    SortedHead(a, b[0]);
    assert OfCount(a, m) == OfCount(b, m);
  }

  lemma TailsAgree(a: Tally, b: Tally)
    requires a != [] && b != [] && a[0] == b[0]
    requires forall c :: OfCount(a, c) == OfCount(b, c)
    ensures forall c :: OfCount(a[1..], c) == OfCount(b[1..], c)
  {
    forall c ensures OfCount(a[1..], c) == OfCount(b[1..], c) {
      var p := if a[0].1 == c then [a[0]] else [];
      OfCountCons(a, c);
      OfCountCons(b, c);
      assert OfCount(a[1..], c) == OfCount(a, c)[|p|..];
      assert OfCount(b[1..], c) == OfCount(b, c)[|p|..];
    }
  }

  lemma SortedTail(s: Tally)
    requires Sorted(s) && s != []
    ensures Sorted(s[1..])
  {
  }

  /** A sorted tally is determined by its restrictions to each count: two
      sorted tallies that agree on every count are equal. */
  lemma {:induction false} SortedUnique(a: Tally, b: Tally)
    requires Sorted(a) && Sorted(b)
    requires forall c :: OfCount(a, c) == OfCount(b, c)
    ensures a == b
  {
    if a != [] && b != [] {
      SortedHeads(a, b);
      TailsAgree(a, b);
      SortedTail(a);
      SortedTail(b);
      SortedUnique(a[1..], b[1..]);
      assert a == [a[0]] + a[1..] && b == [b[0]] + b[1..];
    } else if a != [] {
      OfCountHead(a);
    } else if b != [] {
      OfCountHead(b);
    }
  }

  /** r holds, for each non-zero count, the entries of t with that count in
      t's order, and no entry of count zero. */
  ghost predicate KeepsNonZeroInOrder(r: Tally, t: Tally)
  {
    forall c :: OfCount(r, c) == if c == 0 then [] else OfCount(t, c)
  }

  /** Reference definition of the normalised tally: it is the one sorted tally
      that holds, for each non-zero count, the input's entries of that count in
      input order, and no entry of count zero. */
  lemma NormalizeCharacterized(t: Tally, r: Tally)
    ensures r == Normalize(t) <==> Sorted(r) && KeepsNonZeroInOrder(r, t)
  {
    var n := Normalize(t);
    NormalizeSpec(t);
    forall c ensures OfCount(n, c) == if c == 0 then [] else OfCount(t, c) {
      NormalizeStable(t, c);
    }
    assert KeepsNonZeroInOrder(n, t);
    if Sorted(r) && KeepsNonZeroInOrder(r, t) {
      forall c ensures OfCount(r, c) == OfCount(n, c) {
        assert OfCount(r, c) == if c == 0 then [] else OfCount(t, c);
      }
      SortedUnique(r, n);
    }
  }

  /** Normalising an object yields an object on the keys with a non-zero count. */
  lemma NormalizeDistinct(t: Tally)
    requires Distinct(t)
    ensures Distinct(Normalize(t))
    ensures forall k :: k in Keys(Normalize(t)) ==> k in Keys(t)
  {
    NonZeroDistinct(t);
    SortDistinct(NonZero(t));
  }

  /** Normalising an object does not change any count as the engine reads it,
      and a key survives exactly when its count is not zero. */
  lemma NormalizeCount(t: Tally, k: string)
    requires Distinct(t)
    ensures CountOf(Normalize(t), k) == CountOf(t, k)
    ensures k in Keys(Normalize(t)) <==> CountOf(t, k) != 0
  {
    var n := Normalize(t);
    NormalizeDistinct(t);
    NormalizeSpec(t);
    FindKeys(n, k);
    match Find(n, k)
    case Some(v) =>
      FindIn(n, k, v);
      FindIn(t, k, v);
    case None =>
      match Find(t, k)
      case Some(v) =>
        FindIn(t, k, v);
        if v != 0 {
          FindIn(n, k, v);
        }
      case None =>
  }

  /** A tally is left unchanged by normalising exactly when it is already normal:
      a tally that was stored and is loaded again normalises to itself. */
  lemma NormalizeFixpoint(t: Tally)
    ensures Normalize(t) == t <==> IsNormal(t)
  {
    NormalizeSpec(t);
    if IsNormal(t) {
      NonZeroIdentity(t);
      SortIdentity(t);
    }
  }

  /** Normalising twice is normalising once. */
  lemma NormalizeIdempotent(t: Tally)
    ensures Normalize(Normalize(t)) == Normalize(t)
  {
    NormalizeSpec(t);
    NormalizeFixpoint(Normalize(t));
  }

  /** Writing a count that is not negative into an all-positive tally leaves no negative count. */
  lemma PutNonNegative(t: Tally, k: string, v: int)
    requires AllPositive(t) && v >= 0
    ensures forall e :: e in Put(t, k, v) ==> e.1 >= 0
  {
    PutKeys(t, k, v);
  }

  /** A count in an all-positive tally is never negative. */
  lemma PositiveCount(t: Tally, k: string)
    requires AllPositive(t)
    ensures CountOf(t, k) >= 0
  {
    FindMember(t, k);
  }

  /** With no negative counts, the normalised tally has only positive counts. */
  lemma NormalizePositive(t: Tally)
    ensures (forall e :: e in t ==> e.1 >= 0) ==> AllPositive(Normalize(t))
  {
    NormalizeSpec(t);
  }

  /** Writing one count and normalising: the written key has the new count and
      is kept exactly when that count is not zero, every other key keeps its
      count, no key appears that was not there or written, and a write of a
      non-negative count keeps an all-positive tally all-positive. */
  lemma NormalizePut(t: Tally, k: string, v: int)
    requires Distinct(t)
    ensures Distinct(Put(t, k, v))
    ensures Distinct(Normalize(Put(t, k, v))) && Normalize(Normalize(Put(t, k, v))) == Normalize(Put(t, k, v))
    ensures CountOf(Normalize(Put(t, k, v)), k) == v
    ensures k in Keys(Normalize(Put(t, k, v))) <==> v != 0
    ensures forall j :: j != k ==> CountOf(Normalize(Put(t, k, v)), j) == CountOf(t, j)
    ensures forall j :: j in Keys(Normalize(Put(t, k, v))) ==> j == k || j in Keys(t)
    ensures AllPositive(t) && v >= 0 ==> AllPositive(Normalize(Put(t, k, v)))
  {
    var p := Put(t, k, v);
    PutDistinct(t, k, v);
    PutKeys(t, k, v);
    NormalizeSpec(p);
    NormalizeDistinct(p);
    NormalizeCount(p, k);
    NormalizeIdempotent(p);
    forall j | j != k
      ensures CountOf(Normalize(p), j) == CountOf(t, j)
    {
      NormalizeCount(p, j);
    }
    if AllPositive(t) && v >= 0 {
      PutNonNegative(t, k, v);
      NormalizePositive(p);
    }
  }
}
