/** Stable sorting by a key, as `Array.prototype.sort` performs it with a
    consistent comparator. Both comparators of the portal (the saved-order
    sort and the re-sort after a drag) compare a key of this shape: an item
    with a saved position sorts before every item without one, two positioned
    items compare by position, two unpositioned items compare by a tie-break
    value. */
module Sorting {
  import opened Seqs

  /** The key an item is sorted by. */
  datatype Rank = Ranked(position: nat) | Unranked(tiebreak: int)

  /** `a` may stand before `b`: the comparator returns a number that is not
      positive. */
  predicate NotAfter(a: Rank, b: Rank) {
    match a
    case Ranked(i) => b.Unranked? || i <= b.position
    case Unranked(x) => b.Unranked? && x <= b.tiebreak
  }

  /** The comparator is consistent: `NotAfter` is a total order on keys. */
  lemma NotAfterIsTotalOrder(a: Rank, b: Rank, c: Rank)
    ensures NotAfter(a, a)
    ensures NotAfter(a, b) || NotAfter(b, a)
    ensures NotAfter(a, b) && NotAfter(b, c) ==> NotAfter(a, c)
    ensures NotAfter(a, b) && NotAfter(b, a) ==> a == b
  {
  }

  ghost predicate SortedBy<T>(s: seq<T>, rank: T -> Rank) {
    forall i, j :: 0 <= i < j < |s| ==> NotAfter(rank(s[i]), rank(s[j]))
  }

  /** Inserts `x` into a sorted list in front of the first element it may
      precede, that is, after every element whose key is strictly smaller. */
  function Insert<T(!new)>(x: T, t: seq<T>, rank: T -> Rank): (r: seq<T>)
    requires SortedBy(t, rank)
    ensures |r| == |t| + 1
    ensures multiset(r) == multiset(t) + multiset{x}
    ensures SortedBy(r, rank)
  {
    if t == [] then [x]
    else if NotAfter(rank(x), rank(t[0])) then
      assert t == [t[0]] + t[1..];
      [x] + t
    else
      var tail := Insert(x, t[1..], rank);
      assert t == [t[0]] + t[1..];
      assert forall j :: 0 <= j < |t[1..]| ==> NotAfter(rank(t[0]), rank(t[1..][j])) by {
        forall j | 0 <= j < |t[1..]| ensures NotAfter(rank(t[0]), rank(t[1..][j])) {
          assert t[1..][j] == t[j + 1];
        }
      }
      LowerBound(rank(t[0]), tail, t[1..], x, rank);
      ConsSorted(t[0], tail, rank);
      [t[0]] + tail
  }

  /** A key below `x` and below every element of `t` is below every element
      of any list holding `t` and `x`. */
  lemma LowerBound<T>(k: Rank, r: seq<T>, t: seq<T>, x: T, rank: T -> Rank)
    requires multiset(r) == multiset(t) + multiset{x}
    requires NotAfter(k, rank(x))
    requires forall j :: 0 <= j < |t| ==> NotAfter(k, rank(t[j]))
    ensures forall j :: 0 <= j < |r| ==> NotAfter(k, rank(r[j]))
  {
    forall j | 0 <= j < |r| ensures NotAfter(k, rank(r[j])) {
      assert r[j] in multiset(r);
      if r[j] != x {
        assert r[j] in multiset(t);
        var i :| 0 <= i < |t| && t[i] == r[j];
      }
    }
  }

  /** A head that may precede every element of a sorted list keeps it sorted. */
  lemma ConsSorted<T>(h: T, t: seq<T>, rank: T -> Rank)
    requires SortedBy(t, rank)
    requires forall j :: 0 <= j < |t| ==> NotAfter(rank(h), rank(t[j]))
    ensures SortedBy([h] + t, rank)
  {
    var r := [h] + t;
    forall i, j | 0 <= i < j < |r| ensures NotAfter(rank(r[i]), rank(r[j])) {
      assert r[j] == t[j - 1];
      if i > 0 { assert r[i] == t[i - 1]; }
    }
  }

  /** Stable insertion sort: the result is a sorted permutation of `s`. */
  function SortBy<T(!new)>(s: seq<T>, rank: T -> Rank): (r: seq<T>)
    ensures |r| == |s|
    ensures multiset(r) == multiset(s)
    ensures SortedBy(r, rank)
  {
    if s == [] then []
    else
      assert s == [s[0]] + s[1..];
      Insert(s[0], SortBy(s[1..], rank), rank)
  }

  /** The predicate "has key `k`". */
  function HasRank<T>(rank: T -> Rank, k: Rank): T -> bool {
    x => rank(x) == k
  }

  /** The items of `s` whose key is `k`, in their order in `s`. */
  function OfRank<T(!new)>(s: seq<T>, rank: T -> Rank, k: Rank): seq<T> {
    Select(s, HasRank(rank, k))
  }

  lemma OfRankCons<T(!new)>(x: T, s: seq<T>, rank: T -> Rank, k: Rank)
    ensures OfRank([x] + s, rank, k) == (if rank(x) == k then [x] else []) + OfRank(s, rank, k)
  {
    assert ([x] + s)[1..] == s;
  }

  /** Inserting `x` adds it to the items of its own key, in front of them,
      and leaves the items of every other key as they were. */
  lemma {:induction false} InsertOfRank<T(!new)>(x: T, t: seq<T>, rank: T -> Rank, k: Rank)
    requires SortedBy(t, rank)
    ensures OfRank(Insert(x, t, rank), rank, k) == (if rank(x) == k then [x] else []) + OfRank(t, rank, k)
  {
    if t == [] || NotAfter(rank(x), rank(t[0])) {
      OfRankCons(x, t, rank, k);
    } else {
      assert t == [t[0]] + t[1..];
      SortedTail(t, rank);
      var tail := Insert(x, t[1..], rank);
      assert Insert(x, t, rank) == [t[0]] + tail;
      InsertOfRank(x, t[1..], rank, k);
      ConsOfRankStep(t[0], tail, t[1..], x, rank, k);
    }
  }

  /** Putting an item of another key in front of both sides keeps an
      equation between the items of key `k`. */
  lemma ConsOfRankStep<T(!new)>(h: T, r: seq<T>, t: seq<T>, x: T, rank: T -> Rank, k: Rank)
    requires rank(h) != rank(x)
    requires OfRank(r, rank, k) == (if rank(x) == k then [x] else []) + OfRank(t, rank, k)
    ensures OfRank([h] + r, rank, k) == (if rank(x) == k then [x] else []) + OfRank([h] + t, rank, k)
  {
    OfRankCons(h, r, rank, k);
    OfRankCons(h, t, rank, k);
    if rank(h) == k {
      assert rank(x) != k;
    }
  }

  /** Stability: the sort keeps the input order of the items of each key. */
  lemma {:induction false} SortByStable<T(!new)>(s: seq<T>, rank: T -> Rank, k: Rank)
    ensures OfRank(SortBy(s, rank), rank, k) == OfRank(s, rank, k)
  {
    if s != [] {
      SortByStable(s[1..], rank, k);
      InsertOfRank(s[0], SortBy(s[1..], rank), rank, k);
      assert s == [s[0]] + s[1..];
      OfRankCons(s[0], s[1..], rank, k);
    }
  }

  /** A list that is already sorted is left as it is. */
  lemma {:induction false} SortBySorted<T(!new)>(s: seq<T>, rank: T -> Rank)
    requires SortedBy(s, rank)
    ensures SortBy(s, rank) == s
  {
    if s != [] {
      SortBySorted(s[1..], rank);
      if s[1..] != [] {
        assert s[1..][0] == s[1];
      }
      assert s == [s[0]] + s[1..];
    }
  }

  /** Sorting twice is sorting once. */
  lemma SortByIdempotent<T(!new)>(s: seq<T>, rank: T -> Rank)
    ensures SortBy(SortBy(s, rank), rank) == SortBy(s, rank)
  {
    SortBySorted(SortBy(s, rank), rank);
  }

  /** The first item of a sorted list has a least key, so two sorted lists
      with the same items start with items of the same key. */
  lemma SortedHeadsSameRank<T(!new)>(a: seq<T>, b: seq<T>, rank: T -> Rank)
    requires SortedBy(a, rank) && SortedBy(b, rank)
    requires multiset(a) == multiset(b)
    requires a != [] && b != []
    ensures rank(a[0]) == rank(b[0])
  {
    assert NotAfter(rank(a[0]), rank(b[0])) by {
      assert b[0] in multiset(a);
      var j :| 0 <= j < |a| && a[j] == b[0];
      if j > 0 { assert NotAfter(rank(a[0]), rank(a[j])); }
    }
    assert NotAfter(rank(b[0]), rank(a[0])) by {
      assert a[0] in multiset(b);
      var j :| 0 <= j < |b| && b[j] == a[0];
      if j > 0 { assert NotAfter(rank(b[0]), rank(b[j])); }
    }
    NotAfterIsTotalOrder(rank(a[0]), rank(b[0]), rank(a[0]));
  }

  /** A stable sort has exactly one possible outcome: two sorted lists with
      the same items and the same order within each key are equal. */
  lemma {:induction false} SortedUnique<T(!new)>(a: seq<T>, b: seq<T>, rank: T -> Rank)
    requires SortedBy(a, rank) && SortedBy(b, rank)
    requires multiset(a) == multiset(b)
    requires forall k :: OfRank(a, rank, k) == OfRank(b, rank, k)
    ensures a == b
  {
    assert |a| == |multiset(a)| == |multiset(b)| == |b|;
    if a != [] {
      SortedHeadsEqual(a, b, rank);
      SortedTailsOfRank(a, b, rank);
      TailsSameMultiset(a, b);
      SortedTail(a, rank);
      SortedTail(b, rank);
      SortedUnique(a[1..], b[1..], rank);
      assert a == [a[0]] + a[1..] && b == [b[0]] + b[1..];
    }
  }

  /** Two sorted lists with the same items and the same order within each key
      start with the same item. */
  lemma SortedHeadsEqual<T(!new)>(a: seq<T>, b: seq<T>, rank: T -> Rank)
    requires SortedBy(a, rank) && SortedBy(b, rank)
    requires multiset(a) == multiset(b)
    requires forall k :: OfRank(a, rank, k) == OfRank(b, rank, k)
    requires a != [] && b != []
    ensures a[0] == b[0]
  {
    var x, y := a[0], b[0];
    assert a == [x] + a[1..] && b == [y] + b[1..];
    SortedHeadsSameRank(a, b, rank);
    var k0 := rank(x);
    OfRankCons(x, a[1..], rank, k0);
    OfRankCons(y, b[1..], rank, k0);
    assert OfRank(a, rank, k0) == OfRank(b, rank, k0);
    assert OfRank(a, rank, k0)[0] == x;
  }

  /** Dropping a common head keeps the order within each key equal. */
  lemma SortedTailsOfRank<T(!new)>(a: seq<T>, b: seq<T>, rank: T -> Rank)
    requires a != [] && b != [] && a[0] == b[0]
    requires forall k :: OfRank(a, rank, k) == OfRank(b, rank, k)
    ensures forall k :: OfRank(a[1..], rank, k) == OfRank(b[1..], rank, k)
  {
    var x := a[0];
    assert a == [x] + a[1..] && b == [x] + b[1..];
    forall k
      ensures OfRank(a[1..], rank, k) == OfRank(b[1..], rank, k)
    {
      OfRankCons(x, a[1..], rank, k);
      OfRankCons(x, b[1..], rank, k);
      var head := if rank(x) == k then [x] else [];
      assert OfRank(a, rank, k) == OfRank(b, rank, k);
      assert OfRank(a[1..], rank, k) == OfRank(a, rank, k)[|head|..];
      assert OfRank(b[1..], rank, k) == OfRank(b, rank, k)[|head|..];
    }
  }

  /** Dropping a common head keeps the multisets equal. */
  lemma TailsSameMultiset<T>(a: seq<T>, b: seq<T>)
    requires a != [] && b != [] && a[0] == b[0]
    requires multiset(a) == multiset(b)
    ensures multiset(a[1..]) == multiset(b[1..])
  {
    assert a == [a[0]] + a[1..] && b == [b[0]] + b[1..];
    assert multiset(a) == multiset{a[0]} + multiset(a[1..]);
    assert multiset(b) == multiset{a[0]} + multiset(b[1..]);
    forall z
      ensures multiset(a[1..])[z] == multiset(b[1..])[z]
    {
      assert multiset(a)[z] == multiset(b)[z];
    }
  }

  lemma SortedTail<T>(a: seq<T>, rank: T -> Rank)
    requires SortedBy(a, rank) && a != []
    ensures SortedBy(a[1..], rank)
  {
    forall i, j | 0 <= i < j < |a[1..]|
      ensures NotAfter(rank(a[1..][i]), rank(a[1..][j]))
    {
      assert a[1..][i] == a[i + 1] && a[1..][j] == a[j + 1];
    }
  }

  /** The sort's outcome is the sorted list holding the input's items with the
      input's order within each key. */
  lemma SortByCharacterized<T(!new)>(s: seq<T>, t: seq<T>, rank: T -> Rank)
    requires SortedBy(t, rank)
    requires multiset(t) == multiset(s)
    requires forall k :: OfRank(t, rank, k) == OfRank(s, rank, k)
    ensures SortBy(s, rank) == t
  {
    forall k
      ensures OfRank(SortBy(s, rank), rank, k) == OfRank(t, rank, k)
    {
      SortByStable(s, rank, k);
    }
    SortedUnique(SortBy(s, rank), t, rank);
  }
}
