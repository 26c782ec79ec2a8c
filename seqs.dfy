/** Order-preserving selection from a list (the source's `Array.filter`) and
    the facts about it that the filter, the saved-order sort and the drag
    reorder rely on. */
module Seqs {
  import opened Wrappers

  /** The elements of `s` that satisfy `p`, in their order in `s`. */
  function Select<T(!new)>(s: seq<T>, p: T -> bool): (r: seq<T>)
    ensures |r| <= |s|
    ensures forall x :: x in r <==> x in s && p(x)
  {
    if s == [] then [] else (if p(s[0]) then [s[0]] else []) + Select(s[1..], p)
  }

  /** The negation of a predicate. */
  function Not<T>(p: T -> bool): T -> bool {
    x => !p(x)
  }

  /** The conjunction of two predicates. */
  function And<T>(p: T -> bool, q: T -> bool): T -> bool {
    x => p(x) && q(x)
  }

  /** `t` can be obtained from `s` by deleting elements. */
  ghost predicate IsSubsequence<T>(t: seq<T>, s: seq<T>)
    decreases |s|
  {
    if s == [] then t == []
    else (t != [] && t[0] == s[0] && IsSubsequence(t[1..], s[1..])) || IsSubsequence(t, s[1..])
  }

  /** Selection only deletes: it keeps the relative order of what it keeps. */
  lemma {:induction false} SelectIsSubsequence<T(!new)>(s: seq<T>, p: T -> bool)
    ensures IsSubsequence(Select(s, p), s)
  {
    if s != [] {
      SelectIsSubsequence(s[1..], p);
      if p(s[0]) {
        assert Select(s, p) == [s[0]] + Select(s[1..], p);
        assert Select(s, p)[1..] == Select(s[1..], p);
      } else {
        assert Select(s, p) == Select(s[1..], p);
      }
    }
  }

  lemma {:induction false} SelectAppend<T(!new)>(a: seq<T>, b: seq<T>, p: T -> bool)
    ensures Select(a + b, p) == Select(a, p) + Select(b, p)
  {
    if a != [] {
      assert (a + b)[1..] == a[1..] + b;
      SelectAppend(a[1..], b, p);
    } else {
      assert a + b == b;
    }
  }

  /** How often `y` occurs in a selection: as often as in the list when it
      satisfies the predicate, never otherwise. */
  lemma {:induction false} SelectCount<T(!new)>(s: seq<T>, p: T -> bool, y: T)
    ensures multiset(Select(s, p))[y] == if p(y) then multiset(s)[y] else 0
  {
    if s != [] {
      SelectCount(s[1..], p, y);
      assert s == [s[0]] + s[1..];
      assert multiset(s) == multiset{s[0]} + multiset(s[1..]);
    }
  }

  /** `SelectCount` for every element at once. */
  lemma SelectCounts<T(!new)>(s: seq<T>, p: T -> bool)
    ensures forall y :: multiset(Select(s, p))[y] == if p(y) then multiset(s)[y] else 0
  {
    forall y
      ensures multiset(Select(s, p))[y] == if p(y) then multiset(s)[y] else 0
    {
      SelectCount(s, p, y);
    }
  }

  /** What a selection contains depends only on what the list contains, not on
      its order. */
  lemma SelectSameMultiset<T(!new)>(a: seq<T>, b: seq<T>, p: T -> bool)
    requires multiset(a) == multiset(b)
    ensures multiset(Select(a, p)) == multiset(Select(b, p))
  {
    forall y
      ensures multiset(Select(a, p))[y] == multiset(Select(b, p))[y]
    {
      SelectCount(a, p, y);
      SelectCount(b, p, y);
    }
  }

  /** Selecting by a predicate and by its negation splits the list. */
  lemma SelectPartition<T(!new)>(s: seq<T>, p: T -> bool, notP: T -> bool)
    requires forall x :: notP(x) == !p(x)
    ensures multiset(Select(s, p)) + multiset(Select(s, notP)) == multiset(s)
  {
    forall y
      ensures (multiset(Select(s, p)) + multiset(Select(s, notP)))[y] == multiset(s)[y]
    {
      SelectCount(s, p, y);
      SelectCount(s, notP, y);
    }
  }

  /** Two predicates that agree on the elements of the list select the same. */
  lemma {:induction false} SelectCongruent<T(!new)>(s: seq<T>, p: T -> bool, q: T -> bool)
    requires forall x :: x in s ==> p(x) == q(x)
    ensures Select(s, p) == Select(s, q)
  {
    if s != [] {
      assert forall x :: x in s[1..] ==> x in s;
      SelectCongruent(s[1..], p, q);
    }
  }

  /** Selecting twice is selecting once by the conjunction. */
  lemma {:induction false} SelectSelect<T(!new)>(s: seq<T>, p: T -> bool, q: T -> bool)
    ensures Select(Select(s, p), q) == Select(s, And(p, q))
  {
    if s != [] {
      SelectSelect(s[1..], p, q);
      SelectAppend(if p(s[0]) then [s[0]] else [], Select(s[1..], p), q);
    }
  }

  /** A predicate that every element satisfies selects the whole list. */
  lemma {:induction false} SelectAll<T(!new)>(s: seq<T>, p: T -> bool)
    requires forall x :: x in s ==> p(x)
    ensures Select(s, p) == s
  {
    if s != [] {
      assert forall x :: x in s[1..] ==> x in s;
      SelectAll(s[1..], p);
    }
  }

  /** A predicate that no element satisfies selects nothing. */
  lemma {:induction false} SelectNone<T(!new)>(s: seq<T>, p: T -> bool)
    requires forall x :: x in s ==> !p(x)
    ensures Select(s, p) == []
  {
    if s != [] {
      assert forall x :: x in s[1..] ==> x in s;
      SelectNone(s[1..], p);
    }
  }

  /** A predicate that holds at most at one position selects at most one element. */
  lemma {:induction false} SelectAtMostOne<T(!new)>(s: seq<T>, p: T -> bool)
    requires forall i, j :: 0 <= i < |s| && 0 <= j < |s| && p(s[i]) && p(s[j]) ==> i == j
    ensures |Select(s, p)| <= 1
  {
    if s != [] {
      forall i, j | 0 <= i < |s[1..]| && 0 <= j < |s[1..]| && p(s[1..][i]) && p(s[1..][j])
        ensures i == j
      {
        assert s[1..][i] == s[i + 1] && s[1..][j] == s[j + 1];
      }
      SelectAtMostOne(s[1..], p);
      if p(s[0]) {
        forall x | x in s[1..]
          ensures !p(x)
        {
          var k :| 0 <= k < |s[1..]| && s[1..][k] == x;
          assert s[k + 1] == x;
        }
        SelectNone(s[1..], p);
      }
    }
  }

  /** Lists of at most one element are determined by their multiset. */
  lemma ShortListByMultiset<T(!new)>(a: seq<T>, b: seq<T>)
    requires |a| <= 1
    requires multiset(a) == multiset(b)
    ensures a == b
  {
    assert |multiset(a)| == |a| && |multiset(b)| == |b|;
    if |a| == 1 {
      assert b[0] in multiset(a);
      assert a == [a[0]];
    }
  }

  /** `Array.prototype.find`: the first element that satisfies `p`, if any. */
  function FindFirst<T(==, !new)>(s: seq<T>, p: T -> bool): (r: Option<T>)
    ensures r.Some? ==> exists i :: 0 <= i < |s| && s[i] == r.value && p(s[i]) && forall j :: 0 <= j < i ==> !p(s[j])
    ensures r.None? ==> forall x :: x in s ==> !p(x)
  {
    if s == [] then None
    else if p(s[0]) then Some(s[0])
    else
      var r := FindFirst(s[1..], p);
      if r.Some? then
        var i :| 0 <= i < |s[1..]| && s[1..][i] == r.value && p(s[1..][i]) && forall j :: 0 <= j < i ==> !p(s[1..][j]);
        assert forall j :: 0 <= j < i + 1 ==> !p(s[j]) by {
          forall j | 0 <= j < i + 1 ensures !p(s[j]) {
            if j > 0 { assert s[j] == s[1..][j - 1]; }
          }
        }
        assert s[i + 1] == r.value;
        r
      else
        assert forall x :: x in s ==> x == s[0] || x in s[1..];
        r
  }
}
