/** The ordering engine of `App.tsx`: the saved-order sort applied after
    every refresh (`applySavedOrder`), the single-element move a drag
    performs on the visible list, and the re-sort of the whole working set
    that follows it. */
module Ordering {
  import opened Types
  import opened Seqs
  import opened Sorting

  /** What the storage key `appointmentsOrder` holds: nothing (or the empty
      string), a value that does not parse as a list of ids, or the ids. */
  datatype StoredOrder = NoSavedOrder | Malformed | SavedIds(ids: seq<string>)

  /** The position `new Map(ids.map((id, index) => [id, index]))` gives an id:
      a later entry overwrites an earlier one, so a repeated id gets its last
      position. */
  function LastIndexOf(ids: seq<string>, id: string): (r: nat)
    requires id in ids
    ensures r < |ids| && ids[r] == id
    ensures forall j :: r < j < |ids| ==> ids[j] != id
  {
    if ids[|ids| - 1] == id then |ids| - 1
    else
      assert id in ids[..|ids| - 1] by {
        var k :| 0 <= k < |ids| && ids[k] == id;
        assert ids[..|ids| - 1][k] == id;
      }
      LastIndexOf(ids[..|ids| - 1], id)
  }

  /** `ids.indexOf(id)` for an id that occurs: its first position. */
  function FirstIndexOf(ids: seq<string>, id: string): (r: nat)
    requires id in ids
    ensures r < |ids| && ids[r] == id
    ensures forall j :: 0 <= j < r ==> ids[j] != id
  {
    if ids[0] == id then 0
    else
      assert id in ids[1..] by {
        var k :| 0 <= k < |ids| && ids[k] == id;
        assert ids[1..][k - 1] == id;
      }
      1 + FirstIndexOf(ids[1..], id)
  }

  // ---------------------------------------------------------------------
  // applySavedOrder

  /** The key of the saved-order comparator: its saved position, or no
      position, in which case the comparator reports a tie. */
  function SavedRank(ids: seq<string>, a: Appointment): Rank {
    if a.id in ids then Ranked(LastIndexOf(ids, a.id)) else Unranked(0)
  }

  function SavedKey(ids: seq<string>): Appointment -> Rank {
    (a: Appointment) => SavedRank(ids, a)
  }

  /** `applySavedOrder`: no stored order, or one that does not parse, leaves
      the list as it is; otherwise the list is stably sorted by saved position,
      unpositioned items last. */
  function ApplySavedOrder(stored: StoredOrder, events: seq<Appointment>): (r: seq<Appointment>)
    ensures !stored.SavedIds? ==> r == events
    ensures |r| == |events| && multiset(r) == multiset(events)
  {
    match stored
    case SavedIds(ids) => SortBy(events, SavedKey(ids))
    case _ => events
  }

  /** Every item with a saved position precedes every item without one, and
      positioned items appear in ascending saved position. */
  lemma ApplySavedOrderRankedFirst(ids: seq<string>, events: seq<Appointment>)
    ensures var r := ApplySavedOrder(SavedIds(ids), events);
            forall i, j :: 0 <= i < j < |r| && r[j].id in ids ==>
              r[i].id in ids && LastIndexOf(ids, r[i].id) <= LastIndexOf(ids, r[j].id)
  {
    var r := ApplySavedOrder(SavedIds(ids), events);
    forall i, j | 0 <= i < j < |r| && r[j].id in ids
      ensures r[i].id in ids && LastIndexOf(ids, r[i].id) <= LastIndexOf(ids, r[j].id)
    {
      assert NotAfter(SavedKey(ids)(r[i]), SavedKey(ids)(r[j]));
    }
  }

  /** "The id has no saved position." */
  function Unpositioned(ids: seq<string>): Appointment -> bool {
    (a: Appointment) => a.id !in ids
  }

  /** Items without a saved position keep their input order among themselves. */
  lemma ApplySavedOrderKeepsUnrankedOrder(ids: seq<string>, events: seq<Appointment>)
    ensures Select(ApplySavedOrder(SavedIds(ids), events), Unpositioned(ids))
         == Select(events, Unpositioned(ids))
  {
    var rank := SavedKey(ids);
    var r := SortBy(events, rank);
    SortByStable(events, rank, Unranked(0));
    assert forall x :: HasRank(rank, Unranked(0))(x) == Unpositioned(ids)(x);
    SelectCongruent(r, HasRank(rank, Unranked(0)), Unpositioned(ids));
    SelectCongruent(events, HasRank(rank, Unranked(0)), Unpositioned(ids));
  }

  /** Applying the saved order to its own output changes nothing. */
  lemma ApplySavedOrderIdempotent(stored: StoredOrder, events: seq<Appointment>)
    ensures ApplySavedOrder(stored, ApplySavedOrder(stored, events)) == ApplySavedOrder(stored, events)
  {
    if stored.SavedIds? {
      SortByIdempotent(events, SavedKey(stored.ids));
    }
  }

  /** A manual order survives a refresh: when a refresh brings back the same
      appointments in any order, the saved ids of a list with unique ids put
      them back exactly as that list had them. */
  lemma SavedOrderRestoresList(list: seq<Appointment>, events: seq<Appointment>)
    requires UniqueIds(list)
    requires multiset(events) == multiset(list)
    ensures ApplySavedOrder(SavedIds(IdsOf(list)), events) == list
  {
    var ids := IdsOf(list);
    var rank := SavedKey(ids);
    SavedRanks(list);
    assert SortedBy(list, rank);
    forall k
      ensures OfRank(list, rank, k) == OfRank(events, rank, k)
    {
      var has := HasRank(rank, k);
      assert forall i, j :: 0 <= i < |list| && 0 <= j < |list| && has(list[i]) && has(list[j]) ==> i == j;
      SelectAtMostOne(list, has);
      SelectSameMultiset(list, events, has);
      ShortListByMultiset(OfRank(list, rank, k), OfRank(events, rank, k));
    }
    SortByCharacterized(events, list, rank);
  }

  /** Under its own saved ids, the item at position `i` of a list with unique
      ids has saved position `i`. */
  lemma SavedRanks(list: seq<Appointment>)
    requires UniqueIds(list)
    ensures forall i :: 0 <= i < |list| ==> SavedKey(IdsOf(list))(list[i]) == Ranked(i)
  {
    var ids := IdsOf(list);
    forall i | 0 <= i < |list|
      ensures SavedKey(ids)(list[i]) == Ranked(i)
    {
      assert ids[i] == list[i].id;
      var r := LastIndexOf(ids, list[i].id);
      assert list[r].id == list[i].id;
    }
  }

  // ---------------------------------------------------------------------
  // The single-element move of handleDrop

  /** The result of `Array.prototype.splice(start, deleteCount, ...items)` on
      `s`, for a range inside the list. */
  function Splice<T>(s: seq<T>, start: nat, deleteCount: nat, items: seq<T>): (r: seq<T>)
    requires start + deleteCount <= |s|
    ensures |r| == |s| - deleteCount + |items|
  {
    s[..start] + items + s[start + deleteCount..]
  }

  /** Where the item at position `i` after a move of `from` to `to` came from:
      the moved item lands at `to`, the items between the two positions shift
      by one towards `from`, all others stay. */
  function MovedSource(from: nat, to: nat, i: nat): nat {
    if i == to then from
    else if from < to && from <= i < to then i + 1
    else if to < from && to < i <= from then i - 1
    else i
  }

  /** The list after moving its item at `from` to position `to`. */
  function Moved<T>(s: seq<T>, from: nat, to: nat): (r: seq<T>)
    requires from < |s| && to < |s|
    ensures |r| == |s|
    ensures forall i :: 0 <= i < |s| ==> MovedSource(from, to, i) < |s| && r[i] == s[MovedSource(from, to, i)]
  {
    seq(|s|, i requires 0 <= i < |s| => s[MovedSource(from, to, i)])
  }

  /** Removing the item at `from` and inserting it at `to` performs the move. */
  lemma MovedBySplices<T>(s: seq<T>, from: nat, to: nat)
    requires from < |s| && to < |s|
    ensures Splice(Splice(s, from, 1, []), to, 0, [s[from]]) == Moved(s, from, to)
  {
    var rest := Splice(s, from, 1, []);
    var r := Splice(rest, to, 0, [s[from]]);
    assert forall i :: 0 <= i < |rest| ==> rest[i] == if i < from then s[i] else s[i + 1];
    forall i | 0 <= i < |s|
      ensures r[i] == Moved(s, from, to)[i]
    {
      if i < to {
        assert r[i] == rest[i];
      } else if i > to {
        assert r[i] == rest[i - 1];
      }
    }
  }

  /** A move is a permutation. */
  lemma MovedIsPermutation<T>(s: seq<T>, from: nat, to: nat)
    requires from < |s| && to < |s|
    ensures multiset(Moved(s, from, to)) == multiset(s)
  {
    MovedBySplices(s, from, to);
    var rest := s[..from] + s[from + 1..];
    assert Splice(s, from, 1, []) == rest;
    assert Moved(s, from, to) == rest[..to] + [s[from]] + rest[to..];
    InsertAtPermutation(rest, to, s[from]);
    RemoveAtPermutation(s, from);
  }

  /** Inserting `v` at position `k` adds one `v` to the multiset. */
  lemma InsertAtPermutation<T>(s: seq<T>, k: nat, v: T)
    requires k <= |s|
    ensures multiset(s[..k] + [v] + s[k..]) == multiset(s) + multiset{v}
  {
    assert s == s[..k] + s[k..];
  }

  /** Removing position `k` removes one `s[k]` from the multiset. */
  lemma RemoveAtPermutation<T>(s: seq<T>, k: nat)
    requires k < |s|
    ensures multiset(s[..k] + s[k + 1..]) + multiset{s[k]} == multiset(s)
  {
    assert s == s[..k] + [s[k]] + s[k + 1..];
  }

  /** The moved item is at `to`, and the other items keep their relative
      order: removing `to` from the result gives the list without `from`. */
  lemma MovedKeepsOthersInOrder<T>(s: seq<T>, from: nat, to: nat)
    requires from < |s| && to < |s|
    ensures Moved(s, from, to)[to] == s[from]
    ensures Moved(s, from, to)[..to] + Moved(s, from, to)[to + 1..] == s[..from] + s[from + 1..]
  {
    var r := Moved(s, from, to);
    var a, b := r[..to] + r[to + 1..], s[..from] + s[from + 1..];
    assert |a| == |b|;
    forall i | 0 <= i < |a|
      ensures a[i] == b[i]
    {
      if i < to {
        assert a[i] == r[i];
      } else {
        assert a[i] == r[i + 1];
      }
      if i < from {
        assert b[i] == s[i];
      } else {
        assert b[i] == s[i + 1];
      }
    }
  }

  /** Moving an item onto its own position changes nothing (why the source
      returns early when the two indices are equal). */
  lemma MovedInPlace<T>(s: seq<T>, i: nat)
    requires i < |s|
    ensures Moved(s, i, i) == s
  {
  }

  lemma MovedKeepsUniqueIds(s: seq<Appointment>, from: nat, to: nat)
    requires from < |s| && to < |s|
    requires UniqueIds(s)
    ensures UniqueIds(Moved(s, from, to))
  {
    var r := Moved(s, from, to);
    forall i, j | 0 <= i < |r| && 0 <= j < |r| && i != j
      ensures r[i].id != r[j].id
    {
      assert MovedSource(from, to, i) != MovedSource(from, to, j);
    }
  }

  // ---------------------------------------------------------------------
  // The re-sort of the whole working set after a drop

  /** The key of the drop comparator: the first position of the id in the new
      order, or, for an id outside it, the appointment's instant. */
  function DropRank(order: seq<string>, a: Appointment): Rank {
    if a.id in order then Ranked(FirstIndexOf(order, a.id)) else Unranked(a.date.instant)
  }

  function DropKey(order: seq<string>): Appointment -> Rank {
    (a: Appointment) => DropRank(order, a)
  }

  /** The working set stably sorted by the drop comparator. */
  function ReorderAll(apps: seq<Appointment>, order: seq<string>): (r: seq<Appointment>)
    ensures |r| == |apps| && multiset(r) == multiset(apps)
  {
    SortBy(apps, DropKey(order))
  }

  function DateRank(a: Appointment): Rank {
    Unranked(a.date.instant)
  }

  /** Stable sort by ascending instant. */
  function ByDate(s: seq<Appointment>): (r: seq<Appointment>)
    ensures |r| == |s| && multiset(r) == multiset(s)
    ensures forall i, j :: 0 <= i < j < |r| ==> r[i].date.instant <= r[j].date.instant
  {
    var r := SortBy(s, DateRank);
    assert forall i, j :: 0 <= i < j < |r| ==> NotAfter(DateRank(r[i]), DateRank(r[j]));
    r
  }

  /** Whatever the new order holds: items whose id is in it come first, in
      the order of their first position in it, and all others follow in
      ascending instant. */
  lemma ReorderAllShape(apps: seq<Appointment>, order: seq<string>)
    ensures var r := ReorderAll(apps, order);
            forall i, j :: 0 <= i < j < |r| ==>
              && (r[j].id in order ==> r[i].id in order && FirstIndexOf(order, r[i].id) <= FirstIndexOf(order, r[j].id))
              && (r[i].id !in order && r[j].id !in order ==> r[i].date.instant <= r[j].date.instant)
  {
    var r := ReorderAll(apps, order);
    forall i, j | 0 <= i < j < |r|
      ensures r[j].id in order ==> r[i].id in order && FirstIndexOf(order, r[i].id) <= FirstIndexOf(order, r[j].id)
      ensures r[i].id !in order && r[j].id !in order ==> r[i].date.instant <= r[j].date.instant
    {
      assert NotAfter(DropKey(order)(r[i]), DropKey(order)(r[j]));
    }
  }

  // ---------------------------------------------------------------------
  // The shape of the working set after a drop, for unique ids

  lemma UniqueIdsTail(s: seq<Appointment>)
    requires UniqueIds(s) && s != []
    ensures UniqueIds(s[1..])
  {
    forall i, j | 0 <= i < |s[1..]| && 0 <= j < |s[1..]| && i != j
      ensures s[1..][i].id != s[1..][j].id
    {
      assert s[1..][i] == s[i + 1] && s[1..][j] == s[j + 1];
    }
  }

  /** Selection keeps ids unique. */
  lemma {:induction false} SelectKeepsUniqueIds(s: seq<Appointment>, p: Appointment -> bool)
    requires UniqueIds(s)
    ensures UniqueIds(Select(s, p))
  {
    if s != [] {
      UniqueIdsTail(s);
      SelectKeepsUniqueIds(s[1..], p);
      if p(s[0]) {
        HeadIdFresh(s);
        ConsKeepsUniqueIds(s[0], Select(s[1..], p));
        assert Select(s, p) == [s[0]] + Select(s[1..], p);
      }
    }
  }

  /** In a list with unique ids, no later item shares the head's id. */
  lemma HeadIdFresh(s: seq<Appointment>)
    requires UniqueIds(s) && s != []
    ensures forall y :: y in s[1..] ==> y.id != s[0].id
  {
    forall y | y in s[1..] ensures y.id != s[0].id {
      var k :| 0 <= k < |s[1..]| && s[1..][k] == y;
      assert s[k + 1] == y;
    }
  }

  /** Putting an item with a new id in front keeps ids unique. */
  lemma ConsKeepsUniqueIds(x: Appointment, rest: seq<Appointment>)
    requires UniqueIds(rest)
    requires forall y :: y in rest ==> y.id != x.id
    ensures UniqueIds([x] + rest)
  {
    var r := [x] + rest;
    forall i, j | 0 <= i < |r| && 0 <= j < |r| && i != j
      ensures r[i].id != r[j].id
    {
      if i > 0 && j > 0 {
        assert r[i] == rest[i - 1] && r[j] == rest[j - 1];
      } else if i == 0 {
        assert r[j] == rest[j - 1] && r[j] in rest;
      } else {
        assert r[i] == rest[i - 1] && r[i] in rest;
      }
    }
  }

  /** Two items of a list with unique ids that share an id are the same item. */
  lemma SameIdSameItem(s: seq<Appointment>, x: Appointment, y: Appointment)
    requires UniqueIds(s) && x in s && y in s && x.id == y.id
    ensures x == y
  {
    var i :| 0 <= i < |s| && s[i] == x;
    var j :| 0 <= j < |s| && s[j] == y;
  }

  /** In a list with unique ids, the first position of an item's id is the
      item's own position. */
  lemma PositionOfUniqueId(s: seq<Appointment>, i: nat)
    requires UniqueIds(s) && i < |s|
    ensures s[i].id in IdsOf(s) && FirstIndexOf(IdsOf(s), s[i].id) == i
  {
    var ids := IdsOf(s);
    assert ids[i] == s[i].id;
    var r := FirstIndexOf(ids, s[i].id);
    assert s[r].id == s[i].id;
  }

  /** The ids of the moved visible list are exactly the ids of the visible
      items. */
  lemma MovedVisibleIds(apps: seq<Appointment>, q: Appointment -> bool, from: nat, to: nat)
    requires UniqueIds(apps)
    requires from < |Select(apps, q)| && to < |Select(apps, q)|
    ensures forall x :: x in apps ==> (x.id in IdsOf(Moved(Select(apps, q), from, to)) <==> q(x))
  {
    var visible := Select(apps, q);
    var moved := Moved(visible, from, to);
    MovedIsPermutation(visible, from, to);
    forall x | x in apps
      ensures x.id in IdsOf(moved) <==> q(x)
    {
      if q(x) {
        assert x in multiset(moved);
        var i :| 0 <= i < |moved| && moved[i] == x;
        assert IdsOf(moved)[i] == x.id;
      }
      if x.id in IdsOf(moved) {
        var i :| 0 <= i < |moved| && IdsOf(moved)[i] == x.id;
        assert moved[i] in multiset(visible);
        SameIdSameItem(apps, x, moved[i]);
      }
    }
  }

  /** The re-sort after a drop, when ids are unique: the working set becomes
      the moved visible list followed by every other appointment in ascending
      instant, never interleaved. */
  lemma DropOrderShape(apps: seq<Appointment>, q: Appointment -> bool, from: nat, to: nat)
    requires UniqueIds(apps)
    requires from < |Select(apps, q)| && to < |Select(apps, q)|
    ensures var moved := Moved(Select(apps, q), from, to);
            ReorderAll(apps, IdsOf(moved)) == moved + ByDate(Select(apps, Not(q)))
  {
    var visible := Select(apps, q);
    var moved := Moved(visible, from, to);
    var order := IdsOf(moved);
    var rank := DropKey(order);
    var others := Select(apps, Not(q));
    var tail := ByDate(others);
    var t := moved + tail;
    SelectKeepsUniqueIds(apps, q);
    MovedKeepsUniqueIds(visible, from, to);
    MovedIsPermutation(visible, from, to);
    MovedVisibleIds(apps, q, from, to);
    MovedRanks(moved);
    OthersRanks(apps, q, order);
    assert forall x :: x in tail ==> x in others by {
      forall x | x in tail ensures x in others { assert x in multiset(tail); }
    }
    DropCandidateSorted(moved, tail, order);
    SelectPartition(apps, q, Not(q));
    assert multiset(t) == multiset(apps);
    forall k
      ensures OfRank(t, rank, k) == OfRank(apps, rank, k)
    {
      if k.Unranked? {
        DropOfUnrankedKey(apps, q, moved, order, others, tail, k);
      } else {
        DropOfRankedKey(apps, moved, tail, order, k);
      }
    }
    SortByCharacterized(apps, t, rank);
  }

  /** Under the drop key, the item at position `i` of a list with unique ids
      that is the new order has key `Ranked(i)`. */
  lemma MovedRanks(moved: seq<Appointment>)
    requires UniqueIds(moved)
    ensures forall i :: 0 <= i < |moved| ==> DropKey(IdsOf(moved))(moved[i]) == Ranked(i)
  {
    forall i | 0 <= i < |moved|
      ensures DropKey(IdsOf(moved))(moved[i]) == Ranked(i)
    {
      PositionOfUniqueId(moved, i);
    }
  }

  /** Items outside the visible list are keyed by their instant. */
  lemma OthersRanks(apps: seq<Appointment>, q: Appointment -> bool, order: seq<string>)
    requires forall x :: x in apps ==> (x.id in order <==> q(x))
    ensures forall x :: x in Select(apps, Not(q)) ==> x in apps && !q(x) && DropKey(order)(x) == DateRank(x)
  {
    forall x | x in Select(apps, Not(q))
      ensures x in apps && !q(x) && DropKey(order)(x) == DateRank(x)
    {
      assert Not(q)(x);
    }
  }

  /** The moved list followed by the date-sorted rest is sorted by the drop key. */
  lemma DropCandidateSorted(moved: seq<Appointment>, tail: seq<Appointment>, order: seq<string>)
    requires forall i :: 0 <= i < |moved| ==> DropKey(order)(moved[i]) == Ranked(i)
    requires forall x :: x in tail ==> DropKey(order)(x) == DateRank(x)
    requires forall i, j :: 0 <= i < j < |tail| ==> tail[i].date.instant <= tail[j].date.instant
    ensures SortedBy(moved + tail, DropKey(order))
  {
    var t := moved + tail;
    var rank := DropKey(order);
    forall i, j | 0 <= i < j < |t|
      ensures NotAfter(rank(t[i]), rank(t[j]))
    {
      if j >= |moved| {
        assert t[j] == tail[j - |moved|] && tail[j - |moved|] in tail;
      }
      if i >= |moved| {
        assert t[i] == tail[i - |moved|] && tail[i - |moved|] in tail;
      }
    }
  }

  /** A positioned key holds at most one item of the candidate, so the
      candidate and the working set agree on it. */
  lemma DropOfRankedKey(apps: seq<Appointment>, moved: seq<Appointment>, tail: seq<Appointment>,
                        order: seq<string>, k: Rank)
    requires k.Ranked?
    requires multiset(moved + tail) == multiset(apps)
    requires forall i :: 0 <= i < |moved| ==> DropKey(order)(moved[i]) == Ranked(i)
    requires forall x :: x in tail ==> DropKey(order)(x).Unranked?
    ensures OfRank(moved + tail, DropKey(order), k) == OfRank(apps, DropKey(order), k)
  {
    var t := moved + tail;
    var has := HasRank(DropKey(order), k);
    assert forall p :: |moved| <= p < |t| ==> t[p] == tail[p - |moved|] && tail[p - |moved|] in tail;
    assert forall i, j :: 0 <= i < |t| && 0 <= j < |t| && has(t[i]) && has(t[j]) ==> i == j;
    SelectAtMostOne(t, has);
    SelectSameMultiset(t, apps, has);
    ShortListByMultiset(OfRank(t, DropKey(order), k), OfRank(apps, DropKey(order), k));
  }

  /** An unpositioned key: the moved list contributes nothing to it, and the
      date-sorted rest keeps the working set's order within it. */
  lemma DropOfUnrankedKey(apps: seq<Appointment>, q: Appointment -> bool, moved: seq<Appointment>,
                          order: seq<string>, others: seq<Appointment>, tail: seq<Appointment>, k: Rank)
    requires k.Unranked?
    requires others == Select(apps, Not(q)) && tail == ByDate(others)
    requires forall i :: 0 <= i < |moved| ==> DropKey(order)(moved[i]) == Ranked(i)
    requires forall x :: x in others ==> x in apps && !q(x) && DropKey(order)(x) == DateRank(x)
    requires forall x :: x in tail ==> x in others
    requires forall x :: x in apps ==> (x.id in order <==> q(x))
    ensures OfRank(moved + tail, DropKey(order), k) == OfRank(apps, DropKey(order), k)
  {
    var has := HasRank(DropKey(order), k);
    UnrankedKeySkipsMoved(moved, tail, order, k);
    UnrankedKeyOfRest(apps, q, order, others, tail, k);
  }

  lemma UnrankedKeySkipsMoved(moved: seq<Appointment>, tail: seq<Appointment>, order: seq<string>, k: Rank)
    requires k.Unranked?
    requires forall i :: 0 <= i < |moved| ==> DropKey(order)(moved[i]) == Ranked(i)
    ensures Select(moved + tail, HasRank(DropKey(order), k)) == Select(tail, HasRank(DropKey(order), k))
  {
    var has := HasRank(DropKey(order), k);
    SelectAppend(moved, tail, has);
    assert forall x :: x in moved ==> !has(x) by {
      forall x | x in moved ensures !has(x) {
        var i :| 0 <= i < |moved| && moved[i] == x;
      }
    }
    SelectNone(moved, has);
  }

  lemma UnrankedKeyOfRest(apps: seq<Appointment>, q: Appointment -> bool, order: seq<string>,
                          others: seq<Appointment>, tail: seq<Appointment>, k: Rank)
    requires k.Unranked?
    requires others == Select(apps, Not(q)) && tail == ByDate(others)
    requires forall x :: x in others ==> DropKey(order)(x) == DateRank(x)
    requires forall x :: x in tail ==> x in others
    requires forall x :: x in apps ==> (x.id in order <==> q(x))
    ensures Select(tail, HasRank(DropKey(order), k)) == Select(apps, HasRank(DropKey(order), k))
  {
    var has := HasRank(DropKey(order), k);
    var byDate := HasRank(DateRank, k);
    assert forall x :: x in tail ==> has(x) == byDate(x) by {
      forall x | x in tail ensures has(x) == byDate(x) {
        assert DropKey(order)(x) == DateRank(x);
      }
    }
    SelectCongruent(tail, has, byDate);
    assert tail == SortBy(others, DateRank);
    SortByStable(others, DateRank, k);
    assert Select(tail, byDate) == Select(others, byDate);
    assert forall x :: x in others ==> byDate(x) == has(x) by {
      forall x | x in others ensures byDate(x) == has(x) {
        assert DropKey(order)(x) == DateRank(x);
      }
    }
    SelectCongruent(others, byDate, has);
    SelectSelect(apps, Not(q), has);
    assert forall x :: x in apps ==> And(Not(q), has)(x) == has(x) by {
      forall x | x in apps ensures And(Not(q), has)(x) == has(x) {
        if has(x) {
          assert DropKey(order)(x).Unranked?;
          assert x.id !in order;
        }
      }
    }
    SelectCongruent(apps, And(Not(q), has), has);
    calc {
      Select(tail, has);
      Select(tail, byDate);
      Select(others, byDate);
      Select(others, has);
      Select(Select(apps, Not(q)), has);
      Select(apps, And(Not(q), has));
      Select(apps, has);
    }
  }
}
