/** Worked examples of the ordering engine on small concrete working sets. */
module Scenarios {
  import opened Wrappers
  import opened Types
  import opened Seqs
  import opened Ordering
  import opened Filtering
  import opened Portal

  /** An appointment of service s1 at the given instant. */
  function At(id: string, instant: int): Appointment {
    Appointment(id, "s1", DateTime(id, instant), Confirmed, None, None, None)
  }

  /** A saved order overrides the date order: with ids y, x saved, a refresh
      that delivers x (tomorrow) before y (today) shows y first. */
  lemma SavedOrderOverridesDate(today: int)
    ensures ApplySavedOrder(SavedIds(["y", "x"]), [At("x", today + MillisPerDay), At("y", today)])
         == [At("y", today), At("x", today + MillisPerDay)]
  {
    var x, y := At("x", today + MillisPerDay), At("y", today);
    assert IdsOf([y, x]) == ["y", "x"];
    assert multiset([x, y]) == multiset([y, x]);
    SavedOrderRestoresList([y, x], [x, y]);
  }

  /** The drag example: dragging the third of three upcoming cards to the
      front. The shown list is a, b, c; it becomes c, a, b, whose ids are
      saved; the working set becomes c, a, b followed by the past one, d. */
  lemma DragThirdToFront(now: int, a: Appointment, b: Appointment, c: Appointment, d: Appointment)
    requires UniqueIds([a, b, c, d])
    requires IsUpcoming(now, a) && IsUpcoming(now, b) && IsUpcoming(now, c) && !IsUpcoming(now, d)
    ensures Upcoming(Filtered([a, b, c, d], Cleared()), now) == [a, b, c]
    ensures Moved([a, b, c], 2, 0) == [c, a, b]
    ensures IdsOf([c, a, b]) == [c.id, a.id, b.id]
    ensures ReorderAll([a, b, c, d], [c.id, a.id, b.id]) == [c, a, b, d]
  {
    ClearedKeepsAll([a, b, c, d]);
    ExampleSplit(now, a, b, c, d);
    ExampleMove(a, b, c);
    ExampleReorder(now, a, b, c, d);
  }

  /** The working set after the drop of the drag example. */
  lemma ExampleReorder(now: int, a: Appointment, b: Appointment, c: Appointment, d: Appointment)
    requires UniqueIds([a, b, c, d])
    requires Select([a, b, c, d], UpcomingAt(now)) == [a, b, c]
    requires Select([a, b, c, d], Not(UpcomingAt(now))) == [d]
    requires Moved([a, b, c], 2, 0) == [c, a, b]
    requires IdsOf([c, a, b]) == [c.id, a.id, b.id]
    ensures ReorderAll([a, b, c, d], [c.id, a.id, b.id]) == [c, a, b, d]
  {
    DropOrderShape([a, b, c, d], UpcomingAt(now), 2, 0);
    ShortListByMultiset([d], ByDate([d]));
  }

  /** The move of the drag example and the ids it saves. */
  lemma ExampleMove(a: Appointment, b: Appointment, c: Appointment)
    ensures Moved([a, b, c], 2, 0) == [c, a, b]
    ensures IdsOf([c, a, b]) == [c.id, a.id, b.id]
  {
    var moved := Moved([a, b, c], 2, 0);
    assert moved[0] == c && moved[1] == a && moved[2] == b;
  }

  /** Three upcoming appointments followed by a past one split into the three
      and the one. */
  lemma ExampleSplit(now: int, a: Appointment, b: Appointment, c: Appointment, d: Appointment)
    requires IsUpcoming(now, a) && IsUpcoming(now, b) && IsUpcoming(now, c) && !IsUpcoming(now, d)
    ensures Select([a, b, c, d], UpcomingAt(now)) == [a, b, c]
    ensures Select([a, b, c, d], Not(UpcomingAt(now))) == [d]
  {
    var up := UpcomingAt(now);
    var past := Not(UpcomingAt(now));
    assert up(a) && up(b) && up(c) && !up(d);
    assert [d][1..] == [] && [c, d][1..] == [d] && [b, c, d][1..] == [c, d] && [a, b, c, d][1..] == [b, c, d];
    assert Select([d], up) == [];
    assert Select([c, d], up) == [c];
    assert Select([b, c, d], up) == [b, c];
    assert Select([d], past) == [d];
    assert Select([c, d], past) == [d];
    assert Select([b, c, d], past) == [d];
  }

  /** Concretely: three cards just after now and one five days before it meet the
      drag example's hypotheses. */
  lemma DragExampleHypotheses(now: int)
    ensures var a, b, c, d := At("a", now + 1), At("b", now + 2), At("c", now + 3), At("d", now - 5 * MillisPerDay);
            UniqueIds([a, b, c, d])
            && IsUpcoming(now, a) && IsUpcoming(now, b) && IsUpcoming(now, c) && !IsUpcoming(now, d)
  {
    var d := At("d", now - 5 * MillisPerDay);
    assert CalendarDay(d.date.instant) == CalendarDay(now) - 5;
  }
}
