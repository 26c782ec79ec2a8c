/** The filter bar and the temporal split of `App.tsx`: three independent
    filters combined by conjunction, and the "upcoming" view that keeps the
    appointments of today and of the future. */
module Filtering {
  import opened Wrappers
  import opened Types
  import opened Seqs

  /** The value of the status and service filters that matches everything. */
  const AnyValue: string := "all"

  /** The three filter inputs: a date prefix, a status value and a service id. */
  datatype Filters = Filters(date: string, status: string, service: string)

  /** `clearFilters`: every filter at its default. */
  function Cleared(): Filters {
    Filters("", AnyValue, AnyValue)
  }

  /** An empty date filter matches every appointment; otherwise the stored
      date string must start with it. */
  predicate DateMatches(f: Filters, a: Appointment) {
    if f.date != "" then f.date <= a.date.iso else true
  }

  predicate StatusMatches(f: Filters, a: Appointment) {
    if f.status != AnyValue then StatusValue(a.status) == f.status else true
  }

  predicate ServiceMatches(f: Filters, a: Appointment) {
    if f.service != AnyValue then a.serviceId == f.service else true
  }

  /** The filter of `filteredAppointments`. */
  predicate Matches(f: Filters, a: Appointment) {
    DateMatches(f, a) && StatusMatches(f, a) && ServiceMatches(f, a)
  }

  function MatchesFilters(f: Filters): Appointment -> bool {
    a => Matches(f, a)
  }

  /** `isFiltering`. */
  predicate IsFiltering(f: Filters) {
    f.date != "" || f.status != AnyValue || f.service != AnyValue
  }

  /** `filteredAppointments`: the appointments that pass the filters, in
      working-set order. */
  function Filtered(apps: seq<Appointment>, f: Filters): (r: seq<Appointment>)
    ensures IsSubsequence(r, apps)
    ensures forall a :: a in r <==> a in apps && Matches(f, a)
  {
    SelectIsSubsequence(apps, MatchesFilters(f));
    Select(apps, MatchesFilters(f))
  }

  /** Each appointment occurs in `Filtered` as often as in the list when it is
      kept there, and never otherwise, repeated records included. */
  lemma FilteredCounts(apps: seq<Appointment>, f: Filters)
    ensures forall a :: multiset(Filtered(apps, f))[a] == if Matches(f, a) then multiset(apps)[a] else 0
  {
    SelectCounts(apps, MatchesFilters(f));
  }

  /** An appointment is upcoming when it is not before `now` or falls on the
      same calendar day as `now`. */
  predicate IsUpcoming(now: int, a: Appointment) {
    a.date.instant >= now || CalendarDay(a.date.instant) == CalendarDay(now)
  }

  function UpcomingAt(now: int): Appointment -> bool {
    a => IsUpcoming(now, a)
  }

  /** `upcomingAppointments`, applied to a list of appointments. */
  function Upcoming(apps: seq<Appointment>, now: int): (r: seq<Appointment>)
    ensures IsSubsequence(r, apps)
    ensures forall a :: a in r <==> a in apps && IsUpcoming(now, a)
  {
    SelectIsSubsequence(apps, UpcomingAt(now));
    Select(apps, UpcomingAt(now))
  }

  /** Each appointment occurs in `Upcoming` as often as in the list when it is
      kept there, and never otherwise, repeated records included. */
  lemma UpcomingCounts(apps: seq<Appointment>, now: int)
    ensures forall a :: multiset(Upcoming(apps, now))[a] == if IsUpcoming(now, a) then multiset(apps)[a] else 0
  {
    SelectCounts(apps, UpcomingAt(now));
  }

  /** The appointments that are not upcoming, in working-set order. */
  function History(apps: seq<Appointment>, now: int): (r: seq<Appointment>)
    ensures IsSubsequence(r, apps)
    ensures forall a :: a in r <==> a in apps && !IsUpcoming(now, a)
  {
    SelectIsSubsequence(apps, Not(UpcomingAt(now)));
    Select(apps, Not(UpcomingAt(now)))
  }

  /** Each appointment occurs in `History` as often as in the list when it is
      kept there, and never otherwise, repeated records included. */
  lemma HistoryCounts(apps: seq<Appointment>, now: int)
    ensures forall a :: multiset(History(apps, now))[a] == if IsUpcoming(now, a) then 0 else multiset(apps)[a]
  {
    SelectCounts(apps, Not(UpcomingAt(now)));
  }

  /** The appointments a filtered dashboard does not show: those that fail
      the filters or are not upcoming, in working-set order. */
  function Hidden(apps: seq<Appointment>, f: Filters, now: int): (r: seq<Appointment>)
    ensures IsSubsequence(r, apps)
    ensures forall a :: a in r <==> a in apps && !(Matches(f, a) && IsUpcoming(now, a))
  {
    SelectIsSubsequence(apps, Not(And(MatchesFilters(f), UpcomingAt(now))));
    Select(apps, Not(And(MatchesFilters(f), UpcomingAt(now))))
  }

  /** Each appointment occurs in `Hidden` as often as in the list when it is
      kept there, and never otherwise, repeated records included. */
  lemma HiddenCounts(apps: seq<Appointment>, f: Filters, now: int)
    ensures forall a :: multiset(Hidden(apps, f, now))[a] == if Matches(f, a) && IsUpcoming(now, a) then 0 else multiset(apps)[a]
  {
    SelectCounts(apps, Not(And(MatchesFilters(f), UpcomingAt(now))));
  }

  /** With no filter in use, the hidden appointments are exactly the history. */
  lemma HiddenWithoutFilters(apps: seq<Appointment>, f: Filters, now: int)
    requires !IsFiltering(f)
    ensures Hidden(apps, f, now) == History(apps, now)
  {
    IsFilteringIffNotCleared(f);
    ClearedKeepsAll(apps);
    SelectCongruent(apps, Not(And(MatchesFilters(f), UpcomingAt(now))), Not(UpcomingAt(now)));
  }

  /** Every appointment is either upcoming or history, and not both. */
  lemma UpcomingHistoryPartition(apps: seq<Appointment>, now: int)
    ensures multiset(Upcoming(apps, now)) + multiset(History(apps, now)) == multiset(apps)
  {
    SelectPartition(apps, UpcomingAt(now), Not(UpcomingAt(now)));
  }

  /** The filters are in use exactly when they differ from the cleared state. */
  lemma IsFilteringIffNotCleared(f: Filters)
    ensures !IsFiltering(f) <==> f == Cleared()
  {
  }

  /** Each filter passes everything at its default, so the cleared filters
      keep the whole working set. */
  lemma ClearedKeepsAll(apps: seq<Appointment>)
    ensures forall a :: Matches(Cleared(), a)
    ensures Filtered(apps, Cleared()) == apps
  {
    SelectAll(apps, MatchesFilters(Cleared()));
  }

  /** A status filter set to a status's value passes exactly that status. */
  lemma StatusFilterSelectsStatus(f: Filters, a: Appointment, s: Status)
    requires f.status == StatusValue(s)
    ensures StatusMatches(f, a) <==> a.status == s
  {
    StatusValueInjective(a.status, s);
  }

  /** A date filter is a prefix test on the stored string: a day passes
      every date string that starts with it. */
  lemma DateFilterByPrefix(day: string, rest: string, a: Appointment)
    requires a.date.iso == day + rest
    ensures DateMatches(Filters(day, AnyValue, AnyValue), a)
  {
    assert (day + rest)[..|day|] == day;
  }

  /** A non-empty date filter rejects every date string that starts with a
      different string of the same length, such as another day. */
  lemma DateFilterRejectsOtherDay(day: string, other: string, rest: string, a: Appointment)
    requires day != "" && |other| == |day| && other != day
    requires a.date.iso == other + rest
    ensures !DateMatches(Filters(day, AnyValue, AnyValue), a)
  {
    assert (other + rest)[..|day|] == other;
  }

  /** Same-day appointments never fall out of the upcoming view: an
      appointment is upcoming exactly when it is not before the start of
      today. */
  lemma UpcomingSinceStartOfDay(now: int, a: Appointment)
    ensures IsUpcoming(now, a) <==> a.date.instant >= StartOfDay(now)
  {
    var t := a.date.instant;
    var d := CalendarDay(now);
    if t >= StartOfDay(now) && t < now {
      assert d * MillisPerDay <= t < now < (d + 1) * MillisPerDay;
      assert CalendarDay(t) == d;
    }
    if CalendarDay(t) == d {
      assert d * MillisPerDay <= t;
    }
  }

  /** Filtering and the temporal split commute, so applying the filters first
      and then the split selects the same list as the other way round. */
  lemma FilterThenUpcoming(apps: seq<Appointment>, f: Filters, now: int)
    ensures Upcoming(Filtered(apps, f), now) == Filtered(Upcoming(apps, now), f)
    ensures Upcoming(Filtered(apps, f), now) == Select(apps, And(MatchesFilters(f), UpcomingAt(now)))
  {
    SelectSelect(apps, MatchesFilters(f), UpcomingAt(now));
    SelectSelect(apps, UpcomingAt(now), MatchesFilters(f));
    SelectCongruent(apps, And(MatchesFilters(f), UpcomingAt(now)), And(UpcomingAt(now), MatchesFilters(f)));
  }
}
