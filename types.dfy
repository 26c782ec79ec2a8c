/** The records of `types.ts`: appointment status, catalog service,
    appointment, calendar user and the calendar provider's event. */
module Types {
  import opened Wrappers

  /** `AppointmentStatus`: a closed enumeration of four values. */
  datatype Status = Confirmed | Pending | Cancelled | Completed

  /** The string value each enumeration member carries; the status filter
      compares against these strings. */
  function StatusValue(s: Status): string {
    match s
    case Confirmed => "Confirmado"
    case Pending => "Pendente"
    case Cancelled => "Cancelado"
    case Completed => "Concluído"
  }

  /** Distinct members carry distinct string values, so equality on the value
      is equality on the status. */
  lemma StatusValueInjective(s: Status, t: Status)
    ensures StatusValue(s) == StatusValue(t) <==> s == t
  {
  }

  /** Exactly four values exist. */
  lemma StatusValues()
    ensures forall s: Status :: StatusValue(s) in {"Confirmado", "Pendente", "Cancelado", "Concluído"}
    ensures |{"Confirmado", "Pendente", "Cancelado", "Concluído"}| == 4
  {
  }

  /** A point in time as the application holds it: the serialized form that is
      stored and prefix-filtered, and the instant it denotes, in milliseconds on
      the local wall clock (the instant the source obtains with `new Date(..)`). */
  datatype DateTime = DateTime(iso: string, instant: int)

  const MillisPerDay: int := 86_400_000

  /** The local calendar day of an instant (what `toDateString` renders):
      days are counted from the epoch on the local clock. */
  function CalendarDay(instant: int): int {
    instant / MillisPerDay
  }

  /** First instant of the local calendar day that contains `instant`. */
  function StartOfDay(instant: int): (r: int)
    ensures r <= instant < r + MillisPerDay
    ensures CalendarDay(r) == CalendarDay(instant)
  {
    CalendarDay(instant) * MillisPerDay
  }

  /** `Service`: a catalog entry; the price is held in cents. */
  datatype Service = Service(id: string, name: string, durationMinutes: int, priceCents: int, description: string)

  /** `Appointment`: id, serviceId, date and status are always present; title,
      notes and googleEventId are optional. */
  datatype Appointment = Appointment(
    id: string,
    serviceId: string,
    date: DateTime,
    status: Status,
    title: Option<string>,
    notes: Option<string>,
    googleEventId: Option<string>)

  /** `User`: a calendar identity the visitor can select. */
  datatype User = User(id: string, name: string, email: string, phone: string,
                       calendarId: Option<string>, password: Option<string>)

  /** The provider's own status vocabulary: exactly three values. */
  datatype ProviderStatus = ProviderConfirmed | ProviderTentative | ProviderCancelled

  /** `start` of a provider event: a timed event has `dateTime`, an all-day
      event has `date`; both are optional. */
  datatype EventStart = EventStart(dateTime: Option<DateTime>, date: Option<DateTime>)

  /** `GoogleCalendarEvent`, restricted to the fields the core reads. */
  datatype ProviderEvent = ProviderEvent(
    id: string,
    summary: string,
    description: Option<string>,
    start: EventStart,
    status: ProviderStatus)

  /** The ids of a list of appointments, in list order (`list.map(a => a.id)`). */
  function IdsOf(s: seq<Appointment>): (r: seq<string>)
    ensures |r| == |s|
    ensures forall i :: 0 <= i < |s| ==> r[i] == s[i].id
  {
    seq(|s|, i requires 0 <= i < |s| => s[i].id)
  }

  /** No two positions of the list hold the same id. */
  ghost predicate UniqueIds(s: seq<Appointment>) {
    forall i, j :: 0 <= i < |s| && 0 <= j < |s| && i != j ==> s[i].id != s[j].id
  }

  /** Appending an appointment whose id is not yet used keeps the ids unique. */
  lemma AppendFreshKeepsUniqueIds(s: seq<Appointment>, a: Appointment)
    requires UniqueIds(s) && a.id !in IdsOf(s)
    ensures UniqueIds(s + [a])
  {
    var t := s + [a];
    forall i, j | 0 <= i < |t| && 0 <= j < |t| && i != j
      ensures t[i].id != t[j].id
    {
      if i < |s| && j < |s| {
        assert t[i] == s[i] && t[j] == s[j];
      } else if i < |s| {
        assert IdsOf(s)[i] == t[i].id;
      } else {
        assert IdsOf(s)[j] == t[j].id;
      }
    }
  }
}
