/** `services/calendarService.ts`: turning provider events into appointments,
    the read of upcoming events, and the simulated write. The provider call
    itself is outside the model; its outcome is a parameter. */
module CalendarService {
  import opened Wrappers
  import opened Types
  import opened Seqs
  import opened Text
  import opened Catalog

  /** The key the client is configured with. */
  const ApiKey: string := "479538977890-ak3thanls2coa7loijq7en12s4d152mp.apps.googleusercontent.com"

  /** The placeholder whose presence in the key marks it as not configured. */
  const PlaceholderKey: string := "479538977890-ak3thanls2coa7loijq7en12s4d152mp.apps.googleusercontent.com"

  /** Service id given to an event whose summary names no catalog service. */
  const ExternalServiceId: string := "external"

  /** Title given to an event without a summary. */
  const BusyTitle: string := "Ocupado"

  /** Text the simulated write appends to the notes. */
  const PortalNote: string := "\n(Solicitação enviada via Portal)"

  /** What a failed provider call carries: `result.error.code` and
      `result.error.message`, each possibly absent. */
  datatype GatewayError = GatewayError(code: Option<int>, message: Option<string>)

  /** Provider status to appointment status: tentative is pending, cancelled is
      cancelled, anything else is confirmed; never completed. */
  function MapStatus(p: ProviderStatus): (s: Status)
    ensures s == Pending <==> p == ProviderTentative
    ensures s == Cancelled <==> p == ProviderCancelled
    ensures s == Confirmed <==> p == ProviderConfirmed
    ensures s != Completed
  {
    match p
    case ProviderTentative => Pending
    case ProviderCancelled => Cancelled
    case ProviderConfirmed => Confirmed
  }

  /** A non-empty summary names a service when it contains the service's name. */
  predicate Names(summary: string, s: Service) {
    summary != "" && Contains(summary, s.name)
  }

  function NamedIn(summary: string): Service -> bool {
    (s: Service) => Names(summary, s)
  }

  /** The first service, in catalog order, that the summary names. */
  function MatchService(services: seq<Service>, summary: string): (r: Option<Service>)
    ensures r.Some? ==> exists i :: 0 <= i < |services| && services[i] == r.value && Names(summary, services[i])
                                   && forall j :: 0 <= j < i ==> !Names(summary, services[j])
    ensures r.None? ==> forall s :: s in services ==> !Names(summary, s)
    ensures summary == "" ==> r == None
  {
    FindFirst(services, NamedIn(summary))
  }

  /** JavaScript truthiness of an optional date string. */
  predicate Present(d: Option<DateTime>) {
    d.Some? && d.value.iso != ""
  }

  /** The start of an event: its timed start, else its all-day date, else the
      current time. */
  function EventDate(start: EventStart, now: DateTime): (d: DateTime)
    ensures Present(start.dateTime) ==> d == start.dateTime.value
    ensures !Present(start.dateTime) && Present(start.date) ==> d == start.date.value
    ensures !Present(start.dateTime) && !Present(start.date) ==> d == now
  {
    if Present(start.dateTime) then start.dateTime.value
    else if Present(start.date) then start.date.value
    else now
  }

  /** `convertGoogleEventToAppointment`; `now` stands for the current time. */
  function ConvertEvent(event: ProviderEvent, services: seq<Service>, now: DateTime): (a: Appointment)
    ensures a.id == event.id && a.googleEventId == Some(event.id)
    ensures a.status == MapStatus(event.status)
    ensures event.summary != "" ==> a.title == Some(event.summary)
    ensures event.summary == "" ==> a.title == Some(BusyTitle)
    ensures event.description.Some? ==> a.notes == event.description
    ensures event.description.None? ==> a.notes == Some("")
    ensures a.date == EventDate(event.start, now)
    ensures forall i :: 0 <= i < |services| && Names(event.summary, services[i])
                        && (forall j :: 0 <= j < i ==> !Names(event.summary, services[j])) ==>
              a.serviceId == services[i].id
    ensures (forall s :: s in services ==> !Names(event.summary, s)) ==> a.serviceId == ExternalServiceId
  {
    var matched := MatchService(services, event.summary);
    Appointment(
      event.id,
      if matched.Some? then matched.value.id else ExternalServiceId,
      EventDate(event.start, now),
      MapStatus(event.status),
      Some(if event.summary != "" then event.summary else BusyTitle),
      Some(event.description.GetOr("")),
      Some(event.id))
  }

  /** Against the fixed catalog, an imported event belongs to a catalog
      service or to the external sentinel. */
  lemma ConvertEventServiceIds(event: ProviderEvent, now: DateTime)
    ensures ConvertEvent(event, AvailableServices, now).serviceId in {"s1", "s2", "s3", "s4", ExternalServiceId}
  {
    CatalogShape();
  }

  /** The client is usable only when initialized with a configured key. */
  predicate Usable(inited: bool, apiKey: string) {
    inited && !Contains(apiKey, PlaceholderKey)
  }

  /** `listUpcomingEvents`: not usable gives no events; a failed call passes
      its error on; a missing or empty item list gives no events; otherwise
      each event is converted, one to one and in order. */
  function ListUpcomingEvents(inited: bool, apiKey: string,
                              response: Result<Option<seq<ProviderEvent>>, GatewayError>,
                              services: seq<Service>, now: DateTime): (r: Result<seq<Appointment>, GatewayError>)
    ensures !Usable(inited, apiKey) ==> r == Success([])
    ensures Usable(inited, apiKey) && response.Failure? ==> r == Failure(response.error)
    ensures Usable(inited, apiKey) && response.Success? && response.value.None? ==> r == Success([])
    ensures Usable(inited, apiKey) && response.Success? && response.value.Some? ==>
              r.Success? && |r.value| == |response.value.value|
              && forall i :: 0 <= i < |r.value| ==> r.value[i] == ConvertEvent(response.value.value[i], services, now)
    ensures r.Failure? <==> Usable(inited, apiKey) && response.Failure?
  {
    if !Usable(inited, apiKey) then Success([])
    else match response
      case Failure(e) => Failure(e)
      case Success(None) => Success([])
      case Success(Some(events)) =>
        if |events| == 0 then Success([])
        else Success(seq(|events|, i requires 0 <= i < |events| => ConvertEvent(events[i], services, now)))
  }

  /** As configured, the key contains the placeholder, so every read yields
      an empty list whatever the provider would answer. */
  lemma ListUpcomingAsConfigured(inited: bool, response: Result<Option<seq<ProviderEvent>>, GatewayError>,
                                 services: seq<Service>, now: DateTime)
    ensures ListUpcomingEvents(inited, ApiKey, response, services, now) == Success([])
  {
  }

  /** `createCalendarEvent`: the appointment handed back is the one sent,
      marked pending, with the portal note appended to its notes. */
  function CreateEventEcho(appointment: Appointment): (r: Appointment)
    ensures r.status == Pending
    ensures r.notes == Some(appointment.notes.GetOr("") + PortalNote)
    ensures r.(status := appointment.status, notes := appointment.notes) == appointment
  {
    appointment.(status := Pending, notes := Some(appointment.notes.GetOr("") + PortalNote))
  }
}
