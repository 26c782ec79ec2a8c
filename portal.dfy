/** The state of the portal screen in `App.tsx` and the handlers that change
    it: account selection and logout, refresh from the calendar, booking,
    the filter bar and the drag-and-drop reorder. */
module Portal {
  import opened Wrappers
  import opened Types
  import opened Catalog
  import opened Seqs
  import opened Ordering
  import opened Filtering
  import opened CalendarService

  const NotFoundMessage: string := "Agenda não encontrada ou privada." + " Verifique o ID no arquivo constants.ts."
  const AccessDeniedMessage: string := "Acesso negado. A API Key pode estar" + " incorreta ou a agenda não é pública."
  const GenericMessage: string := "Erro ao carregar agenda."
  const ProviderPrefix: string := "Erro Google: "

  /** The error carries a usable provider message. */
  predicate HasMessage(e: GatewayError) {
    e.message.Some? && e.message.value != ""
  }

  /** The four messages are told apart by their text. */
  lemma MessagesDistinct(m: string)
    ensures NotFoundMessage != AccessDeniedMessage
    ensures NotFoundMessage != GenericMessage && AccessDeniedMessage != GenericMessage
    ensures ProviderPrefix + m != NotFoundMessage
    ensures ProviderPrefix + m != AccessDeniedMessage
    ensures ProviderPrefix + m != GenericMessage
    ensures !(ProviderPrefix <= NotFoundMessage) && !(ProviderPrefix <= AccessDeniedMessage)
    ensures !(ProviderPrefix <= GenericMessage)
  {
    assert (ProviderPrefix + m)[0] == 'E' && (ProviderPrefix + m)[5] == 'G';
  }

  /** The message shown when a refresh fails: a 404 code first, then a 403
      code, then the provider's own message, then the generic text. */
  function SyncErrorMessage(e: GatewayError): (msg: string)
    ensures msg == NotFoundMessage <==> e.code == Some(404)
    ensures msg == AccessDeniedMessage <==> e.code == Some(403)
    ensures msg == GenericMessage <==> e.code != Some(404) && e.code != Some(403) && !HasMessage(e)
    ensures ProviderPrefix <= msg <==> e.code != Some(404) && e.code != Some(403) && HasMessage(e)
    ensures ProviderPrefix <= msg ==> msg == ProviderPrefix + e.message.value
  {
    MessagesDistinct(if HasMessage(e) then e.message.value else "");
    if e.code == Some(404) then NotFoundMessage
    else if e.code == Some(403) then AccessDeniedMessage
    else if HasMessage(e) then ProviderPrefix + e.message.value
    else GenericMessage
  }

  const BookingNotes: string := "Solicitação realizada pelo portal."
  const ReservationPrefix: string := "Pré-reserva: "
  const DefaultBookingTitle: string := "Novo Agendamento"

  function HasId(id: string): Service -> bool {
    (s: Service) => s.id == id
  }

  /** The first catalog entry with the given id. */
  function FindServiceById(services: seq<Service>, id: string): (r: Option<Service>)
    ensures r.Some? ==> r.value in services && r.value.id == id
    ensures r.None? <==> forall s :: s in services ==> s.id != id
  {
    FindFirst(services, HasId(id))
  }

  /** The title of a new booking: the service's name after the reservation
      prefix, or the default title when the service is not in the catalog. */
  function BookingTitle(service: Option<Service>): (t: string)
    ensures service.Some? ==> t == ReservationPrefix + service.value.name
    ensures service.None? ==> t == DefaultBookingTitle
  {
    if service.Some? then ReservationPrefix + service.value.name else DefaultBookingTitle
  }

  /** The record `handleNewBooking` builds locally. */
  function NewAppointment(services: seq<Service>, freshId: string, serviceId: string, date: DateTime): (a: Appointment)
    ensures a.id == freshId && a.serviceId == serviceId && a.date == date
    ensures a.status == Pending && a.notes == Some(BookingNotes) && a.googleEventId == None
    ensures a.title == Some(BookingTitle(FindServiceById(services, serviceId)))
  {
    Appointment(freshId, serviceId, date, Pending,
                Some(BookingTitle(FindServiceById(services, serviceId))),
                Some(BookingNotes), None)
  }

  /** A booking for a catalog service is titled after that service; any other
      service id gets the default title. */
  lemma NewAppointmentTitles(freshId: string, serviceId: string, date: DateTime)
    ensures forall i :: 0 <= i < |AvailableServices| && AvailableServices[i].id == serviceId ==>
              NewAppointment(AvailableServices, freshId, serviceId, date).title == Some(ReservationPrefix + AvailableServices[i].name)
    ensures serviceId !in {"s1", "s2", "s3", "s4"} ==>
              NewAppointment(AvailableServices, freshId, serviceId, date).title == Some(DefaultBookingTitle)
  {
    CatalogShape();
    var r := FindServiceById(AvailableServices, serviceId);
    forall i | 0 <= i < |AvailableServices| && AvailableServices[i].id == serviceId
      ensures r == Some(AvailableServices[i])
    {
      assert r.Some?;
      assert r.value.id == AvailableServices[i].id;
    }
  }

  /** A drop rebuilds the working set as the moved shown list followed by
      every appointment the dashboard hides, in ascending instant. */
  lemma DropShape(apps: seq<Appointment>, f: Filters, now: int, from: nat, to: nat)
    requires UniqueIds(apps)
    requires from < |Upcoming(Filtered(apps, f), now)| && to < |Upcoming(Filtered(apps, f), now)|
    ensures var moved := Moved(Upcoming(Filtered(apps, f), now), from, to);
            ReorderAll(apps, IdsOf(moved)) == moved + ByDate(Hidden(apps, f, now))
  {
    FilterThenUpcoming(apps, f, now);
    DropOrderShape(apps, And(MatchesFilters(f), UpcomingAt(now)), from, to);
  }

  /** With no filter in use, a drop rebuilds the working set as the moved
      upcoming list followed by the history in ascending instant. */
  lemma DropWithoutFilters(apps: seq<Appointment>, f: Filters, now: int, from: nat, to: nat)
    requires !IsFiltering(f) && UniqueIds(apps)
    requires from < |Upcoming(Filtered(apps, f), now)| && to < |Upcoming(Filtered(apps, f), now)|
    ensures var moved := Moved(Upcoming(Filtered(apps, f), now), from, to);
            ReorderAll(apps, IdsOf(moved)) == moved + ByDate(History(apps, now))
  {
    DropShape(apps, f, now, from, to);
    HiddenWithoutFilters(apps, f, now);
  }

  /** Both shapes of a drop's re-sort at once: after any filters, and, with
      no filter in use, after the history. */
  lemma DropShapes(apps: seq<Appointment>, f: Filters, now: int, from: nat, to: nat)
    requires from < |Upcoming(Filtered(apps, f), now)| && to < |Upcoming(Filtered(apps, f), now)|
    ensures var moved := Moved(Upcoming(Filtered(apps, f), now), from, to);
            && (UniqueIds(apps) ==> ReorderAll(apps, IdsOf(moved)) == moved + ByDate(Hidden(apps, f, now)))
            && (UniqueIds(apps) && !IsFiltering(f) ==> ReorderAll(apps, IdsOf(moved)) == moved + ByDate(History(apps, now)))
  {
    if UniqueIds(apps) {
      DropShape(apps, f, now, from, to);
      if !IsFiltering(f) {
        HiddenWithoutFilters(apps, f, now);
      }
    }
  }

  /** The screen state: the selected calendar, the working set of
      appointments, the persisted manual order, the drag in progress, the
      sync flags and the three filter inputs. */
  class PortalState {
    var selectedUser: Option<User>
    var appointments: seq<Appointment>
    var savedOrder: StoredOrder
    var draggedIndex: Option<nat>
    var isSyncing: bool
    var syncError: Option<string>
    var dateFilter: string
    var statusFilter: string
    var serviceFilter: string

    /** The initial state; `stored` is what the browser holds as the saved order. */
    constructor(stored: StoredOrder)
      ensures selectedUser == None && appointments == [] && savedOrder == stored
      ensures draggedIndex == None && !isSyncing && syncError == None
      ensures CurrentFilters() == Cleared()
    {
      selectedUser := None;
      appointments := [];
      savedOrder := stored;
      draggedIndex := None;
      isSyncing := false;
      syncError := None;
      dateFilter := "";
      statusFilter := AnyValue;
      serviceFilter := AnyValue;
    }

    function CurrentFilters(): Filters
      reads this
    {
      Filters(dateFilter, statusFilter, serviceFilter)
    }

    predicate IsFilteringNow()
      reads this
    {
      IsFiltering(CurrentFilters())
    }

    function FilteredAppointments(): seq<Appointment>
      reads this
    {
      Filtered(appointments, CurrentFilters())
    }

    /** The list the dashboard shows and the drag indices refer to. */
    function UpcomingAppointments(now: int): seq<Appointment>
      reads this
    {
      Upcoming(FilteredAppointments(), now)
    }

    /** `handleSelectAccount`. */
    method SelectAccount(account: User)
      modifies this
      ensures selectedUser == Some(account) && syncError == None
      ensures appointments == old(appointments) && savedOrder == old(savedOrder)
      ensures draggedIndex == old(draggedIndex) && isSyncing == old(isSyncing)
      ensures CurrentFilters() == old(CurrentFilters())
    {
      selectedUser := Some(account);
      syncError := None;
    }

    /** `clearFilters`: afterwards nothing is filtered out. */
    method ClearFilters()
      modifies this
      ensures CurrentFilters() == Cleared() && !IsFilteringNow()
      ensures FilteredAppointments() == appointments
      ensures selectedUser == old(selectedUser) && appointments == old(appointments)
      ensures savedOrder == old(savedOrder) && draggedIndex == old(draggedIndex)
      ensures isSyncing == old(isSyncing) && syncError == old(syncError)
    {
      dateFilter := "";
      statusFilter := AnyValue;
      serviceFilter := AnyValue;
      ClearedKeepsAll(appointments);
    }

    /** `handleLogout`: no calendar selected, no filter, no appointment. */
    method Logout()
      modifies this
      ensures selectedUser == None && appointments == []
      ensures CurrentFilters() == Cleared() && !IsFilteringNow()
      ensures savedOrder == old(savedOrder) && draggedIndex == old(draggedIndex)
      ensures isSyncing == old(isSyncing) && syncError == old(syncError)
    {
      selectedUser := None;
      ClearFilters();
      appointments := [];
    }

    /** The date input of the filter bar. */
    method SetDateFilter(value: string)
      modifies this
      ensures CurrentFilters() == old(CurrentFilters()).(date := value)
      ensures selectedUser == old(selectedUser) && appointments == old(appointments)
      ensures savedOrder == old(savedOrder) && draggedIndex == old(draggedIndex)
      ensures isSyncing == old(isSyncing) && syncError == old(syncError)
    {
      dateFilter := value;
    }

    /** The status select of the filter bar. */
    method SetStatusFilter(value: string)
      modifies this
      ensures CurrentFilters() == old(CurrentFilters()).(status := value)
      ensures selectedUser == old(selectedUser) && appointments == old(appointments)
      ensures savedOrder == old(savedOrder) && draggedIndex == old(draggedIndex)
      ensures isSyncing == old(isSyncing) && syncError == old(syncError)
    {
      statusFilter := value;
    }

    /** The service select of the filter bar. */
    method SetServiceFilter(value: string)
      modifies this
      ensures CurrentFilters() == old(CurrentFilters()).(service := value)
      ensures selectedUser == old(selectedUser) && appointments == old(appointments)
      ensures savedOrder == old(savedOrder) && draggedIndex == old(draggedIndex)
      ensures isSyncing == old(isSyncing) && syncError == old(syncError)
    {
      serviceFilter := value;
    }

    /** `refreshCalendarEvents`, once the read has settled: `outcome` is what
        `ListUpcomingEvents` delivered. On success the working set is replaced
        by the fetched events in saved order; on failure it is kept and the
        error is classified. */
    method Refresh(outcome: Result<seq<Appointment>, GatewayError>)
      modifies this
      ensures outcome.Success? ==>
                appointments == ApplySavedOrder(savedOrder, outcome.value)
                && multiset(appointments) == multiset(outcome.value)
                && syncError == None
      ensures outcome.Failure? ==>
                appointments == old(appointments) && syncError == Some(SyncErrorMessage(outcome.error))
      ensures !isSyncing
      ensures selectedUser == old(selectedUser) && savedOrder == old(savedOrder)
      ensures draggedIndex == old(draggedIndex) && CurrentFilters() == old(CurrentFilters())
    {
      isSyncing := true;
      syncError := None;
      if outcome.Success? {
        appointments := ApplySavedOrder(savedOrder, outcome.value);
      } else {
        syncError := Some(SyncErrorMessage(outcome.error));
      }
      isSyncing := false;
    }

    /** `handleNewBooking`, once the simulated write has settled (`written`
        tells whether it resolved): on success the locally built pending record
        is appended and the filters are cleared; otherwise nothing changes. */
    method NewBooking(services: seq<Service>, serviceId: string, date: DateTime, freshId: string, written: bool)
      requires freshId !in IdsOf(appointments)
      modifies this
      ensures written ==> appointments == old(appointments) + [NewAppointment(services, freshId, serviceId, date)]
      ensures written ==> CurrentFilters() == Cleared()
      ensures !written ==> appointments == old(appointments) && CurrentFilters() == old(CurrentFilters())
      ensures UniqueIds(old(appointments)) ==> UniqueIds(appointments)
      ensures !isSyncing
      ensures selectedUser == old(selectedUser) && savedOrder == old(savedOrder)
      ensures draggedIndex == old(draggedIndex) && syncError == old(syncError)
    {
      var appointment := NewAppointment(services, freshId, serviceId, date);
      isSyncing := true;
      if written {
        AddBooking(appointment);
      }
      isSyncing := false;
    }

    /** The success path of a booking: the record goes to the end of the list
        and the filters are cleared so that it is shown. */
    method AddBooking(appointment: Appointment)
      requires appointment.id !in IdsOf(appointments)
      modifies this
      ensures appointments == old(appointments) + [appointment]
      ensures CurrentFilters() == Cleared()
      ensures UniqueIds(old(appointments)) ==> UniqueIds(appointments)
      ensures selectedUser == old(selectedUser) && savedOrder == old(savedOrder) && isSyncing == old(isSyncing)
      ensures draggedIndex == old(draggedIndex) && syncError == old(syncError)
    {
      if UniqueIds(appointments) {
        AppendFreshKeepsUniqueIds(appointments, appointment);
      }
      appointments := appointments + [appointment];
      ClearFilters();
    }

    /** `handleDragStart`, reached only from a draggable card: cards are
        draggable only while no filter is in use, and then the card at `index`
        of the shown list is picked up. */
    method StartDrag(index: nat)
      modifies this
      ensures draggedIndex == if old(IsFilteringNow()) then old(draggedIndex) else Some(index)
      ensures selectedUser == old(selectedUser) && appointments == old(appointments)
      ensures savedOrder == old(savedOrder) && isSyncing == old(isSyncing)
      ensures syncError == old(syncError) && CurrentFilters() == old(CurrentFilters())
    {
      if !IsFilteringNow() {
        draggedIndex := Some(index);
      }
    }

    /** The drop is ignored when nothing is being dragged or when the card is
        dropped on itself. A drop target stays live while filtering, so an
        index left over from an earlier drag can still be dropped. */
    predicate DropIgnored(targetIndex: nat)
      reads this
    {
      draggedIndex.None? || draggedIndex.value == targetIndex
    }

    /** `handleDrop`: the dragged card moves to `targetIndex` in the shown
        list, the ids of that list become the saved order, and the working set
        is re-sorted by it. */
    method Drop(targetIndex: nat, now: int)
      requires !DropIgnored(targetIndex) ==>
                 draggedIndex.value < |UpcomingAppointments(now)| && targetIndex < |UpcomingAppointments(now)|
      modifies this
      ensures old(DropIgnored(targetIndex)) ==>
                appointments == old(appointments) && savedOrder == old(savedOrder) && draggedIndex == old(draggedIndex)
      ensures !old(DropIgnored(targetIndex)) ==>
                var moved := Moved(old(UpcomingAppointments(now)), old(draggedIndex.value), targetIndex);
                && savedOrder == SavedIds(IdsOf(moved))
                && appointments == ReorderAll(old(appointments), IdsOf(moved))
                && multiset(appointments) == multiset(old(appointments))
                && draggedIndex == None
                && (UniqueIds(old(appointments)) ==>
                      appointments == moved + ByDate(Hidden(old(appointments), old(CurrentFilters()), now)))
                && (UniqueIds(old(appointments)) && !old(IsFilteringNow()) ==>
                      appointments == moved + ByDate(History(old(appointments), now)))
      ensures selectedUser == old(selectedUser) && isSyncing == old(isSyncing)
      ensures syncError == old(syncError) && CurrentFilters() == old(CurrentFilters())
    {
      if DropIgnored(targetIndex) {
        return;
      }
      MoveShown(draggedIndex.value, targetIndex, now);
    }

    /** The body of a drop that is not ignored: two splices on a copy of the
        shown list, then the saved order and the working set are rebuilt from
        it and the drag ends. */
    method MoveShown(from: nat, to: nat, now: int)
      requires from < |UpcomingAppointments(now)| && to < |UpcomingAppointments(now)|
      modifies this
      ensures var moved := Moved(old(UpcomingAppointments(now)), from, to);
              && savedOrder == SavedIds(IdsOf(moved))
              && appointments == ReorderAll(old(appointments), IdsOf(moved))
              && (UniqueIds(old(appointments)) ==>
                    appointments == moved + ByDate(Hidden(old(appointments), old(CurrentFilters()), now)))
              && (UniqueIds(old(appointments)) && !old(IsFilteringNow()) ==>
                    appointments == moved + ByDate(History(old(appointments), now)))
      ensures draggedIndex == None
      ensures selectedUser == old(selectedUser) && isSyncing == old(isSyncing)
      ensures syncError == old(syncError) && CurrentFilters() == old(CurrentFilters())
    {
      var shown := UpcomingAppointments(now);
      var item := shown[from];
      var updated := Splice(shown, from, 1, []);
      updated := Splice(updated, to, 0, [item]);
      MovedBySplices(shown, from, to);
      var order := IdsOf(updated);
      DropShapes(appointments, CurrentFilters(), now, from, to);
      savedOrder := SavedIds(order);
      appointments := ReorderAll(appointments, order);
      draggedIndex := None;
    }
  }
}
