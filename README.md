# Client portal: appointment ordering and calendar import

This project models the core of a single-page booking portal. In the portal a
visitor picks a clinic calendar and sees its upcoming appointments. The visitor
can filter the cards, drag them into a personal order, and request a booking.
The model covers four parts:

- the appointment **working set** held by the page (`App.tsx`), as the class
  `Portal.PortalState`. Its fields are the page state: the selected calendar,
  the appointments, the saved order (what the page persists locally), the
  index of the card being dragged, the syncing flag, the error message and the
  three filters. Each handler is a method that updates those fields;
- the **saved-order sort** that runs on every refresh, and the **drop
  re-sort** that runs after a drag (`Ordering`). Both are built on a stable
  sort by a rank key (`Sorting`), which is how a JavaScript
  `Array.prototype.sort` with those comparators behaves;
- the **filters** and the **upcoming / history split** (`Filtering`);
- the **event normaliser** that turns a provider calendar event into an
  appointment, the guard and mapping of the event listing, and the record the
  simulated write hands back (`CalendarService`).

The data types of `types.ts` are in `Types`. The constants of `constants.ts`
are in `Catalog`. `Seqs` and `Text` hold list filtering, first-match search
and substring search. `Scenarios` works small examples through the ordering
engine.

Representation choices:

- A date is a `DateTime(iso, instant)` pair. The raw ISO string is what the
  date filter matches by prefix. The instant is an integer count of local
  milliseconds, which the drop re-sort and the upcoming split use; the
  saved-order sort ignores it. The calendar day
  of an instant is `instant / 86_400_000`.
- The persisted order is a `StoredOrder`: nothing stored, a stored value that
  does not parse, or a list of ids.
- Prices are held in cents.
- Every input from outside the page's own logic is a parameter:
  - the outcome of the provider read;
  - whether the simulated write resolved;
  - the random booking id;
  - the current time.

## Model

| member | source | states |
|---|---|---|
| Types.StatusValueInjective | types.ts:1-6 | distinct statuses have distinct stored values, and equal values mean equal statuses |
| Types.StatusValues | types.ts:1-6 | every status is one of exactly four values: Confirmado, Pendente, Cancelado, Concluído |
| Types.StartOfDay | App.tsx:218-225 | the start of the day of an instant lies at most one day before it, on the same calendar day |
| Types.StatusValue | types.ts:1-6 | the string each status is stored and filtered as |
| Types.IdsOf | App.tsx:186 | the id list of appointments has one entry per appointment, in the same order |
| Types.AppendFreshKeepsUniqueIds | App.tsx:126-143 | appending an appointment with an id that is not present keeps the ids distinct |
| Catalog.CatalogShape | constants.ts:3-32 | the catalog has four services with ids s1–s4 in that order, distinct ids, positive durations, non-negative prices and non-empty names |
| Catalog.CalendarsShape | constants.ts:41-66 | there are three calendars with distinct ids cal_001–cal_003, each with a non-empty calendar id |
| Catalog.InitialAppointmentsEmpty | constants.ts:70 | the initial appointment list is empty |
| Seqs.Select | App.tsx:210-225 | `filter` keeps exactly the elements that satisfy the predicate and is never longer than its input |
| Seqs.SelectIsSubsequence | App.tsx:210-225 | `filter` returns an order-preserving subsequence of its input |
| Seqs.SelectAppend | App.tsx:210-225 | filtering a concatenation is the concatenation of the filtered parts |
| Seqs.SelectCount | App.tsx:210-225 | each element occurs in the filtered list as often as in the input if it satisfies the predicate, else not at all |
| Seqs.SelectCounts | App.tsx:210-225 | the count of every element at once: as in the input when it satisfies the predicate, zero otherwise |
| Seqs.SelectSameMultiset | App.tsx:210-225 | filtering two permutations of each other gives permutations of each other |
| Seqs.SelectPartition | App.tsx:210-225 | an element filter and its complement together hold every element of the input exactly once |
| Seqs.SelectSelect | App.tsx:210-225 | filtering twice is filtering once by the conjunction |
| Seqs.SelectAll | App.tsx:210-225 | a filter every element passes returns the input |
| Seqs.SelectNone | App.tsx:210-225 | a filter no element passes returns the empty list |
| Seqs.FindFirst | services/calendarService.ts:50 | `find` returns the first element that satisfies the predicate, or nothing when none does |
| Text.Contains | services/calendarService.ts:50 | `includes`: the text is a prefix of the string or of one of its suffixes |
| Text.ContainsIffOccurs | services/calendarService.ts:50 | `includes` holds exactly when the text occurs at some position of the string |
| Sorting.NotAfterIsTotalOrder | App.tsx:67-82 | the comparator order on ranks is reflexive, total, transitive and antisymmetric, so the sort is well defined |
| Sorting.Insert | App.tsx:67-82 | inserting into a sorted list adds exactly that element and keeps the list sorted |
| Sorting.SortBy | App.tsx:67-82 | the stable sort returns a sorted permutation of its input |
| Sorting.SortByStable | App.tsx:67-82 | elements of equal rank keep their input order (the sort is stable) |
| Sorting.SortBySorted | App.tsx:67-82 | sorting a list that is already sorted returns it unchanged |
| Sorting.SortByIdempotent | App.tsx:67-82 | sorting twice is sorting once |
| Sorting.SortedUnique | App.tsx:67-82 | two sorted permutations of each other that agree on the order within each rank are equal |
| Sorting.SortByCharacterized | App.tsx:67-82 | any sorted permutation that keeps the input order within each rank is the result of the sort |
| Ordering.LastIndexOf | App.tsx:65 | the rank map built from the saved ids keeps the last position of a repeated id |
| Ordering.FirstIndexOf | App.tsx:195-196 | `indexOf` returns the first position of the id |
| Ordering.SavedRank | App.tsx:65-82 | the comparator of the saved-order sort as a key: a saved id ranks by its last saved position, any other id ranks after every saved one and ties with the rest |
| Ordering.ApplySavedOrder | App.tsx:57-87 | with no saved order, or one that does not parse, the list is returned unchanged; otherwise the result is a permutation of the input |
| Ordering.ApplySavedOrderRankedFirst | App.tsx:67-82 | every appointment with a saved position comes before every one without, and saved positions ascend |
| Ordering.ApplySavedOrderKeepsUnrankedOrder | App.tsx:76-81 | appointments without a saved position keep their input order among themselves |
| Ordering.ApplySavedOrderIdempotent | App.tsx:57-87 | applying the saved order to its own result changes nothing |
| Ordering.SavedOrderRestoresList | App.tsx:57-96 | the ids of a list with distinct ids, saved and applied to any permutation of that list, restore the list exactly |
| Ordering.Splice | App.tsx:174-176 | `splice` changes the length by the inserted count minus the deleted count |
| Ordering.Moved | App.tsx:170-176 | the moved list has the input's length, and each position holds the element the single-element move puts there |
| Ordering.MovedBySplices | App.tsx:170-176 | removing the dragged element and inserting it at the target, with two splices, is that single-element move |
| Ordering.MovedIsPermutation | App.tsx:170-176 | the move is a permutation of the shown list |
| Ordering.MovedKeepsOthersInOrder | App.tsx:170-176 | the dragged element lands at the target index, and the others keep their order |
| Ordering.MovedInPlace | App.tsx:166 | moving an element onto its own index changes nothing |
| Ordering.MovedKeepsUniqueIds | App.tsx:170-176 | the move keeps the ids distinct |
| Ordering.DropRank | App.tsx:194-203 | the comparator of the drop re-sort as a key: an id in the new order ranks by its first position there, any other id ranks after them by its instant |
| Ordering.ReorderAll | App.tsx:194-203 | the re-sort after a drop is a permutation of the working set |
| Ordering.ByDate | App.tsx:201-202 | the date sort is a permutation of its input in ascending instant |
| Ordering.ReorderAllShape | App.tsx:194-203 | in the re-sort, appointments whose ids are in the new order come first, in that order; the others follow in ascending instant |
| Ordering.SelectKeepsUniqueIds | App.tsx:210-225 | filtering keeps the ids distinct |
| Ordering.SameIdSameItem | App.tsx:194-203 | with distinct ids, two members that share an id are the same appointment |
| Ordering.PositionOfUniqueId | App.tsx:186-196 | with distinct ids, `indexOf` of an element's id is that element's own position |
| Ordering.MovedVisibleIds | App.tsx:182-196 | an appointment's id is in the new order exactly when the appointment is shown |
| Ordering.DropOrderShape | App.tsx:165-207 | with distinct ids, the re-sorted working set is the moved shown list followed by the hidden appointments in ascending instant |
| Filtering.Cleared | App.tsx:114-118 | the filter inputs after clearing: an empty date and "all" for status and service |
| Filtering.DateMatches | App.tsx:211 | `matchesDate`: an empty date filter passes everything; otherwise the date string must start with the filter |
| Filtering.StatusMatches | App.tsx:212 | `matchesStatus`: "all" passes everything; otherwise the status's stored string must equal the filter |
| Filtering.ServiceMatches | App.tsx:213 | `matchesService`: "all" passes everything; otherwise the service id must equal the filter |
| Filtering.Matches | App.tsx:210-215 | an appointment passes when its date string starts with the date filter, its status equals the status filter and its service equals the service filter, each test passing at its default |
| Filtering.IsFiltering | App.tsx:227 | filters are in use when any of the three differs from its default |
| Filtering.IsUpcoming | App.tsx:224 | an appointment is upcoming when it is at or after now, or on the calendar day of now |
| Filtering.Filtered | App.tsx:210-216 | the filtered list is an order-preserving subsequence holding exactly the appointments that pass the date, status and service tests |
| Filtering.FilteredCounts | App.tsx:210-216 | each appointment occurs in the filtered list as often as in the working set when it passes, and never otherwise |
| Filtering.Upcoming | App.tsx:218-225 | the upcoming list is an order-preserving subsequence holding exactly the appointments that are at or after now, or on today's calendar day |
| Filtering.UpcomingCounts | App.tsx:218-225 | each appointment occurs in the upcoming list as often as in its input when it is upcoming, and never otherwise |
| Filtering.History | App.tsx:182-183 | an order-preserving subsequence holding exactly the appointments that are not upcoming |
| Filtering.HistoryCounts | App.tsx:182-183 | each appointment that is not upcoming occurs in the history as often as in the list; upcoming ones never |
| Filtering.Hidden | App.tsx:182-194 | the appointments a filtered dashboard does not show form an order-preserving subsequence holding exactly those that fail the filters or are not upcoming |
| Filtering.HiddenCounts | App.tsx:182-194 | each appointment the dashboard hides occurs there as often as in the list; shown ones never |
| Filtering.HiddenWithoutFilters | App.tsx:182-194 | with no filter in use, the hidden appointments are exactly the history |
| Filtering.UpcomingHistoryPartition | App.tsx:182-183 | every appointment is upcoming or history, and never both |
| Filtering.IsFilteringIffNotCleared | App.tsx:227 | filters are not in use exactly when all three are at their defaults |
| Filtering.ClearedKeepsAll | App.tsx:114-118 | with cleared filters every appointment passes, so the filtered list is the whole working set |
| Filtering.StatusFilterSelectsStatus | App.tsx:212 | a status filter set to a status's value passes exactly the appointments with that status |
| Filtering.DateFilterByPrefix | App.tsx:211 | a date filter passes every appointment whose date string starts with it |
| Filtering.DateFilterRejectsOtherDay | App.tsx:211 | a non-empty date filter rejects every date string that starts with a different string of its length, such as another day |
| Filtering.UpcomingSinceStartOfDay | App.tsx:218-225 | an appointment is upcoming exactly when it is no earlier than the start of today |
| Filtering.FilterThenUpcoming | App.tsx:210-225 | filtering and the upcoming split commute, and together are one filter by the conjunction |
| CalendarService.MapStatus | services/calendarService.ts:52-55 | tentative maps to pending, cancelled to cancelled, confirmed to confirmed, and nothing to completed |
| CalendarService.Names | services/calendarService.ts:50 | the predicate given to `find`: the summary is non-empty and contains the service's name |
| CalendarService.MatchService | services/calendarService.ts:50 | the match is the first service, in catalog order, whose name the non-empty summary contains; an empty summary matches nothing |
| CalendarService.Present | services/calendarService.ts:62 | JavaScript truthiness of an optional date string: present and non-empty |
| CalendarService.EventDate | services/calendarService.ts:62 | the date is the timed start if present, else the all-day date if present, else now |
| CalendarService.ConvertEvent | services/calendarService.ts:49-66 | id and provider id are the event id; the status is mapped; the title is the summary, or "Ocupado" when it is empty; the notes are the description, or "" when there is none; the date follows the fallback chain; the service is the first catalog service the summary names, or "external" when none is named |
| CalendarService.ConvertEventServiceIds | services/calendarService.ts:49-66 | against the catalog, an imported event's service id is s1–s4 or "external" |
| CalendarService.Usable | services/calendarService.ts:69 | the client may read only when initialized and when its key does not contain the placeholder |
| CalendarService.ListUpcomingEvents | services/calendarService.ts:68-95 | when uninitialized or holding the placeholder key, the read yields no events; a failed call passes its error on; no items yield no events; otherwise each event maps one to one, in order |
| CalendarService.ListUpcomingAsConfigured | services/calendarService.ts:11-11 | as configured, the key is the placeholder, so every read yields an empty list |
| CalendarService.CreateEventEcho | services/calendarService.ts:101-112 | the returned record is the one sent, marked pending, with the portal note appended to its notes (empty notes read as ""); nothing else changes |
| Portal.MessagesDistinct | App.tsx:99-107 | the four error messages differ from each other, and only the provider message starts with "Erro Google: " |
| Portal.HasMessage | App.tsx:105 | truthiness of the provider's error message: present and non-empty |
| Portal.SyncErrorMessage | App.tsx:97-108 | code 404 gives the not-found message, 403 the access-denied one, otherwise a present message gives "Erro Google: " followed by it, otherwise the generic message; each outcome happens exactly in its case |
| Portal.FindServiceById | App.tsx:122 | the lookup returns a catalog service with the requested id, and finds nothing exactly when no service has it |
| Portal.BookingTitle | App.tsx:128 | a known service gives "Pré-reserva: " followed by its name; an unknown one gives "Novo Agendamento" |
| Portal.NewAppointment | App.tsx:125-132 | the booking record has the fresh id, the chosen service and date, status pending, the fixed portal note and no provider id; its title is the one above |
| Portal.NewAppointmentTitles | App.tsx:122-128 | against the catalog, a booking for a listed service is titled after it, and one for any other id is titled "Novo Agendamento" |
| Portal.DropShape | App.tsx:165-207 | with distinct ids, the re-sort after a drop is the moved shown list followed by every hidden appointment in ascending instant, whatever the filters |
| Portal.DropShapes | App.tsx:165-207 | with distinct ids, the re-sort after a drop is the moved shown list then the hidden ones by date, and with no filter in use the hidden ones are the history |
| Portal.DropWithoutFilters | App.tsx:182-203 | with no filters in use and distinct ids, the re-sort after a drop is the moved upcoming list followed by the past appointments in ascending instant |
| Portal.PortalState.constructor | App.tsx:13-28 | the page starts with no calendar, no appointments, no drag, not syncing, no error and cleared filters |
| Portal.PortalState.SelectAccount | App.tsx:51-54 | choosing a calendar records it and clears the error; nothing else changes |
| Portal.PortalState.ClearFilters | App.tsx:114-118 | all three filters return to their defaults, so filtering is off and every appointment is shown; nothing else changes |
| Portal.PortalState.Logout | App.tsx:44-49 | logging out drops the calendar, empties the working set and clears the filters |
| Portal.PortalState.SetDateFilter | App.tsx:392 | only the date filter changes |
| Portal.PortalState.SetStatusFilter | App.tsx:400 | only the status filter changes |
| Portal.PortalState.SetServiceFilter | App.tsx:412 | only the service filter changes |
| Portal.PortalState.Refresh | App.tsx:89-112 | on success the working set becomes exactly the fetched events in saved order and the error is cleared; on failure the working set is kept and the error is classified; syncing ends either way |
| Portal.PortalState.NewBooking | App.tsx:121-154 | when the write resolves, exactly the new pending record is appended at the end and the filters are cleared; otherwise nothing changes; ids stay distinct; syncing ends |
| Portal.PortalState.AddBooking | App.tsx:140-148 | the record goes to the end of the list and the filters are cleared |
| Portal.PortalState.IsFilteringNow | App.tsx:227 | `isFiltering` on the page state: some filter input differs from its default |
| Portal.PortalState.FilteredAppointments | App.tsx:210-216 | `filteredAppointments` on the page state: the working set filtered by the three inputs |
| Portal.PortalState.UpcomingAppointments | App.tsx:210-225 | the shown list: the upcoming part of the filtered working set, which drag indices refer to |
| Portal.PortalState.StartDrag | App.tsx:456-463 | cards are draggable only while no filter is in use; starting a drag then records the card's index (App.tsx:157-159), and nothing else changes |
| Portal.PortalState.DropIgnored | App.tsx:166 | a drop is ignored when nothing is being dragged or the card is dropped on itself; the filters play no part |
| Portal.PortalState.Drop | App.tsx:165-207 | a drop with no drag, or onto the dragged card, changes nothing and keeps the drag; otherwise the saved order becomes the ids of the moved shown list, the working set is re-sorted by it (a permutation; with distinct ids, the moved list then the hidden ones by date, which without filters are the past ones) and the drag ends |
| Portal.PortalState.MoveShown | App.tsx:170-206 | two splices move the card, the ids of the result are saved, the working set is re-sorted by them into the moved list then the hidden ones by date (under distinct ids), and the drag ends |
| Scenarios.SavedOrderOverridesDate | App.tsx:57-96 | with ids y, x saved, a refresh that delivers x (tomorrow) before y (today) shows y first |
| Scenarios.DragThirdToFront | App.tsx:165-225 | dragging the third of three upcoming cards to the front shows c, a, b, saves their ids, and puts the past card after them |
| Scenarios.ExampleReorder | App.tsx:194-203 | the working set after that drop is c, a, b, then the past card |
| Scenarios.ExampleMove | App.tsx:170-186 | moving index 2 to 0 in a, b, c gives c, a, b, with those ids |
| Scenarios.ExampleSplit | App.tsx:218-225 | three upcoming cards followed by a past one split into the three and the one |
| Scenarios.DragExampleHypotheses | App.tsx:218-225 | three cards just after now and one five days before it have distinct ids; the three are upcoming, the last is not |

## Left out

- Rendering, view switching, `alert` calls and the drag-over handler are not modelled. They are presentation only.
- `localStorage` and JSON encoding are not modelled. The saved order is a state field, and a value that fails to parse is the `Malformed` case.
- `initGoogleServices`, the `gapiInited` flag and the provider HTTP call are not modelled; they are library I/O. The initialized flag and the provider's answer are parameters of `ListUpcomingEvents`, and `Refresh` takes the listing's outcome.
- Asynchrony is not modelled: `await`, the write's `setTimeout` delay, and refreshes racing each other. Each handler is modelled as if its awaited call had already settled.
- Portal.PortalState.NewBooking: appends to the current working set. The source appends to the list captured when the handler started, so a refresh that lands during the write would be overwritten. That effect of the stale closure is not modelled.
- Portal.PortalState.NewBooking: takes the service catalog as a parameter instead of reading the constant. `Portal.NewAppointmentTitles` states the titles for the actual catalog.
- Portal.PortalState.NewBooking: the random id is a `freshId` parameter that must not already be present. Random generation is not modelled.
- Portal.PortalState.Refresh: the intermediate `isSyncing == true` state, seen by the renderer while the read is pending, is not observable in the model.
- Portal.PortalState.Drop: requires the dragged and target indices to be indices of the shown list. A drag index left over from an earlier drag can exceed a list that filtering has since shortened; the source then moves `undefined` and fails when it reads its id. That failure is not modelled.
- Portal.PortalState.Drop: states the "moved list then history by date" shape only under distinct ids. With a repeated id, `indexOf` ranks both copies at the first position, and only the general precedence of `Ordering.ReorderAllShape` holds.
- Parsing dates, `toISOString`, `toDateString`, time zones and dates that do not parse (NaN) are not modelled. An instant is an integer of local milliseconds, and "same day" is equal integer day numbers.
- `services/geminiService.ts` and the components are not part of this model. They are a remote text-generation call and presentation.
- Provider event fields that the normaliser never reads (`end`, `timeZone`, `htmlLink`) are not modelled. Neither are the `service` and `calendarId` arguments of `createCalendarEvent`, which it ignores.
- The `calendarId` passed to the listing only selects what the provider returns. It is folded into the provider-outcome parameter.
- Behaviour of the source that a reader might not expect, which the model keeps:
  - A booking is appended only when the simulated write resolves (App.tsx:137-143). A rejected write leaves the working set as it was.
  - A successful refresh replaces the whole working set with the fetched events (App.tsx:95-96). Bookings made locally and unknown to the provider disappear.
  - In the saved-order sort, appointments without a saved position keep the order the provider delivered them in (App.tsx:81). They are not sorted by date, unlike the hidden appointments after a drop.
  - The saved order is one value shared by every calendar. It survives `SelectAccount` and `Logout` unchanged.
  - Filtering makes cards non-draggable but leaves them as drop targets (App.tsx:456-465). A drag index left by a drop onto its own card, or by a drag released off every card, can therefore still be dropped while filtering. The filtered shown list is then reordered, and only its ids are saved.
