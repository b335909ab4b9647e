# EV charging slot booking — frontend decision logic in Dafny

The repository is a browser UI for booking 30-minute slots at electric-vehicle
charging stations. All storage and conflict rules live in a remote backend; the
frontend decides only a few things itself, and those are modelled here:

- **Slot de-duplication** (`TimeSlotPicker`): the backend may list the same
  start instant twice; the picker maps the instants to strings, puts them in a
  JS `Set`, and parses them back. The model follows that chain step by step
  (decimal printing and parsing of `bigint`s, an insertion-ordered set) and
  proves it equals plain value-level de-duplication in first-occurrence order,
  which is characterised uniquely by three properties. At most one slot button
  is selected.
- **Cancellation eligibility** (`BookingCard`): "more than one hour ahead" and
  "in the past", computed on the millisecond the browser derives from the
  nanosecond timestamp, the local refusal in the cancel handler, and the
  cancel controls.
- **Dashboard** (`Dashboard`): a stable ascending sort of a copy of the
  bookings and the upcoming/past split at one instant.
- **Station bootstrap** (`Stations`): probe station "1"; create the three demo
  stations on an empty answer, otherwise assume identifiers "1", "2", "3"; a
  class with the page's `stations` and `isInitializing` state.
- **Booking page** (`BookingFlow`): station lookup, the random port bound, the
  displayed slot end, the date-change reset, and the booking handler's guard
  chain, as a class over the page state.
- **Query layer** (`Queries`): cache keys, `enabled` predicates, query-function
  fallbacks, the "Actor not initialized" guard and which cached keys each
  successful mutation marks stale.

Backend timestamps are nanoseconds (`int`); `nowMs` is an integer millisecond
count: for a booking card it is the instant the card last rendered. Every remote call is a value of `Backend.Call`, and
how it settles is a parameter (`Common.Result`), so handlers are stated as
"which calls are issued, which notice is shown, what state results".
The model has no I/O: the clock, the local midnight, the random draw, login
state, actor availability and every backend answer are parameters.

A failed bootstrap still clears `isInitializing` in `finally`
(`src/frontend/src/pages/StationsPage.tsx:54-56`), so the spinner goes away
and the list stays as it was — empty on a first run.

Details of JavaScript semantics that are kept: a `Date` built from
`Number(ns) / 1000000` truncates toward zero (`Common.NsToMs`); `!selectedSlot`
is true for the timestamp `0n` as well as for `null` (`BookingFlow.SlotChosen`);
`!stationId` is true for the empty string (`Queries.Truthy`); an empty
station name falls back to `Station <id>` (`BookingCard.CardTitle`).

## Model

| member | source | states |
|---|---|---|
| `Common.NsToMs` | src/frontend/src/components/BookingCard.tsx:17 | the millisecond of a nanosecond timestamp is its truncation toward zero, with the bounds that defines for either sign |
| `Common.MsToNs` | src/frontend/src/components/TimeSlotPicker.tsx:14 | in exact arithmetic, converting a millisecond instant to nanoseconds and back gives it back (float rounding under Left out) |
| `Common.ErrorText` | src/frontend/src/components/BookingCard.tsx:34 | definition: the message of a thrown `Error`, else the fallback text; used by `BookingCard.HandleCancel` and `BookingFlow.BookingPage.HandleBooking` |
| `Common.NsToMsMonotone` | src/frontend/src/pages/DashboardPage.tsx:59-68 | truncating to milliseconds never reverses the order of two timestamps, so the ns-level sort and the ms-level split agree |
| `Decimal.ToDecimal` | src/frontend/src/components/TimeSlotPicker.tsx:35 | definition of `bigint.toString()`; properties in `Decimal.ParseToDecimal` and `Decimal.ToDecimalInjective` |
| `Decimal.ParseBigInt` | src/frontend/src/components/TimeSlotPicker.tsx:35 | definition of `BigInt(string)` on decimal text; properties in `Decimal.ParseToDecimal` |
| `Decimal.ParseToDecimal` | src/frontend/src/components/TimeSlotPicker.tsx:35 | `BigInt(n.toString())` is `n` for every integer |
| `Decimal.ToDecimalInjective` | src/frontend/src/components/TimeSlotPicker.tsx:47 | two integers print alike exactly when they are equal |
| `TimeSlotPicker.SetAdd` | src/frontend/src/components/TimeSlotPicker.tsx:35 | definition of `Set.add` on insertion-ordered contents; properties in `TimeSlotPicker.Dedup` and `TimeSlotPicker.DedupOrder` |
| `TimeSlotPicker.Dedup` | src/frontend/src/components/TimeSlotPicker.tsx:35 | the insertion-ordered set has no repeated value, holds exactly the raw values, and is no longer than the raw list |
| `TimeSlotPicker.DedupOrder` | src/frontend/src/components/TimeSlotPicker.tsx:35 | the de-duplicated list is ordered by first occurrence in the raw list |
| `TimeSlotPicker.DedupUnique` | src/frontend/src/components/TimeSlotPicker.tsx:35 | any list without repeats, with the raw values, in first-occurrence order, is the de-duplicated list |
| `TimeSlotPicker.DedupOfNoDup` | src/frontend/src/components/TimeSlotPicker.tsx:35 | a list without repeats is left unchanged |
| `TimeSlotPicker.DedupIdempotent` | src/frontend/src/components/TimeSlotPicker.tsx:35 | de-duplicating twice equals de-duplicating once |
| `TimeSlotPicker.DedupExamples` | src/frontend/src/components/TimeSlotPicker.tsx:35 | `[t1,t2,t1]` gives `[t1,t2]`, `[t,t,t]` gives `[t]`, `[]` gives `[]` |
| `TimeSlotPicker.ToStrings` | src/frontend/src/components/TimeSlotPicker.tsx:35 | one string per slot, in order; properties in `TimeSlotPicker.DedupToStrings` |
| `TimeSlotPicker.ParseAll` | src/frontend/src/components/TimeSlotPicker.tsx:35 | definition: parse every string or fail; properties in `TimeSlotPicker.ParseAllToStrings` |
| `TimeSlotPicker.DedupToStrings` | src/frontend/src/components/TimeSlotPicker.tsx:35 | de-duplicating the printed slots is printing the de-duplicated slots |
| `TimeSlotPicker.ParseAllToStrings` | src/frontend/src/components/TimeSlotPicker.tsx:35 | parsing the printed slots back never fails and returns them unchanged |
| `TimeSlotPicker.UniqueSlots` | src/frontend/src/components/TimeSlotPicker.tsx:35 | the whole string/`Set`/`BigInt` chain succeeds and equals value-level de-duplication |
| `TimeSlotPicker.IsSelected` | src/frontend/src/components/TimeSlotPicker.tsx:47 | definition of the string comparison; properties in `TimeSlotPicker.IsSelectedIff` |
| `TimeSlotPicker.IsSelectedIff` | src/frontend/src/components/TimeSlotPicker.tsx:47 | the string comparison selects a slot exactly when it equals the selected slot; no selection selects nothing |
| `TimeSlotPicker.Buttons` | src/frontend/src/components/TimeSlotPicker.tsx:45-47 | definition: one button per slot, marked selected by `IsSelected`; properties in `TimeSlotPicker.Picker` |
| `TimeSlotPicker.Picker` | src/frontend/src/components/TimeSlotPicker.tsx:17-66 | spinner exactly while loading; "No available slots" exactly for an absent or empty list; otherwise a non-empty grid with one button per de-duplicated slot in order, a button selected iff it is the selected slot, and at most one selected |
| `Queries.AvailableSlotsKey` | src/frontend/src/hooks/useQueries.ts:9 | definition of the key; properties in `Queries.AvailableSlotsKeyInjective` |
| `Queries.Truthy` | src/frontend/src/hooks/useQueries.ts:11-14 | definition of `!!stationId`: the empty string is falsy; used in `Queries.AvailableSlotsFallback` |
| `Queries.AvailableSlotsEnabled` | src/frontend/src/hooks/useQueries.ts:14 | definition of `enabled`; properties in `Queries.AvailableSlotsEnabledFetches` |
| `Queries.MyBookingsEnabled` | src/frontend/src/hooks/useQueries.ts:27 | definition of `enabled`; properties in `Queries.MyBookingsEnabledFetches` |
| `Queries.AvailableSlotsQueryFn` | src/frontend/src/hooks/useQueries.ts:10-13 | definition of `queryFn`; properties in `Queries.AvailableSlotsFallback` and `Queries.AvailableSlotsEnabledFetches` |
| `Queries.MyBookingsQueryFn` | src/frontend/src/hooks/useQueries.ts:23-26 | definition of `queryFn`; properties in `Queries.MyBookingsEnabledFetches` |
| `Queries.BookSlotMutation` | src/frontend/src/hooks/useQueries.ts:31-53 | definition of `useBookSlot`; properties in `Queries.MutationGuards` and `Queries.BookAndCancelInvalidate` |
| `Queries.CancelBookingMutation` | src/frontend/src/hooks/useQueries.ts:55-69 | definition of `useCancelBooking`; properties in `Queries.MutationGuards` and `Queries.BookAndCancelInvalidate` |
| `Queries.AddStationMutation` | src/frontend/src/hooks/useQueries.ts:71-96 | definition of `useAddStation`; properties in `Queries.MutationGuards` and `Queries.AddStationInvalidates` |
| `Queries.Hits` | src/frontend/src/hooks/useQueries.ts:49-50 | definition: an invalidation filter matches the keys it is a prefix of; used by `Queries.Stale` |
| `Queries.Stale` | src/frontend/src/hooks/useQueries.ts:49-50 | definition: a key some filter matches; properties in `Queries.BookAndCancelInvalidate` and `Queries.AddStationInvalidates` |
| `Queries.AvailableSlotsKeyInjective` | src/frontend/src/hooks/useQueries.ts:9 | distinct station/day pairs get distinct available-slots keys |
| `Queries.AvailableSlotsFallback` | src/frontend/src/hooks/useQueries.ts:10-13 | the query function either answers `[]` without a call or makes the one remote call; it makes no call exactly when actor, station id or date is missing |
| `Queries.AvailableSlotsEnabledFetches` | src/frontend/src/hooks/useQueries.ts:9-14 | whenever the query is enabled, its function issues exactly one call for that station and day and passes the answer on |
| `Queries.MyBookingsEnabledFetches` | src/frontend/src/hooks/useQueries.ts:22-27 | an enabled my-bookings query issues one `getMyBookings` call; without an actor it answers `[]` with no call |
| `Queries.BookAndCancelInvalidate` | src/frontend/src/hooks/useQueries.ts:48-67 | after a successful booking or cancellation a cached key is stale exactly when it starts with `availableSlots` or `myBookings` |
| `Queries.BookInvalidatesReads` | src/frontend/src/hooks/useQueries.ts:48-51 | every available-slots key and the my-bookings key go stale after a booking, the stations key does not |
| `Queries.AddStationInvalidates` | src/frontend/src/hooks/useQueries.ts:92-94 | after a successful `addStation` a key is stale exactly when it starts with `stations` |
| `Queries.MutationGuards` | src/frontend/src/hooks/useQueries.ts:43-94 | with no actor every mutation rejects with "Actor not initialized", calls nothing and invalidates nothing; with one it makes its single call and passes the outcome on; only success invalidates |
| `BookingCard.CanCancel` | src/frontend/src/components/BookingCard.tsx:19-21 | definition of `canCancel`; properties in `BookingCard.CanCancelBoundary` and `BookingCard.CancelScenarios` |
| `BookingCard.IsPast` | src/frontend/src/components/BookingCard.tsx:22 | definition of `isPast`; properties in `BookingCard.CanCancelNotPast` |
| `BookingCard.Controls` | src/frontend/src/components/BookingCard.tsx:89-108 | definition of the cancel controls; properties in `BookingCard.ControlsMatchHandler` |
| `BookingCard.HandleCancel` | src/frontend/src/components/BookingCard.tsx:24-36 | definition of `handleCancel`; properties in `BookingCard.HandleCancelRefused` and `BookingCard.HandleCancelCalls` |
| `BookingCard.CardTitle` | src/frontend/src/components/BookingCard.tsx:45 | definition of the card title; properties in `Dashboard.CardTitleFallback` |
| `BookingCard.CanCancelBoundary` | src/frontend/src/components/BookingCard.tsx:17-21 | for start times at or after the epoch, cancellable exactly from the first nanosecond of the millisecond after now + 1 h; exactly 1 h ahead is not cancellable |
| `BookingCard.CancelScenarios` | src/frontend/src/components/BookingCard.tsx:20-22 | 2 h ahead is cancellable, 30 min ahead is not and is not past |
| `BookingCard.CanCancelNotPast` | src/frontend/src/components/BookingCard.tsx:21-22 | a cancellable booking is never past |
| `BookingCard.HandleCancelRefused` | src/frontend/src/components/BookingCard.tsx:24-28 | inside the cut-off the handler shows the refusal notice, calls nothing, invalidates nothing |
| `BookingCard.HandleCancelCalls` | src/frontend/src/components/BookingCard.tsx:30-35 | outside the cut-off, with an actor: exactly one cancel call with this booking's id, success notice iff the call succeeds, else the error's text; without an actor: no call and the notice "Actor not initialized" |
| `BookingCard.ControlsMatchHandler` | src/frontend/src/components/BookingCard.tsx:89-107 | controls shown iff not past; warning iff not past and not cancellable; disabled iff not cancellable or pending; a click reaches the backend only through a visible, enabled button |
| `Dashboard.InsertByStart` | src/frontend/src/pages/DashboardPage.tsx:59-61 | inserting into a sorted list keeps it sorted, adds exactly that booking, and adds nothing else |
| `Dashboard.SortByStart` | src/frontend/src/pages/DashboardPage.tsx:59-61 | the sorted copy is ascending by start time and a permutation of the bookings |
| `Dashboard.SortStable` | src/frontend/src/pages/DashboardPage.tsx:59-61 | bookings with equal start times keep their input order |
| `Dashboard.Upcoming` | src/frontend/src/pages/DashboardPage.tsx:63-65 | definition of the upcoming filter; properties in `Dashboard.SplitMembers`, `Dashboard.PartitionExact`, `Dashboard.UpcomingSorted` |
| `Dashboard.Past` | src/frontend/src/pages/DashboardPage.tsx:66-68 | definition of the past filter; properties in `Dashboard.SplitMembers`, `Dashboard.PartitionExact`, `Dashboard.PastSorted` |
| `Dashboard.SplitMembers` | src/frontend/src/pages/DashboardPage.tsx:63-68 | every upcoming booking is from the list and not past; every past booking is from the list and past |
| `Dashboard.PartitionExact` | src/frontend/src/pages/DashboardPage.tsx:63-68 | the two lists are disjoint and together hold every booking exactly as often as the input |
| `Dashboard.UpcomingSorted` | src/frontend/src/pages/DashboardPage.tsx:63-65 | the upcoming list stays ascending |
| `Dashboard.PastSorted` | src/frontend/src/pages/DashboardPage.tsx:66-68 | the past list stays ascending |
| `Dashboard.PastBeforeUpcoming` | src/frontend/src/pages/DashboardPage.tsx:59-68 | every past booking starts before every upcoming one |
| `Dashboard.PartitionIsCut` | src/frontend/src/pages/DashboardPage.tsx:59-68 | on the sorted list, past followed by upcoming is the whole list |
| `Dashboard.StationName` | src/frontend/src/pages/DashboardPage.tsx:107 | definition of the name lookup; properties in `Dashboard.CardTitleFallback` and `Stations.StationTablesAgree` |
| `Dashboard.CardTitleFallback` | src/frontend/src/pages/DashboardPage.tsx:106-113 | an id outside "1"/"2"/"3" has no name and its card reads `Station <id>`; id "2" shows "Green Valley Station" |
| `Dashboard.View` | src/frontend/src/pages/DashboardPage.tsx:29-86 | login notice iff not authenticated; spinner iff authenticated and loading; "No Bookings Yet" iff authenticated, loaded and no bookings; lists iff authenticated, loaded and some bookings, and then ascending upcoming/past lists that cut the sorted list and partition the bookings |
| `Stations.Today` | src/frontend/src/pages/StationsPage.tsx:22 | definition of `today`; `Stations.BootstrapCallShape` states that it converts back to the local midnight |
| `Stations.Bootstrap` | src/frontend/src/pages/StationsPage.tsx:28-56 | definition of one run after the actor check; properties in `Stations.BootstrapCallShape`, `Stations.BootstrapFresh`, `Stations.BootstrapExisting`, `Stations.BootstrapFailure`, `Stations.BootstrapStopsAtFailure` |
| `Stations.BootstrapCallShape` | src/frontend/src/pages/StationsPage.tsx:30-36 | the first call probes station "1" at today's local midnight in ns (which converts back to that midnight); the rest is a prefix of the three creations in order; no creation after a failed or non-empty probe |
| `Stations.BootstrapFresh` | src/frontend/src/pages/StationsPage.tsx:32-42 | an empty probe with successful creations makes exactly the three `addStation` calls (4,6,22), (6,0,24), (8,7,20) and lists the returned ids in creation order |
| `Stations.BootstrapExisting` | src/frontend/src/pages/StationsPage.tsx:43-49 | a non-empty probe creates nothing and lists ids "1", "2", "3" with the same metadata as a fresh start |
| `Stations.BootstrapFailure` | src/frontend/src/pages/StationsPage.tsx:51-53 | the list is left unset iff the probe or a creation rejects, and exactly then the failure notice is shown |
| `Stations.BootstrapStopsAtFailure` | src/frontend/src/pages/StationsPage.tsx:34-36 | a rejected creation stops the later ones |
| `Stations.StationsPage.constructor` | src/frontend/src/pages/StationsPage.tsx:19-20 | the page starts with no stations and the spinner on |
| `Stations.StationsPage.ShowsSpinner` | src/frontend/src/pages/StationsPage.tsx:62 | definition: the spinner shows while `isInitializing`; properties in `Stations.StationsPage.InitializeStations` and `Stations.FirstRunFailure` |
| `Stations.StationsPage.InitializeStations` | src/frontend/src/pages/StationsPage.tsx:25-57 | without an actor nothing changes (spinner stays); otherwise calls, list and notices follow the bootstrap run and `isInitializing` is cleared on every path |
| `Stations.FirstRunFailure` | src/frontend/src/pages/StationsPage.tsx:19-56 | on a first run, a failed bootstrap leaves the list empty and removes the spinner |
| `Stations.SlotCount` | src/frontend/src/pages/StationsPage.tsx:128 | the card's count is 0 without data, else the raw slot count, never below the picker's button count |
| `Stations.StationTablesAgree` | src/frontend/src/pages/BookingPage.tsx:13-17 | the three hard-coded station tables agree on name, location and ports under ids "1"–"3" |
| `Stations.FreshIdsReachBookingPage` | src/frontend/src/pages/StationsPage.tsx:38-42 | after a fresh start a listed station is bookable iff the backend returned one of "1", "2", "3" as its id |
| `BookingFlow.LookupStation` | src/frontend/src/pages/BookingPage.tsx:28-44 | a station is found exactly for ids "1", "2", "3", and then has ports |
| `BookingFlow.PortNumber` | src/frontend/src/pages/BookingPage.tsx:59 | for every draw in [0,1) the port is in [0, ports) |
| `BookingFlow.EveryPortReachable` | src/frontend/src/pages/BookingPage.tsx:59 | every port in range is drawn for some value in [0,1) |
| `BookingFlow.SlotEndMs` | src/frontend/src/pages/BookingPage.tsx:161 | definition of the displayed end; properties in `BookingFlow.SlotEndIsHalfHourLater` |
| `BookingFlow.SlotEndIsHalfHourLater` | src/frontend/src/pages/BookingPage.tsx:157-164 | the displayed end is start + 1,800,000 ms (within one ms before the epoch) |
| `BookingFlow.DateDisabled` | src/frontend/src/pages/BookingPage.tsx:129 | definition of the calendar's `disabled`; properties in `BookingFlow.InitialDateSelectable` |
| `BookingFlow.InitialDateSelectable` | src/frontend/src/pages/BookingPage.tsx:129 | today and later dates can be chosen, the day before cannot |
| `BookingFlow.SlotChosen` | src/frontend/src/pages/BookingPage.tsx:53 | definition of `!!selectedSlot`; used by `BookingFlow.BookingPage.HandleBooking` and `BookingFlow.ConfirmDisabled` |
| `BookingFlow.ConfirmDisabled` | src/frontend/src/pages/BookingPage.tsx:177 | definition of the confirm button's `disabled`; properties in `BookingFlow.ConfirmEnabledHasSlot` |
| `BookingFlow.ConfirmEnabledHasSlot` | src/frontend/src/pages/BookingPage.tsx:177 | the confirm button is enabled exactly when a slot is chosen (the timestamp `0n` counts as none) and no booking is pending |
| `BookingFlow.BookingPage.constructor` | src/frontend/src/pages/BookingPage.tsx:25-26 | the page opens on the current instant with no slot chosen |
| `BookingFlow.BookingPage.QueryDate` | src/frontend/src/components/TimeSlotPicker.tsx:14 | the picker's query day is the selected date in nanoseconds |
| `BookingFlow.BookingPage.SelectDate` | src/frontend/src/pages/BookingPage.tsx:123-129 | a new date, which the calendar only offers from today's midnight on, is stored and clears the slot, so the selected date is never before today's midnight once it is not; no date changes nothing |
| `BookingFlow.BookingPage.SelectSlot` | src/frontend/src/pages/BookingPage.tsx:142 | choosing a slot stores it |
| `BookingFlow.BookingPage.HandleBooking` | src/frontend/src/pages/BookingPage.tsx:46-71 | not logged in: notice and one login request, no call; no slot: notice, no call; else the booking mutation on a port in range, success notice and navigation to the booking's page, or the error's text |
| `BookingFlow.OpenThenPick` | src/frontend/src/pages/BookingPage.tsx:123-129 | a page opened on or after today's midnight shows, after a calendar change, the picked date or the opening instant, never a day before today, with no slot chosen |
| `BookingFlow.ConfirmThenBook` | src/frontend/src/pages/BookingPage.tsx:46-71 | a click on an enabled confirm button, logged in and with an actor, passes both checks and issues exactly one booking call for the chosen slot on a port of the station, leaving the selection as it was |
| `BookingFlow.BookingCallInRange` | src/frontend/src/pages/BookingPage.tsx:59-64 | a booking call names this station, the chosen slot and a port in range |

## Left out

- Presentation: layout, styling, icons, the "Completed" badge and dimming of past cards, `toLocaleDateString`/`toLocaleTimeString` formatting, and the components that only present (`Layout.tsx`, `StationCard.tsx`, `BookingSuccessPage.tsx`).
- Routing (`App.tsx`): a route table handed to a foreign router. Navigation is recorded only as the target path.
- The backend: slot availability, conflict checks and server-side cancellation refusal. Every backend answer is a parameter.
- The query library: request coalescing, caching, refetching, loading flags and the details of its key matching. `Queries.Hits` renders only its prefix match on array keys. That is enough to say which keys go stale.
- The identity provider: only a boolean "authenticated" is kept. The dashboard's automatic `login()` effect is left out with it.
- React scheduling: when `useEffect` re-runs `initializeStations`, and results that arrive after unmounting. Each run is one call of `InitializeStations`. Concurrent mutations are left out as well.
- `console.error` in the bootstrap's `catch`.
- NsToMs: ignores the rounding of `Number(ns)` for timestamps above 2^53, because that is floating point. The model truncates the exact quotient.
- MsToNs / BookingFlow.BookingPage.QueryDate: compute `getTime() * 1000000` exactly, while the source multiplies floats; above 2^53 the product rounds to the nearest double (a multiple of 256 ns for present-day instants), so for some instants (for example 1700000000002 ms) the result converts back one millisecond earlier. Local midnights are whole minutes and come out exact, but the opening instant of `BookingFlow.BookingPage.QueryDate` (the page starts on `new Date()`) can be affected there.
- NsToMs: does not model the `Date` range. A `Date` beyond ±8.64e15 ms is invalid and every comparison on it is false, so the source shows such a booking as neither cancellable nor past and puts it in neither dashboard list. The model treats every timestamp as a valid instant, so `Dashboard.PartitionExact` holds only for start times inside that range.
- BookingFlow.LookupStation: treats every id other than "1", "2", "3" as unknown. The source reads a plain object, so ids that name inherited members (`constructor`, `toString`, `__proto__`, …) find a truthy value: the page renders a station named after an object-prototype member, and the port draw then throws, which the handler shows as an error notice.
- Dashboard.StationName / Dashboard.CardTitleFallback: treat ids that name inherited object members as unknown. The source finds such a member, so a booking whose station id is `constructor` gets the title "Object" rather than `Station constructor`.
- BookingCard.HandleCancel: judges a click by the instant of the card's last render, as the source does, not by the instant of the click; the model does not track re-renders. The card's `isPast` also reads its own clock, which can differ from the instant of the dashboard's split.
- SortByStart: compares start times as exact integers. The comparator `Number(a) - Number(b)` can treat timestamps that differ by less than float precision as equal.
- Dashboard.View: uses one instant `nowMs` for both filters. The code calls `new Date()` once per comparison, so the two filters can read different instants.
- BookingFlow.PortNumber: `Math.random()` is an abstract fraction in [0,1). Its distribution is not modelled.
- Decimal.ParseBigInt: accepts only an optional minus sign followed by digits. The other strings `BigInt` accepts (whitespace, `+`, hex, the empty string) are never produced by `toString`.
