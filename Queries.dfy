/** The query/cache hooks: the cache keys each read is stored under, when a
    read is enabled, what its query function does, and which cached reads a
    successful mutation marks stale. The cache itself (coalescing, storage,
    refetching) belongs to the query library and is not modelled. */
module Queries {
  import opened Common
  import opened Backend
  import Decimal

  /** One element of a query key; `Undefined` is what `date?.toString()`
      yields for a null date. */
  datatype KeyPart = Str(s: string) | Null | Undefined

  type QueryKey = seq<KeyPart>

  /** `['availableSlots', stationId, date?.toString()]` */
  function AvailableSlotsKey(stationId: Option<StationId>, date: Option<Time>): QueryKey {
    [ Str("availableSlots"),
      if stationId.Some? then Str(stationId.value) else Null,
      if date.Some? then Str(Decimal.ToDecimal(date.value)) else Undefined ]
  }

  const MyBookingsKey: QueryKey := [Str("myBookings")]
  const StationsKey: QueryKey := [Str("stations")]

  /** Different station/day pairs are cached under different keys, so one
      day's slots are never served for another. */
  lemma AvailableSlotsKeyInjective(s1: Option<StationId>, d1: Option<Time>, s2: Option<StationId>, d2: Option<Time>)
    ensures AvailableSlotsKey(s1, d1) == AvailableSlotsKey(s2, d2) <==> s1 == s2 && d1 == d2
  {
    if AvailableSlotsKey(s1, d1) == AvailableSlotsKey(s2, d2) {
      assert AvailableSlotsKey(s1, d1)[2] == AvailableSlotsKey(s2, d2)[2];
      if d1.Some? && d2.Some? {
        Decimal.ToDecimalInjective(d1.value, d2.value);
      }
    }
  }

  /** A JS string in a boolean position (`!!stationId`): null and the empty string are falsy. */
  predicate Truthy(s: Option<string>) {
    s.Some? && s.value != ""
  }

  /** `enabled` of the available-slots query. */
  predicate AvailableSlotsEnabled(hasActor: bool, isFetching: bool, stationId: Option<StationId>, date: Option<Time>) {
    hasActor && !isFetching && Truthy(stationId) && date.Some?
  }

  /** `enabled` of the my-bookings query. */
  predicate MyBookingsEnabled(hasActor: bool, isFetching: bool) {
    hasActor && !isFetching
  }

  /** What a query function did: the remote calls it issued and the value it settled with. */
  datatype Fetch<T> = Fetch(calls: seq<Call>, result: Result<T>)

  /** `queryFn` of the available-slots query; `remote` is how the call settles. */
  function AvailableSlotsQueryFn(hasActor: bool, stationId: Option<StationId>, date: Option<Time>,
                                 remote: Result<seq<Time>>): Fetch<seq<Time>>
  {
    if !hasActor || !Truthy(stationId) || date.None? then Fetch([], Ok([]))
    else Fetch([GetAvailableSlots(stationId.value, date.value)], remote)
  }

  /** `queryFn` of the my-bookings query. */
  function MyBookingsQueryFn(hasActor: bool, remote: Result<seq<Booking>>): Fetch<seq<Booking>> {
    if !hasActor then Fetch([], Ok([])) else Fetch([GetMyBookings], remote)
  }

  /** A prerequisite missing: the query function answers `[]` and calls nothing. */
  lemma AvailableSlotsFallback(hasActor: bool, stationId: Option<StationId>, date: Option<Time>, remote: Result<seq<Time>>)
    ensures var f := AvailableSlotsQueryFn(hasActor, stationId, date, remote);
      (f.calls == [] && f.result == Ok([])) || f.calls == [GetAvailableSlots(stationId.value, date.value)]
    ensures var f := AvailableSlotsQueryFn(hasActor, stationId, date, remote);
      f.calls == [] <==> !hasActor || stationId.None? || stationId.value == "" || date.None?
  {
  }

  /** Whenever the query is enabled its function really asks the backend,
      exactly once, for that station and day, and passes the answer on. */
  lemma AvailableSlotsEnabledFetches(hasActor: bool, isFetching: bool, stationId: Option<StationId>,
                                     date: Option<Time>, remote: Result<seq<Time>>)
    requires AvailableSlotsEnabled(hasActor, isFetching, stationId, date)
    ensures AvailableSlotsQueryFn(hasActor, stationId, date, remote)
      == Fetch([GetAvailableSlots(stationId.value, date.value)], remote)
  {
  }

  lemma MyBookingsEnabledFetches(hasActor: bool, isFetching: bool, remote: Result<seq<Booking>>)
    ensures MyBookingsEnabled(hasActor, isFetching) ==> MyBookingsQueryFn(hasActor, remote) == Fetch([GetMyBookings], remote)
    ensures !hasActor ==> MyBookingsQueryFn(hasActor, remote) == Fetch([], Ok([]))
  {
  }

  /** What a mutation did: the remote calls it issued, how `mutateAsync`
      settled, and the key filters passed to `invalidateQueries` afterwards. */
  datatype Mutation<T> = Mutation(calls: seq<Call>, result: Result<T>, invalidated: seq<QueryKey>)

  const ActorMissing: Failure := ErrorObject("Actor not initialized")

  /** `useBookSlot`: `remote` is how `actor.bookSlot` settles. */
  function BookSlotMutation(hasActor: bool, stationId: StationId, portNumber: int, startTime: Time,
                            remote: Result<BookingId>): Mutation<BookingId>
  {
    if !hasActor then Mutation([], Err(ActorMissing), [])
    else Mutation([BookSlot(stationId, portNumber, startTime)], remote,
                  if remote.Ok? then [[Str("availableSlots")], [Str("myBookings")]] else [])
  }

  /** `useCancelBooking` */
  function CancelBookingMutation(hasActor: bool, bookingId: BookingId, remote: Result<()>): Mutation<()> {
    if !hasActor then Mutation([], Err(ActorMissing), [])
    else Mutation([CancelBooking(bookingId)], remote,
                  if remote.Ok? then [[Str("availableSlots")], [Str("myBookings")]] else [])
  }

  /** `useAddStation` */
  function AddStationMutation(hasActor: bool, name: string, location: string, ports: int, openHour: int,
                              closeHour: int, remote: Result<StationId>): Mutation<StationId>
  {
    if !hasActor then Mutation([], Err(ActorMissing), [])
    else Mutation([AddStation(name, location, ports, openHour, closeHour)], remote,
                  if remote.Ok? then [StationsKey] else [])
  }

  /** A key filter hits every cached key it is a prefix of (the query
      library's default matching on array keys). */
  predicate Hits(filter: QueryKey, key: QueryKey) {
    |filter| <= |key| && key[..|filter|] == filter
  }

  predicate Stale(filters: seq<QueryKey>, key: QueryKey) {
    exists i :: 0 <= i < |filters| && Hits(filters[i], key)
  }

  /** A successful booking or cancellation marks stale exactly the cached
      reads whose key starts with `availableSlots` or `myBookings`: every
      station's and day's slots and the booking list, and nothing else. */
  lemma BookAndCancelInvalidate(stationId: StationId, portNumber: int, startTime: Time, bookingId: BookingId,
                                b: BookingId, key: QueryKey)
    requires |key| > 0
    ensures var m := BookSlotMutation(true, stationId, portNumber, startTime, Ok(b));
      Stale(m.invalidated, key) <==> key[0] == Str("availableSlots") || key[0] == Str("myBookings")
    ensures var m := CancelBookingMutation(true, bookingId, Ok(()));
      Stale(m.invalidated, key) <==> key[0] == Str("availableSlots") || key[0] == Str("myBookings")
  {
    var fs := [[Str("availableSlots")], [Str("myBookings")]];
    assert Hits(fs[0], key) <==> key[0] == Str("availableSlots");
    assert Hits(fs[1], key) <==> key[0] == Str("myBookings");
  }

  /** Concretely: every available-slots key and the my-bookings key go stale,
      the stations key does not. */
  lemma BookInvalidatesReads(stationId: StationId, portNumber: int, startTime: Time, b: BookingId,
                             s: Option<StationId>, d: Option<Time>)
    ensures var m := BookSlotMutation(true, stationId, portNumber, startTime, Ok(b));
      Stale(m.invalidated, AvailableSlotsKey(s, d)) && Stale(m.invalidated, MyBookingsKey)
      && !Stale(m.invalidated, StationsKey)
  {
    BookAndCancelInvalidate(stationId, portNumber, startTime, 0, b, AvailableSlotsKey(s, d));
    BookAndCancelInvalidate(stationId, portNumber, startTime, 0, b, MyBookingsKey);
    BookAndCancelInvalidate(stationId, portNumber, startTime, 0, b, StationsKey);
  }

  /** A successful `addStation` marks stale only keys starting with `stations`. */
  lemma AddStationInvalidates(name: string, location: string, ports: int, openHour: int, closeHour: int,
                              id: StationId, key: QueryKey)
    requires |key| > 0
    ensures var m := AddStationMutation(true, name, location, ports, openHour, closeHour, Ok(id));
      Stale(m.invalidated, key) <==> key[0] == Str("stations")
  {
    var fs := [StationsKey];
    assert Hits(fs[0], key) <==> key[0] == Str("stations");
  }

  /** Without an actor every mutation rejects with "Actor not initialized",
      calls nothing and invalidates nothing; a failed remote call invalidates
      nothing either and is passed on unchanged. */
  lemma MutationGuards(stationId: StationId, portNumber: int, startTime: Time, bookingId: BookingId,
                       name: string, location: string, ports: int, openHour: int, closeHour: int,
                       r1: Result<BookingId>, r2: Result<()>, r3: Result<StationId>, hasActor: bool)
    ensures var m := BookSlotMutation(hasActor, stationId, portNumber, startTime, r1);
      (!hasActor ==> m == Mutation([], Err(ErrorObject("Actor not initialized")), []))
      && (hasActor ==> m.calls == [BookSlot(stationId, portNumber, startTime)] && m.result == r1)
      && (m.invalidated != [] ==> m.result.Ok?)
    ensures var m := CancelBookingMutation(hasActor, bookingId, r2);
      (!hasActor ==> m == Mutation([], Err(ErrorObject("Actor not initialized")), []))
      && (hasActor ==> m.calls == [CancelBooking(bookingId)] && m.result == r2)
      && (m.invalidated != [] ==> m.result.Ok?)
    ensures var m := AddStationMutation(hasActor, name, location, ports, openHour, closeHour, r3);
      (!hasActor ==> m == Mutation([], Err(ErrorObject("Actor not initialized")), []))
      && (hasActor ==> m.calls == [AddStation(name, location, ports, openHour, closeHour)] && m.result == r3)
      && (m.invalidated != [] ==> m.result.Ok?)
  {
  }
}
