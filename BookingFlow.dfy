/** The booking page of one station: station lookup, the date and slot the
    user has chosen, and the booking handler's guard chain. */
module BookingFlow {
  import opened Common
  import opened Backend
  import Decimal
  import Queries

  datatype StationInfo = StationInfo(name: string, location: string, ports: int)

  /** The page's own station table. */
  const Stations: map<StationId, StationInfo> := map[
    "1" := StationInfo("Downtown Charging Hub", "123 Main Street, City Center", 4),
    "2" := StationInfo("Green Valley Station", "456 Oak Avenue, Green Valley", 6),
    "3" := StationInfo("Tech Park Chargers", "789 Innovation Drive, Tech District", 8)]

  /** `STATIONS[stationId]`; `None` renders "Station not found" and no
      booking handler exists. */
  function LookupStation(stationId: StationId): (r: Option<StationInfo>)
    ensures r.Some? <==> stationId == "1" || stationId == "2" || stationId == "3"
    ensures r.Some? ==> r.value.ports > 0
  {
    if stationId in Stations then Some(Stations[stationId]) else None
  }

  /** A draw of `Math.random()`, in [0, 1), as the exact fraction num / den. */
  datatype Draw = Draw(num: nat, den: nat) {
    predicate Valid() { num < den }
  }

  lemma MulMonotone(d: int, q: int, k: int)
    requires d >= 0 && q >= k
    ensures d * q >= d * k
  {
    assert d * q - d * k == d * (q - k);
  }

  /** Euclidean division by `d` of a value below `d * k` stays below `k`. */
  lemma DivBelow(a: int, d: int, k: int)
    requires a >= 0 && d > 0 && a < d * k
    ensures 0 <= a / d < k
  {
    var q := a / d;
    assert a == d * q + a % d;
    if q >= k {
      MulMonotone(d, q, k);
    }
  }

  /** `Math.floor(Math.random() * station.ports)` */
  function PortNumber(r: Draw, ports: nat): (port: int)
    requires r.Valid()
    ensures ports > 0 ==> 0 <= port < ports
  {
    if ports > 0 then
      MulMonotone(ports, r.den, r.num + 1);
      DivBelow(r.num * ports, r.den, ports);
      (r.num * ports) / r.den
    else
      (r.num * ports) / r.den
  }

  /** Every port of a station is drawn for some value in [0, 1): the mapping
      does not skip ports. */
  lemma EveryPortReachable(ports: nat, p: nat)
    requires p < ports
    ensures PortNumber(Draw(p, ports), ports) == p
  {
    var a := p * ports;
    var q := a / ports;
    assert a == ports * q + a % ports;
    assert ports * (p - q) == a % ports;
    if p - q >= 1 {
      MulMonotone(ports, p - q, 1);
    } else if p - q <= -1 {
      MulMonotone(ports, -1, p - q);
    }
  }

  /** The booking summary's end, in ms:
      `new Date(Number(selectedSlot) / 1000000 + 1800000)`. */
  function SlotEndMs(startTime: Time): int {
    NsToMs(startTime + 1_800_000 * NsPerMs)
  }

  /** The displayed end lies 30 minutes after the displayed start; before the
      epoch the two truncations can differ by one millisecond. */
  lemma SlotEndIsHalfHourLater(startTime: Time)
    ensures startTime >= 0 ==> SlotEndMs(startTime) == NsToMs(startTime) + 1_800_000
    ensures 1_799_999 <= SlotEndMs(startTime) - NsToMs(startTime) <= 1_800_000
  {
    var e := startTime + 1_800_000 * NsPerMs;
    if startTime >= 0 {
      assert NsToMs(e) == e / NsPerMs;
      assert e / NsPerMs == startTime / NsPerMs + 1_800_000;
    }
  }

  /** `disabled` of the calendar: days before today's local midnight. */
  predicate DateDisabled(dateMs: int, midnightMs: int) {
    dateMs < midnightMs
  }

  /** The date the page opens with (the current instant) can be chosen, and
      so can every later one; the day before cannot. */
  lemma InitialDateSelectable(nowMs: int, midnightMs: int, laterMs: int)
    requires midnightMs <= nowMs <= laterMs
    ensures !DateDisabled(nowMs, midnightMs) && !DateDisabled(laterMs, midnightMs)
    ensures DateDisabled(midnightMs - 86_400_000, midnightMs)
  {
  }

  /** `!!selectedSlot`: a `bigint` in a boolean position, so the timestamp 0
      counts as no selection. */
  predicate SlotChosen(selectedSlot: Option<Time>) {
    selectedSlot.Some? && selectedSlot.value != 0
  }

  /** `disabled` of the confirm button. */
  predicate ConfirmDisabled(selectedSlot: Option<Time>, isPending: bool) {
    !SlotChosen(selectedSlot) || isPending
  }

  /** An enabled confirm button means a slot is chosen (`0n` included in
      "not chosen") and no booking is pending; `ConfirmThenBook` shows that the
      handler then gets past the slot check. */
  lemma ConfirmEnabledHasSlot(selectedSlot: Option<Time>, isPending: bool)
    ensures !ConfirmDisabled(selectedSlot, isPending) <==> SlotChosen(selectedSlot) && !isPending
  {
  }

  /** The page of one station. `calls`, `notices` and `loginRequests` record
      what its handlers did; `navigation` is the last route it went to. */
  class BookingPage {
    const stationId: StationId
    var selectedDate: int
    var selectedSlot: Option<Time>
    var calls: seq<Call>
    var notices: seq<Toast>
    var loginRequests: nat
    var navigation: Option<string>

    /** A fresh page opens on the current instant with no slot chosen. */
    constructor (stationId: StationId, nowMs: int)
      ensures this.stationId == stationId && selectedDate == nowMs && selectedSlot == None
      ensures calls == [] && notices == [] && loginRequests == 0 && navigation == None
    {
      this.stationId := stationId;
      selectedDate, selectedSlot := nowMs, None;
      calls, notices, loginRequests, navigation := [], [], 0, None;
    }

    /** The day the slot picker queries: `BigInt(selectedDate.getTime() * 1000000)`. */
    function QueryDate(): (d: Time)
      reads this
      ensures NsToMs(d) == selectedDate
    {
      MsToNs(selectedDate)
    }

    /** `onSelect` of the calendar: a new date clears the chosen slot; a
        cleared calendar (no date) changes nothing. The calendar offers no day
        before today's local midnight `midnightMs`, so a chosen date is never
        one of those, and a page that shows today or later keeps doing so. */
    method SelectDate(date: Option<int>, midnightMs: int)
      requires date.Some? ==> !DateDisabled(date.value, midnightMs)
      modifies this
      ensures date.Some? ==> selectedDate == date.value && selectedSlot == None && selectedDate >= midnightMs
      ensures old(selectedDate) >= midnightMs ==> selectedDate >= midnightMs
      ensures date.None? ==> selectedDate == old(selectedDate) && selectedSlot == old(selectedSlot)
      ensures calls == old(calls) && notices == old(notices)
      ensures loginRequests == old(loginRequests) && navigation == old(navigation)
    {
      if date.Some? {
        selectedDate := date.value;
        selectedSlot := None;
      }
    }

    /** `onSelectSlot` of the picker. */
    method SelectSlot(slot: Time)
      modifies this`selectedSlot
      ensures selectedSlot == Some(slot)
    {
      selectedSlot := Some(slot);
    }

    /** `handleBooking`: login first, then slot selection, then one booking
        mutation on a drawn port. Only defined once the station is known.
        `draw` is the random value, `remote` how `actor.bookSlot` settles. */
    method HandleBooking(isAuthenticated: bool, hasActor: bool, draw: Draw, remote: Result<BookingId>)
      requires LookupStation(stationId).Some?
      requires draw.Valid()
      modifies this`calls, this`notices, this`loginRequests, this`navigation
      ensures !isAuthenticated ==>
        && notices == old(notices) + [ToastError("Please login to book a slot")]
        && loginRequests == old(loginRequests) + 1
        && calls == old(calls) && navigation == old(navigation)
      ensures isAuthenticated && !SlotChosen(selectedSlot) ==>
        && notices == old(notices) + [ToastError("Please select a time slot")]
        && loginRequests == old(loginRequests)
        && calls == old(calls) && navigation == old(navigation)
      ensures isAuthenticated && SlotChosen(selectedSlot) ==>
        var port := PortNumber(draw, LookupStation(stationId).value.ports);
        var m := Queries.BookSlotMutation(hasActor, stationId, port, selectedSlot.value, remote);
        && 0 <= port < LookupStation(stationId).value.ports
        && calls == old(calls) + m.calls
        && loginRequests == old(loginRequests)
        && (m.result.Ok? ==>
              notices == old(notices) + [ToastSuccess("Booking confirmed!")]
              && navigation == Some("/booking-success/" + Decimal.ToDecimal(m.result.value)))
        && (m.result.Err? ==>
              notices == old(notices) + [ToastError(ErrorText(m.result.error, "Failed to book slot"))]
              && navigation == old(navigation))
    {
      if !isAuthenticated {
        notices := notices + [ToastError("Please login to book a slot")];
        loginRequests := loginRequests + 1;
        return;
      }
      if !SlotChosen(selectedSlot) {
        notices := notices + [ToastError("Please select a time slot")];
        return;
      }
      var station := LookupStation(stationId).value;
      var port := PortNumber(draw, station.ports);
      var m := Queries.BookSlotMutation(hasActor, stationId, port, selectedSlot.value, remote);
      calls := calls + m.calls;
      if m.result.Ok? {
        notices := notices + [ToastSuccess("Booking confirmed!")];
        navigation := Some("/booking-success/" + Decimal.ToDecimal(m.result.value));
      } else {
        notices := notices + [ToastError(ErrorText(m.result.error, "Failed to book slot"))];
      }
    }
  }

  /** A page opened at `nowMs`, on or after today's midnight, followed by one
      calendar change: the date it shows is never before today's midnight, and
      no slot survives a new date. */
  method OpenThenPick(stationId: StationId, nowMs: int, midnightMs: int, date: Option<int>)
    returns (page: BookingPage)
    requires midnightMs <= nowMs
    requires date.Some? ==> !DateDisabled(date.value, midnightMs)
    ensures page.selectedDate >= midnightMs && !DateDisabled(page.selectedDate, midnightMs)
    ensures page.selectedDate == (if date.Some? then date.value else nowMs)
    ensures page.selectedSlot == None
  {
    page := new BookingPage(stationId, nowMs);
    page.SelectDate(date, midnightMs);
  }

  /** A click on an enabled confirm button by a logged-in user with an actor:
      the handler passes both checks and issues exactly one booking call, for
      the chosen slot, on a port of the station; the selection is untouched. */
  method ConfirmThenBook(page: BookingPage, isPending: bool, draw: Draw, remote: Result<BookingId>)
    requires LookupStation(page.stationId).Some? && draw.Valid()
    requires !ConfirmDisabled(page.selectedSlot, isPending)
    modifies page
    ensures page.selectedSlot == old(page.selectedSlot) && page.selectedSlot.Some?
    ensures |page.calls| == |old(page.calls)| + 1
    ensures var c := page.calls[|page.calls| - 1];
      && c.BookSlot? && c.stationId == page.stationId
      && c.startTime == page.selectedSlot.value
      && 0 <= c.portNumber < LookupStation(page.stationId).value.ports
    ensures page.loginRequests == old(page.loginRequests)
  {
    page.HandleBooking(true, true, draw, remote);
  }

  /** A booking call made by the handler always names this station, the
      chosen slot, and a port inside the station's range. */
  lemma BookingCallInRange(stationId: StationId, draw: Draw, slot: Time, remote: Result<BookingId>)
    requires LookupStation(stationId).Some? && draw.Valid()
    ensures var ports := LookupStation(stationId).value.ports;
      var m := Queries.BookSlotMutation(true, stationId, PortNumber(draw, ports), slot, remote);
      |m.calls| == 1 && m.calls[0].BookSlot? && m.calls[0].stationId == stationId
      && m.calls[0].startTime == slot && 0 <= m.calls[0].portNumber < ports
  {
  }
}
