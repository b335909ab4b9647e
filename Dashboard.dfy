/** The my-bookings dashboard: a copy of the bookings sorted by start time,
    split into upcoming and past at one instant `nowMs`, and the station
    directory the cards take their names from. */
module Dashboard {
  import opened Common
  import opened Backend
  import BookingCard

  predicate SortedByStart(s: seq<Booking>) {
    forall i, j :: 0 <= i < j < |s| ==> s[i].startTime <= s[j].startTime
  }

  /** Places `b` before the first entry that does not start earlier, so among
      equal start times the earlier input stays first (the sort is stable). */
  function InsertByStart(b: Booking, s: seq<Booking>): (r: seq<Booking>)
    requires SortedByStart(s)
    ensures SortedByStart(r)
    ensures multiset(r) == multiset(s) + multiset{b}
    ensures forall x :: x in r ==> x == b || x in s
  {
    if s == [] then
      SortedCons(b, s);
      [b]
    else if b.startTime <= s[0].startTime then
      SortedHeadLeast(s);
      SortedCons(b, s);
      [b] + s
    else
      SortedTail(s);
      var rest := InsertByStart(b, s[1..]);
      InsertBehindHead(b, s, rest);
      [s[0]] + rest
  }

  /** The step of `InsertByStart` that keeps the head: `rest` is `b` inserted
      into the tail. */
  lemma InsertBehindHead(b: Booking, s: seq<Booking>, rest: seq<Booking>)
    requires SortedByStart(s) && s != [] && s[0].startTime < b.startTime
    requires SortedByStart(rest)
    requires multiset(rest) == multiset(s[1..]) + multiset{b}
    requires forall x :: x in rest ==> x == b || x in s[1..]
    ensures SortedByStart([s[0]] + rest)
    ensures multiset([s[0]] + rest) == multiset(s) + multiset{b}
    ensures forall x :: x in [s[0]] + rest ==> x == b || x in s
  {
    SortedHeadLeast(s);
    SortedCons(s[0], rest);
    assert s == [s[0]] + s[1..];
  }

  /** The first entry of a sorted list starts no later than any entry. */
  lemma SortedHeadLeast(s: seq<Booking>)
    requires SortedByStart(s) && s != []
    ensures forall x :: x in s ==> s[0].startTime <= x.startTime
  {
    forall x | x in s ensures s[0].startTime <= x.startTime {
      var i :| 0 <= i < |s| && s[i] == x;
    }
  }

  /** Putting an entry no later than all of a sorted list in front keeps it sorted. */
  lemma SortedCons(x: Booking, rest: seq<Booking>)
    requires SortedByStart(rest)
    requires forall y :: y in rest ==> x.startTime <= y.startTime
    ensures SortedByStart([x] + rest)
  {
    var s := [x] + rest;
    forall i, j | 0 <= i < j < |s| ensures s[i].startTime <= s[j].startTime {
      assert s[j] == rest[j - 1];
      if i > 0 {
        assert s[i] == rest[i - 1];
      }
    }
  }

  /** `[...bookings].sort((a, b) => Number(a.startTime) - Number(b.startTime))`
      with exact integer comparison: a fresh ascending permutation of the input
      (the input itself is a value and cannot change). */
  function SortByStart(bookings: seq<Booking>): (r: seq<Booking>)
    ensures SortedByStart(r)
    ensures multiset(r) == multiset(bookings)
    ensures |r| == |bookings|
  {
    if bookings == [] then []
    else
      assert bookings == [bookings[0]] + bookings[1..];
      InsertByStart(bookings[0], SortByStart(bookings[1..]))
  }

  /** The bookings that start at instant `t`, in list order. */
  function StartingAt(s: seq<Booking>, t: Time): seq<Booking> {
    if s == [] then []
    else (if s[0].startTime == t then [s[0]] else []) + StartingAt(s[1..], t)
  }

  lemma {:induction false} InsertStartingAt(b: Booking, s: seq<Booking>, t: Time)
    requires SortedByStart(s)
    ensures StartingAt(InsertByStart(b, s), t) == (if b.startTime == t then [b] else []) + StartingAt(s, t)
  {
    if s == [] {
      assert InsertByStart(b, s) == [b] + s;
      StartingAtCons(b, s, t);
    } else if b.startTime <= s[0].startTime {
      assert InsertByStart(b, s) == [b] + s;
      StartingAtCons(b, s, t);
    } else {
      SortedTail(s);
      var rest := InsertByStart(b, s[1..]);
      assert InsertByStart(b, s) == [s[0]] + rest;
      InsertStartingAt(b, s[1..], t);
      StartingAtBehindHead(b, s, rest, t);
    }
  }

  /** The step of `InsertStartingAt` where `b` goes behind the head, which
      starts earlier than `b` and so cannot start at the same instant. */
  lemma StartingAtBehindHead(b: Booking, s: seq<Booking>, rest: seq<Booking>, t: Time)
    requires s != [] && s[0].startTime < b.startTime
    requires StartingAt(rest, t) == (if b.startTime == t then [b] else []) + StartingAt(s[1..], t)
    ensures StartingAt([s[0]] + rest, t) == (if b.startTime == t then [b] else []) + StartingAt(s, t)
  {
    StartingAtCons(s[0], rest, t);
    StartingAtCons(s[0], s[1..], t);
    assert s == [s[0]] + s[1..];
  }

  lemma StartingAtCons(x: Booking, s: seq<Booking>, t: Time)
    ensures StartingAt([x] + s, t) == (if x.startTime == t then [x] else []) + StartingAt(s, t)
  {
    assert ([x] + s)[1..] == s;
  }

  /** The sort is stable: bookings with the same start time keep their input
      order. */
  lemma {:induction false} SortStable(bookings: seq<Booking>, t: Time)
    ensures StartingAt(SortByStart(bookings), t) == StartingAt(bookings, t)
  {
    if bookings != [] {
      SortStable(bookings[1..], t);
      InsertStartingAt(bookings[0], SortByStart(bookings[1..]), t);
    }
  }

  /** `sortedBookings.filter((b) => startDate >= now)` */
  function Upcoming(s: seq<Booking>, nowMs: int): seq<Booking> {
    if s == [] then []
    else if BookingCard.IsPast(nowMs, s[0].startTime) then Upcoming(s[1..], nowMs)
    else [s[0]] + Upcoming(s[1..], nowMs)
  }

  /** `sortedBookings.filter((b) => startDate < now)` */
  function Past(s: seq<Booking>, nowMs: int): seq<Booking> {
    if s == [] then []
    else if BookingCard.IsPast(nowMs, s[0].startTime) then [s[0]] + Past(s[1..], nowMs)
    else Past(s[1..], nowMs)
  }

  /** Each list keeps bookings of the input only, and only those of its kind. */
  lemma {:induction false} SplitMembers(s: seq<Booking>, nowMs: int)
    ensures forall b :: b in Upcoming(s, nowMs) ==> b in s && !BookingCard.IsPast(nowMs, b.startTime)
    ensures forall b :: b in Past(s, nowMs) ==> b in s && BookingCard.IsPast(nowMs, b.startTime)
  {
    if s != [] {
      SplitMembers(s[1..], nowMs);
    }
  }

  /** Every booking lands in exactly one of the two lists, as often as it
      occurs in the input, and no booking is in both. */
  lemma {:induction false} PartitionExact(s: seq<Booking>, nowMs: int)
    ensures multiset(Upcoming(s, nowMs)) + multiset(Past(s, nowMs)) == multiset(s)
    ensures forall b :: b in Upcoming(s, nowMs) ==> b !in Past(s, nowMs)
    ensures |Upcoming(s, nowMs)| + |Past(s, nowMs)| == |s|
  {
    SplitMembers(s, nowMs);
    if s != [] {
      PartitionExact(s[1..], nowMs);
      assert s == [s[0]] + s[1..];
    }
  }

  /** Filtering keeps ascending order. */
  lemma {:induction false} UpcomingSorted(s: seq<Booking>, nowMs: int)
    requires SortedByStart(s)
    ensures SortedByStart(Upcoming(s, nowMs))
  {
    if s != [] {
      UpcomingSorted(s[1..], nowMs);
      SplitMembers(s[1..], nowMs);
      var rest := Upcoming(s[1..], nowMs);
      assert forall b :: b in rest ==> b in s[1..];
    }
  }

  lemma {:induction false} PastSorted(s: seq<Booking>, nowMs: int)
    requires SortedByStart(s)
    ensures SortedByStart(Past(s, nowMs))
  {
    if s != [] {
      PastSorted(s[1..], nowMs);
      SplitMembers(s[1..], nowMs);
      var rest := Past(s[1..], nowMs);
      assert forall b :: b in rest ==> b in s[1..];
    }
  }

  /** Every past booking starts before every upcoming one, because truncating
      to milliseconds preserves order. */
  lemma PastBeforeUpcoming(s: seq<Booking>, nowMs: int, p: Booking, u: Booking)
    requires p in Past(s, nowMs) && u in Upcoming(s, nowMs)
    ensures p.startTime < u.startTime
  {
    SplitMembers(s, nowMs);
    if u.startTime <= p.startTime {
      NsToMsMonotone(u.startTime, p.startTime);
    }
  }

  /** On a sorted list the split is a cut: the past bookings are a prefix and
      the upcoming ones the rest. */
  lemma {:induction false} PartitionIsCut(s: seq<Booking>, nowMs: int)
    requires SortedByStart(s)
    ensures Past(s, nowMs) + Upcoming(s, nowMs) == s
  {
    if s != [] {
      if BookingCard.IsPast(nowMs, s[0].startTime) {
        SortedTail(s);
        PartitionIsCut(s[1..], nowMs);
        PastHead(s, nowMs);
      } else {
        SortedFromUpcoming(s, nowMs);
        NoneUpcomingPast(s, nowMs);
      }
    }
  }

  lemma SortedTail(s: seq<Booking>)
    requires SortedByStart(s) && s != []
    ensures SortedByStart(s[1..])
  {
    var tail := s[1..];
    forall i, j | 0 <= i < j < |tail| ensures tail[i].startTime <= tail[j].startTime {
      assert tail[i] == s[i + 1] && tail[j] == s[j + 1];
    }
  }

  /** A past first booking opens the past list and is not upcoming. */
  lemma PastHead(s: seq<Booking>, nowMs: int)
    requires s != [] && BookingCard.IsPast(nowMs, s[0].startTime)
    requires Past(s[1..], nowMs) + Upcoming(s[1..], nowMs) == s[1..]
    ensures Past(s, nowMs) + Upcoming(s, nowMs) == s
  {
    var p, u := Past(s[1..], nowMs), Upcoming(s[1..], nowMs);
    assert Past(s, nowMs) == [s[0]] + p;
    assert Upcoming(s, nowMs) == u;
    ConsSplit(s, p, u);
  }

  lemma ConsSplit<T>(s: seq<T>, p: seq<T>, u: seq<T>)
    requires s != [] && p + u == s[1..]
    ensures ([s[0]] + p) + u == s
  {
    calc {
      ([s[0]] + p) + u;
      [s[0]] + (p + u);
      [s[0]] + s[1..];
      s;
    }
  }

  /** Once the first booking of a sorted list is upcoming, all of them are. */
  lemma SortedFromUpcoming(s: seq<Booking>, nowMs: int)
    requires SortedByStart(s) && s != [] && !BookingCard.IsPast(nowMs, s[0].startTime)
    ensures forall b :: b in s ==> !BookingCard.IsPast(nowMs, b.startTime)
  {
    forall b | b in s ensures !BookingCard.IsPast(nowMs, b.startTime) {
      NsToMsMonotone(s[0].startTime, b.startTime);
    }
  }

  lemma {:induction false} NoneUpcomingPast(s: seq<Booking>, nowMs: int)
    requires forall b :: b in s ==> !BookingCard.IsPast(nowMs, b.startTime)
    ensures Past(s, nowMs) == [] && Upcoming(s, nowMs) == s
  {
    if s != [] {
      NoneUpcomingPast(s[1..], nowMs);
    }
  }

  /** The station directory of the dashboard. */
  datatype StationLabel = StationLabel(name: string, location: string)

  const Stations: map<StationId, StationLabel> := map[
    "1" := StationLabel("Downtown Charging Hub", "123 Main Street, City Center"),
    "2" := StationLabel("Green Valley Station", "456 Oak Avenue, Green Valley"),
    "3" := StationLabel("Tech Park Chargers", "789 Innovation Drive, Tech District")]

  /** `STATIONS[booking.stationId]?.name` */
  function StationName(id: StationId): Option<string> {
    if id in Stations then Some(Stations[id].name) else None
  }

  /** A station outside the directory has no name, and its card falls back to
      `Station <id>`; a listed one is shown under its name. */
  lemma CardTitleFallback(id: StationId)
    ensures id != "1" && id != "2" && id != "3" ==>
      StationName(id).None? && BookingCard.CardTitle(StationName(id), id) == "Station " + id
    ensures id == "2" ==> BookingCard.CardTitle(StationName(id), id) == "Green Valley Station"
  {
  }

  /** What the dashboard renders. */
  datatype DashboardView =
    | LoginRequired
    | Loading
    | NoBookings
    | Lists(upcoming: seq<Booking>, past: seq<Booking>)

  /** The dashboard for one render at instant `nowMs`; `bookings` is the
      query's data, absent until it has loaded. */
  function View(isAuthenticated: bool, isLoading: bool, bookings: Option<seq<Booking>>, nowMs: int): (v: DashboardView)
    ensures !isAuthenticated <==> v.LoginRequired?
    ensures v.NoBookings? <==> isAuthenticated && !isLoading && bookings.GetOr([]) == []
    ensures v.Loading? <==> isAuthenticated && isLoading
    ensures v.Lists? <==> isAuthenticated && !isLoading && bookings.GetOr([]) != []
    ensures v.Lists? ==>
      && bookings.Some? && bookings.value != []
      && SortedByStart(v.upcoming) && SortedByStart(v.past)
      && v.past + v.upcoming == SortByStart(bookings.value)
      && multiset(v.upcoming) + multiset(v.past) == multiset(bookings.value)
      && (forall b :: b in v.upcoming ==> !BookingCard.IsPast(nowMs, b.startTime))
      && (forall b :: b in v.past ==> BookingCard.IsPast(nowMs, b.startTime))
  {
    if !isAuthenticated then LoginRequired
    else if isLoading then Loading
    else
      var sorted := SortByStart(bookings.GetOr([]));
      if |sorted| == 0 then NoBookings
      else
        PartitionExact(sorted, nowMs);
        UpcomingSorted(sorted, nowMs);
        PastSorted(sorted, nowMs);
        PartitionIsCut(sorted, nowMs);
        SplitMembers(sorted, nowMs);
        Lists(Upcoming(sorted, nowMs), Past(sorted, nowMs))
  }
}
