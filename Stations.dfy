/** Station bootstrap on the stations page: probe station "1" for the slots
    of today (`midnightMs` is the local midnight the browser computes); an empty answer is read as "no stations yet" and the three demo
    stations are created, otherwise the fixed identifiers "1", "2", "3" are
    assumed. The remote outcomes are parameters. */
module Stations {
  import opened Common
  import opened Backend
  import TimeSlotPicker
  import BookingFlow
  import Dashboard

  datatype Station = Station(stationId: StationId, name: string, location: string, ports: int, openHour: int, closeHour: int)

  /** A demo station before it has an identifier. */
  datatype Seed = Seed(name: string, location: string, ports: int, openHour: int, closeHour: int)

  const Seeds: seq<Seed> := [
    Seed("Downtown Charging Hub", "123 Main Street, City Center", 4, 6, 22),
    Seed("Green Valley Station", "456 Oak Avenue, Green Valley", 6, 0, 24),
    Seed("Tech Park Chargers", "789 Innovation Drive, Tech District", 8, 7, 20)]

  const ProbeStation: StationId := "1"
  const KnownIds: seq<StationId> := ["1", "2", "3"]
  const LoadFailed: Toast := ToastError("Failed to load stations")

  /** `BigInt(new Date().setHours(0, 0, 0, 0) * 1000000)` for the local
      midnight `midnightMs`. */
  function Today(midnightMs: int): Time {
    MsToNs(midnightMs)
  }

  function Create(s: Seed): Call {
    AddStation(s.name, s.location, s.ports, s.openHour, s.closeHour)
  }

  function Named(s: Seed, id: StationId): Station {
    Station(id, s.name, s.location, s.ports, s.openHour, s.closeHour)
  }

  /** The stations list built from three identifiers, in seed order. */
  function WithIds(ids: seq<StationId>): (r: seq<Station>)
    requires |ids| == 3
  {
    [Named(Seeds[0], ids[0]), Named(Seeds[1], ids[1]), Named(Seeds[2], ids[2])]
  }

  /** One run of `initializeStations` once the actor exists: the calls it
      issues, the list it sets (`None`: `setStations` is never called), and
      the notices it shows. */
  datatype BootstrapRun = BootstrapRun(calls: seq<Call>, stations: Option<seq<Station>>, notices: seq<Toast>)

  function Bootstrap(midnightMs: int, probe: Result<seq<Time>>,
                     c1: Result<StationId>, c2: Result<StationId>, c3: Result<StationId>): BootstrapRun
  {
    var p := [GetAvailableSlots(ProbeStation, Today(midnightMs))];
    if probe.Err? then BootstrapRun(p, None, [LoadFailed])
    else if |probe.value| != 0 then BootstrapRun(p, Some(WithIds(KnownIds)), [])
    else if c1.Err? then BootstrapRun(p + [Create(Seeds[0])], None, [LoadFailed])
    else if c2.Err? then BootstrapRun(p + [Create(Seeds[0]), Create(Seeds[1])], None, [LoadFailed])
    else
      var creates := [Create(Seeds[0]), Create(Seeds[1]), Create(Seeds[2])];
      if c3.Err? then BootstrapRun(p + creates, None, [LoadFailed])
      else BootstrapRun(p + creates, Some(WithIds([c1.value, c2.value, c3.value])), [])
  }

  predicate IsCreate(c: Call) {
    c.AddStation?
  }

  /** On every path the first call probes station "1" for today's local
      midnight in nanoseconds, and what follows is a prefix of the three
      creations, in seed order. */
  lemma BootstrapCallShape(midnightMs: int, probe: Result<seq<Time>>,
                           c1: Result<StationId>, c2: Result<StationId>, c3: Result<StationId>)
    ensures var run := Bootstrap(midnightMs, probe, c1, c2, c3);
      && 1 <= |run.calls| <= 4
      && run.calls[0] == GetAvailableSlots("1", Today(midnightMs))
      && NsToMs(run.calls[0].date) == midnightMs
      && (forall i :: 1 <= i < |run.calls| ==> run.calls[i] == Create(Seeds[i - 1]))
      && (probe.Err? || (probe.Ok? && probe.value != []) ==> |run.calls| == 1)
  {
  }

  /** A fresh backend (empty probe, every creation succeeds): exactly three
      creations with (ports, open, close) = (4, 6, 22), (6, 0, 24), (8, 7, 20),
      and the list holds the returned identifiers in creation order. */
  lemma BootstrapFresh(midnightMs: int, a: StationId, b: StationId, c: StationId)
    ensures var run := Bootstrap(midnightMs, Ok([]), Ok(a), Ok(b), Ok(c));
      && |run.calls| == 4
      && run.calls[1] == AddStation("Downtown Charging Hub", "123 Main Street, City Center", 4, 6, 22)
      && run.calls[2] == AddStation("Green Valley Station", "456 Oak Avenue, Green Valley", 6, 0, 24)
      && run.calls[3] == AddStation("Tech Park Chargers", "789 Innovation Drive, Tech District", 8, 7, 20)
      && run.stations.Some?
      && |run.stations.value| == 3
      && run.stations.value[0].stationId == a
      && run.stations.value[1].stationId == b
      && run.stations.value[2].stationId == c
      && run.notices == []
  {
  }

  /** Stations already present: no creation, the fixed identifiers, and the
      same names, places, ports and hours as after a fresh start. */
  lemma BootstrapExisting(midnightMs: int, slots: seq<Time>, c1: Result<StationId>, c2: Result<StationId>,
                          c3: Result<StationId>, a: StationId, b: StationId, c: StationId)
    requires slots != []
    ensures var run := Bootstrap(midnightMs, Ok(slots), c1, c2, c3);
      var seeded := Bootstrap(midnightMs, Ok([]), Ok(a), Ok(b), Ok(c));
      && (forall i :: 0 <= i < |run.calls| ==> !IsCreate(run.calls[i]))
      && run.stations == Some(WithIds(["1", "2", "3"]))
      && (forall i :: 0 <= i < 3 ==>
            run.stations.value[i] == seeded.stations.value[i].(stationId := KnownIds[i]))
      && run.notices == []
  {
  }

  /** Any rejection, of the probe or of a creation, leaves `setStations`
      uncalled and shows the failure notice; a run that sets the list shows
      no notice. */
  lemma BootstrapFailure(midnightMs: int, probe: Result<seq<Time>>,
                         c1: Result<StationId>, c2: Result<StationId>, c3: Result<StationId>)
    ensures var run := Bootstrap(midnightMs, probe, c1, c2, c3);
      && (run.stations.None? <==> probe.Err? || (probe.value == [] && (c1.Err? || c2.Err? || c3.Err?)))
      && (run.stations.None? <==> run.notices == [LoadFailed])
      && (run.stations.Some? <==> run.notices == [])
  {
  }

  /** A creation that fails stops the run: the later stations are not even
      requested. */
  lemma BootstrapStopsAtFailure(midnightMs: int, c1: Result<StationId>, c2: Result<StationId>, c3: Result<StationId>)
    ensures c1.Err? ==> |Bootstrap(midnightMs, Ok([]), c1, c2, c3).calls| == 2
    ensures c1.Ok? && c2.Err? ==> |Bootstrap(midnightMs, Ok([]), c1, c2, c3).calls| == 3
  {
  }

  /** The stations page. `calls` and `notices` record, oldest first, the
      remote calls issued and the notices shown. */
  class StationsPage {
    var stations: seq<Station>
    var isInitializing: bool
    var calls: seq<Call>
    var notices: seq<Toast>

    constructor ()
      ensures stations == [] && isInitializing && calls == [] && notices == []
    {
      stations, isInitializing, calls, notices := [], true, [], [];
    }

    /** The spinner is shown until an initialisation has run to its end. */
    predicate ShowsSpinner()
      reads this
    {
      isInitializing
    }

    /** `initializeStations`. Without an actor it returns before `try`, so
        nothing changes and the spinner stays. Otherwise it probes, possibly
        creates, sets the list unless something was rejected, and always
        clears `isInitializing` (`finally`). `probe`, `c1`, `c2`, `c3` are how
        the probe and the three creations settle. */
    method InitializeStations(hasActor: bool, midnightMs: int, probe: Result<seq<Time>>,
                              c1: Result<StationId>, c2: Result<StationId>, c3: Result<StationId>)
      modifies this
      ensures !hasActor ==>
        stations == old(stations) && isInitializing == old(isInitializing)
        && calls == old(calls) && notices == old(notices)
      ensures hasActor ==>
        var run := Bootstrap(midnightMs, probe, c1, c2, c3);
        && calls == old(calls) + run.calls
        && stations == run.stations.GetOr(old(stations))
        && notices == old(notices) + run.notices
        && !isInitializing
    {
      if !hasActor {
        return;
      }
      var failed := false;
      calls := calls + [GetAvailableSlots(ProbeStation, Today(midnightMs))];
      if probe.Err? {
        failed := true;
      } else if |probe.value| == 0 {
        calls := calls + [Create(Seeds[0])];
        if c1.Err? {
          failed := true;
        } else {
          calls := calls + [Create(Seeds[1])];
          if c2.Err? {
            failed := true;
          } else {
            calls := calls + [Create(Seeds[2])];
            if c3.Err? {
              failed := true;
            } else {
              stations := WithIds([c1.value, c2.value, c3.value]);
            }
          }
        }
      } else {
        stations := WithIds(KnownIds);
      }
      if failed {
        notices := notices + [LoadFailed];
      }
      isInitializing := false;
    }
  }

  /** On the first run a failure leaves the list empty. */
  method FirstRunFailure(midnightMs: int, probe: Result<seq<Time>>,
                         c1: Result<StationId>, c2: Result<StationId>, c3: Result<StationId>)
    returns (page: StationsPage)
    ensures Bootstrap(midnightMs, probe, c1, c2, c3).stations.None? ==> page.stations == [] && !page.ShowsSpinner()
  {
    page := new StationsPage();
    page.InitializeStations(true, midnightMs, probe, c1, c2, c3);
  }

  /** `availableSlots?.length || 0`, the "Available Today" figure of a
      station card: it counts raw entries, repeated instants included, so it
      is never below the number of buttons the slot picker shows. */
  function SlotCount(availableSlots: Option<seq<Time>>): (n: nat)
    ensures availableSlots.None? ==> n == 0
    ensures availableSlots.Some? ==> n == |availableSlots.value| >= |TimeSlotPicker.Dedup(availableSlots.value)|
  {
    if availableSlots.Some? then |availableSlots.value| else 0
  }

  /** The station list is written out three times (this page, the booking
      page, the dashboard); under the fixed identifiers the three copies agree
      on name, place and port count. */
  lemma StationTablesAgree(i: nat)
    requires i < 3
    ensures var st := WithIds(KnownIds)[i];
      && BookingFlow.LookupStation(st.stationId)
           == Some(BookingFlow.StationInfo(st.name, st.location, st.ports))
      && Dashboard.StationName(st.stationId) == Some(st.name)
      && st.stationId in Dashboard.Stations && Dashboard.Stations[st.stationId].location == st.location
  {
  }

  /** After a fresh start the list carries the identifiers the backend
      returned, while the booking page only knows "1", "2" and "3": a card's
      station can be booked exactly when its returned identifier is one of
      those. */
  lemma FreshIdsReachBookingPage(midnightMs: int, a: StationId, b: StationId, c: StationId, i: nat)
    requires i < 3
    ensures var st := Bootstrap(midnightMs, Ok([]), Ok(a), Ok(b), Ok(c)).stations.value[i];
      BookingFlow.LookupStation(st.stationId).Some? <==> st.stationId in KnownIds
  {
  }
}
