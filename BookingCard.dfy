/** Cancellation eligibility of one booking card, its cancel handler and the
    cancel controls it shows. `nowMs` is the instant, in milliseconds, at
    which the card last rendered: `now`, `canCancel` and `isPast` are computed
    once per render and the handler closes over them, so a click is judged by
    that instant. Start times are backend nanoseconds. */
module BookingCard {
  import opened Common
  import opened Backend
  import Queries

  /** Cancelling is refused from one hour before the start onwards. */
  const CancelCutoffMs: int := 3_600_000

  /** `timeUntilStart > 3600000` */
  predicate CanCancel(nowMs: int, startTime: Time) {
    NsToMs(startTime) - nowMs > CancelCutoffMs
  }

  /** `startDate < now` */
  predicate IsPast(nowMs: int, startTime: Time) {
    NsToMs(startTime) < nowMs
  }

  /** The cut-off, counted in backend nanoseconds, for start times at or after
      the epoch: such a start time is cancellable exactly from the first
      nanosecond of the millisecond after `now` plus one hour; a start exactly
      one hour ahead is not. */
  lemma CanCancelBoundary(nowMs: int, startTime: Time)
    requires startTime >= 0
    ensures CanCancel(nowMs, startTime) <==> startTime >= (nowMs + CancelCutoffMs + 1) * NsPerMs
    ensures !CanCancel(nowMs, MsToNs(nowMs + CancelCutoffMs))
    ensures CanCancel(nowMs, MsToNs(nowMs + CancelCutoffMs + 1))
  {
    var ms := NsToMs(startTime);
    var k := nowMs + CancelCutoffMs + 1;
    if ms >= k {
      assert ms * NsPerMs >= k * NsPerMs;
    } else {
      assert (ms + 1) * NsPerMs <= k * NsPerMs;
    }
  }

  /** Two hours ahead can be cancelled; thirty minutes ahead cannot. */
  lemma CancelScenarios(nowMs: int)
    ensures CanCancel(nowMs, MsToNs(nowMs + 7_200_000))
    ensures !CanCancel(nowMs, MsToNs(nowMs + 1_800_000))
    ensures !IsPast(nowMs, MsToNs(nowMs + 1_800_000))
  {
  }

  /** A cancellable booking is never a past one. */
  lemma CanCancelNotPast(nowMs: int, startTime: Time)
    ensures CanCancel(nowMs, startTime) ==> !IsPast(nowMs, startTime)
  {
  }

  /** What the cancel controls look like: hidden for a past booking, else a
      cancel button and, inside the cut-off, a warning. */
  datatype CancelControls = Hidden | Shown(warning: bool, disabled: bool)

  function Controls(nowMs: int, startTime: Time, isPending: bool): CancelControls {
    if IsPast(nowMs, startTime) then Hidden
    else Shown(!CanCancel(nowMs, startTime), !CanCancel(nowMs, startTime) || isPending)
  }

  /** What one click on the cancel button did. */
  datatype CancelClick = CancelClick(calls: seq<Call>, toast: Toast, invalidated: seq<Queries.QueryKey>)

  /** `handleCancel` as rendered at `nowMs`: the local cut-off check, then
      the cancel mutation; `remote` is how the backend call settles. */
  function HandleCancel(nowMs: int, booking: Booking, hasActor: bool, remote: Result<()>): CancelClick {
    if !CanCancel(nowMs, booking.startTime) then
      CancelClick([], ToastError("Cannot cancel within 1 hour of start time"), [])
    else
      var m := Queries.CancelBookingMutation(hasActor, booking.bookingId, remote);
      CancelClick(m.calls,
                  if m.result.Ok? then ToastSuccess("Booking cancelled successfully")
                  else ToastError(ErrorText(m.result.error, "Failed to cancel booking")),
                  m.invalidated)
  }

  /** Inside the cut-off the handler stops locally: an error notice, no remote
      call, nothing invalidated. */
  lemma HandleCancelRefused(nowMs: int, booking: Booking, hasActor: bool, remote: Result<()>)
    requires !CanCancel(nowMs, booking.startTime)
    ensures HandleCancel(nowMs, booking, hasActor, remote)
      == CancelClick([], ToastError("Cannot cancel within 1 hour of start time"), [])
  {
  }

  /** Outside the cut-off, with an actor, exactly one cancel call is issued,
      for this booking, and its outcome decides the notice; without an actor
      the mutation rejects before any call. */
  lemma HandleCancelCalls(nowMs: int, booking: Booking, hasActor: bool, remote: Result<()>)
    requires CanCancel(nowMs, booking.startTime)
    ensures var c := HandleCancel(nowMs, booking, hasActor, remote);
      hasActor ==>
      && c.calls == [CancelBooking(booking.bookingId)]
      && (c.toast == ToastSuccess("Booking cancelled successfully") <==> remote.Ok?)
      && (remote.Err? ==> c.toast == ToastError(ErrorText(remote.error, "Failed to cancel booking")) && c.invalidated == [])
    ensures !hasActor ==>
      HandleCancel(nowMs, booking, hasActor, remote) == CancelClick([], ToastError("Actor not initialized"), [])
  {
  }

  /** Only an enabled, visible button can reach the backend: whenever a click
      issues a call, the booking is upcoming, no warning is shown and the
      button is enabled (unless a cancel is already pending). */
  lemma ControlsMatchHandler(nowMs: int, booking: Booking, hasActor: bool, remote: Result<()>)
    ensures HandleCancel(nowMs, booking, hasActor, remote).calls != [] ==>
      Controls(nowMs, booking.startTime, false) == Shown(false, false)
    ensures Controls(nowMs, booking.startTime, false).Shown? <==> !IsPast(nowMs, booking.startTime)
    ensures Controls(nowMs, booking.startTime, false) == Shown(true, true) <==>
      !IsPast(nowMs, booking.startTime) && !CanCancel(nowMs, booking.startTime)
    ensures forall p :: Controls(nowMs, booking.startTime, p).Shown? ==>
      (Controls(nowMs, booking.startTime, p).disabled <==> !CanCancel(nowMs, booking.startTime) || p)
  {
  }

  /** `stationName || \`Station ${booking.stationId}\`` */
  function CardTitle(stationName: Option<string>, stationId: StationId): string {
    if stationName.Some? && stationName.value != "" then stationName.value else "Station " + stationId
  }
}
