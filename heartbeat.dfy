/**
 * The connection heartbeat of the connection page (and of its older copy):
 * a small circuit breaker over four fields. Every five seconds a timer fires
 * `checkConnection`; the main process answers a connect request with
 * `connect-device-res` and a liveness check with `check-device-res`; the
 * "Retry" button of the failure dialog starts over.
 *
 * Each timer firing is one `Tick(now)`; each reply is one call with the time
 * it was received. Every handler's updates are taken to be visible to the
 * next event.
 */
module Heartbeat {

  /** A connected session whose last heartbeat is older than this (ms) is demoted. */
  const StaleAfter := 10000
  /** Checks sent while disconnected before the session is declared failed. */
  const MaxRetries := 3

  datatype Status = Status(connected: bool, connectionFailed: bool, retryCount: int, lastHeartbeat: int)

  /** The state when the page mounts. */
  const Initial := Status(false, false, 0, 0)

  /** The status after an event, and whether the event sent `check-device`. */
  datatype Step = Step(next: Status, checkIssued: bool)

  /** The retry counter stays within its limit. */
  predicate Valid(s: Status)
  {
    0 <= s.retryCount <= MaxRetries
  }

  /** `checkConnection`. */
  function AfterTick(s: Status, now: int): Step
  {
    if s.connectionFailed then Step(s, false)
    else if s.connected && now - s.lastHeartbeat > StaleAfter then Step(s.(connected := false), false)
    else if !s.connected && s.retryCount >= MaxRetries then Step(s.(connectionFailed := true), false)
    else if !s.connected then Step(s.(retryCount := s.retryCount + 1), true)
    else Step(s, true)
  }

  /** The `connect-device-res` handler. */
  function AfterConnectResult(s: Status, ok: bool, now: int): Status
  {
    Status(ok, if ok then s.connectionFailed else true, 0, now)
  }

  /** The `check-device-res` handler. */
  function AfterCheckResult(s: Status, ok: bool, now: int): Status
  {
    if ok != s.connected then
      Status(ok, s.connectionFailed, if ok then 0 else s.retryCount, now)
    else
      s.(lastHeartbeat := now)
  }

  /** The failure dialog's "Retry" (the connect it sends is reported separately). */
  function AfterRetry(s: Status): Status
  {
    s.(connectionFailed := false, retryCount := 0)
  }

  // ---------------------------------------------------------------------------
  // One event at a time.

  /** Once failed, a tick changes nothing and sends nothing. */
  lemma TickWhenFailed(s: Status, now: int)
    requires s.connectionFailed
    ensures AfterTick(s, now) == Step(s, false)
  {
  }

  /** A stale connected session is demoted; nothing is sent and the counter is kept. */
  lemma TickDemotesStale(s: Status, now: int)
    requires !s.connectionFailed && s.connected && now - s.lastHeartbeat > StaleAfter
    ensures var r := AfterTick(s, now);
      !r.checkIssued && !r.next.connected && r.next.retryCount == s.retryCount
      && r.next == s.(connected := false)
  {
  }

  /** A disconnected session that used up its retries fails without sending a check. */
  lemma TickGivesUp(s: Status, now: int)
    requires !s.connectionFailed && !s.connected && s.retryCount >= MaxRetries
    ensures var r := AfterTick(s, now);
      !r.checkIssued && r.next == s.(connectionFailed := true)
  {
  }

  /**
   * Every other tick sends exactly one check, counts a retry only while
   * disconnected, and touches nothing else.
   */
  lemma TickChecks(s: Status, now: int)
    requires !s.connectionFailed
    requires !(s.connected && now - s.lastHeartbeat > StaleAfter)
    requires !(!s.connected && s.retryCount >= MaxRetries)
    ensures var r := AfterTick(s, now);
      r.checkIssued
      && r.next.retryCount == (if s.connected then s.retryCount else s.retryCount + 1)
      && r.next == s.(retryCount := r.next.retryCount)
  {
  }

  /** A tick sends a check exactly when none of the three early returns applies. */
  lemma TickChecksIff(s: Status, now: int)
    ensures AfterTick(s, now).checkIssued <==>
      !s.connectionFailed
      && !(s.connected && now - s.lastHeartbeat > StaleAfter)
      && !(!s.connected && s.retryCount >= MaxRetries)
  {
  }

  /** A connect reply adopts the result, clears the counter, stamps the heartbeat, and a failure fails at once. */
  lemma ConnectResultEffect(s: Status, ok: bool, now: int)
    ensures var t := AfterConnectResult(s, ok, now);
      t.connected == ok && t.retryCount == 0 && t.lastHeartbeat == now
      && (!ok ==> t.connectionFailed)
      && (ok ==> t.connectionFailed == s.connectionFailed)
  {
  }

  /**
   * A check reply always stamps the heartbeat, even when it reports the
   * device gone; it never touches `connectionFailed`; the counter is reset
   * only when the status flips to connected.
   */
  lemma CheckResultEffect(s: Status, ok: bool, now: int)
    ensures var t := AfterCheckResult(s, ok, now);
      t.lastHeartbeat == now && t.connected == ok && t.connectionFailed == s.connectionFailed
      && (t.retryCount == 0 <== ok && !s.connected)
      && (!(ok && !s.connected) ==> t.retryCount == s.retryCount)
  {
  }

  lemma RetryEffect(s: Status)
    ensures var t := AfterRetry(s);
      !t.connectionFailed && t.retryCount == 0
      && t.connected == s.connected && t.lastHeartbeat == s.lastHeartbeat
  {
  }

  /** Every event keeps the counter within 0..3. */
  lemma EventsKeepValid(s: Status, now: int, ok: bool)
    requires Valid(s)
    ensures Valid(AfterTick(s, now).next)
    ensures Valid(AfterConnectResult(s, ok, now))
    ensures Valid(AfterCheckResult(s, ok, now))
    ensures Valid(AfterRetry(s))
  {
  }

  lemma InitialValid()
    ensures Valid(Initial) && !Initial.connected && !Initial.connectionFailed
  {
  }

  // ---------------------------------------------------------------------------
  // Runs of ticks with no reply in between.

  datatype Run = Run(last: Status, checks: nat)

  /** Fires the timer at each of `times` in turn, counting the checks sent. */
  function RunTicks(s: Status, times: seq<int>): Run
    decreases |times|
  {
    if |times| == 0 then Run(s, 0)
    else
      var step := AfterTick(s, times[0]);
      var rest := RunTicks(step.next, times[1..]);
      Run(rest.last, rest.checks + if step.checkIssued then 1 else 0)
  }

  /** The ticks a silent session has left before it fails: a demotion if connected, then the remaining retries, then the give-up. */
  function TicksLeft(s: Status): (n: nat)
    requires Valid(s)
    ensures s.connectionFailed <==> n == 0
    ensures n <= 5
  {
    if s.connectionFailed then 0
    else if s.connected then 5 - s.retryCount
    else 4 - s.retryCount
  }

  /** Every time in `times` is more than 10 s after `s`'s heartbeat (ticks never move the heartbeat). */
  predicate AllStale(s: Status, times: seq<int>)
  {
    forall i :: 0 <= i < |times| ==> times[i] - s.lastHeartbeat > StaleAfter
  }

  /**
   * With no replies and the heartbeat stale, the session fails after
   * exactly `TicksLeft` ticks (never more than five), having sent exactly
   * `3 - retryCount` checks; ticks after that change nothing.
   */
  lemma {:induction false} SilentSessionFails(s: Status, times: seq<int>)
    requires Valid(s) && AllStale(s, times)
    ensures var r := RunTicks(s, times);
      (r.last.connectionFailed <==> |times| >= TicksLeft(s))
      && (!s.connectionFailed && |times| >= TicksLeft(s) ==> r.checks == MaxRetries - s.retryCount)
      && (s.connectionFailed ==> r == Run(s, 0))
    decreases |times|
  {
    if |times| > 0 {
      var step := AfterTick(s, times[0]);
      assert AllStale(step.next, times[1..]) by {
        forall i | 0 <= i < |times[1..]|
          ensures times[1..][i] - step.next.lastHeartbeat > StaleAfter
        {
          assert times[1..][i] == times[i + 1];
        }
      }
      SilentSessionFails(step.next, times[1..]);
    }
  }

  /** From the mount state, with no reply at all, four ticks fail the session after three checks. */
  lemma UnansweredSessionFails(times: seq<int>)
    requires |times| == 4
    requires forall i :: 0 <= i < |times| ==> times[i] > StaleAfter
    ensures RunTicks(Initial, times) == Run(Initial.(connectionFailed := true, retryCount := 3), 3)
  {
    var failed := Status(false, true, 3, 0);
    assert RunTicks(failed, []) == Run(failed, 0);
    assert RunTicks(Status(false, false, 3, 0), times[3..]) == Run(failed, 0) by {
      assert times[3..][1..] == [];
    }
    assert RunTicks(Status(false, false, 2, 0), times[2..]) == Run(failed, 1) by {
      assert times[2..][1..] == times[3..];
    }
    assert RunTicks(Status(false, false, 1, 0), times[1..]) == Run(failed, 2) by {
      assert times[1..][1..] == times[2..];
    }
  }

  // ---------------------------------------------------------------------------
  // Runs of ticks interleaved with replies.

  /** A timer firing, or a reply received, each with the time it happened. */
  datatype Event = TickAt(at: int) | CheckReply(ok: bool, at: int) | ConnectReply(ok: bool, at: int)

  function Apply(s: Status, e: Event): Status
  {
    match e
    case TickAt(now) => AfterTick(s, now).next
    case CheckReply(ok, now) => AfterCheckResult(s, ok, now)
    case ConnectReply(ok, now) => AfterConnectResult(s, ok, now)
  }

  function Replay(s: Status, es: seq<Event>): Status
    decreases |es|
  {
    if |es| == 0 then s else Replay(Apply(s, es[0]), es[1..])
  }

  function TickCount(es: seq<Event>): nat
    decreases |es|
  {
    if |es| == 0 then 0 else (if es[0].TickAt? then 1 else 0) + TickCount(es[1..])
  }

  /** The device never answers "connected": every reply in the run is a failure. */
  predicate NoTrueReply(es: seq<Event>)
  {
    forall i :: 0 <= i < |es| && !es[i].TickAt? ==> !es[i].ok
  }

  /** Every tick of the run comes more than 10 s after the heartbeat `h`. */
  predicate TicksStaleAfter(es: seq<Event>, h: int)
  {
    forall i :: 0 <= i < |es| && es[i].TickAt? ==> es[i].at - h > StaleAfter
  }

  /**
   * One event of a failing run: a tick uses up one tick of the budget (or
   * finds it empty), a failed reply never adds to it, and a session still
   * connected keeps the heartbeat `h` it started with.
   */
  lemma FailingStep(s: Status, e: Event, h: int)
    requires Valid(s) && (s.connected ==> s.lastHeartbeat == h)
    requires !e.TickAt? ==> !e.ok
    requires e.TickAt? && s.connected ==> e.at - h > StaleAfter
    ensures var t := Apply(s, e);
      Valid(t) && (t.connected ==> t.lastHeartbeat == h) && (t.connected ==> s.connected)
      && TicksLeft(t) <= TicksLeft(s)
      && (e.TickAt? && TicksLeft(s) > 0 ==> TicksLeft(t) == TicksLeft(s) - 1)
  {
  }

  /**
   * A device that never answers "connected" fails: however the failed
   * check and connect replies fall between the ticks, once the run holds
   * `TicksLeft(s)` ticks (at most five) the session has failed. Ticks need
   * to be late only while the session starts out connected.
   */
  lemma {:induction false} FailingDeviceFails(s: Status, es: seq<Event>, h: int)
    requires Valid(s) && (s.connected ==> s.lastHeartbeat == h)
    requires NoTrueReply(es) && (s.connected ==> TicksStaleAfter(es, h))
    ensures var t := Replay(s, es);
      Valid(t) && TicksLeft(t) <= (if TickCount(es) >= TicksLeft(s) then 0 else TicksLeft(s) - TickCount(es))
    ensures TickCount(es) >= TicksLeft(s) ==> Replay(s, es).connectionFailed
    decreases |es|
  {
    if |es| > 0 {
      var rest := es[1..];
      assert forall i :: 0 <= i < |rest| ==> rest[i] == es[i + 1];
      assert NoTrueReply(rest) && (s.connected ==> TicksStaleAfter(rest, h));
      FailingStep(s, es[0], h);
      FailingDeviceFails(Apply(s, es[0]), rest, h);
    }
  }

  /** From the mount state, an unreachable device fails by the fourth tick, whatever the times and the failed replies between. */
  lemma UnreachableDeviceFails(es: seq<Event>)
    requires NoTrueReply(es) && TickCount(es) >= 4
    ensures Replay(Initial, es).connectionFailed
  {
    FailingDeviceFails(Initial, es, 0);
  }

  // ---------------------------------------------------------------------------
  // The page's state, updated in place by the handlers.

  class Monitor {
    var connected: bool
    var connectionFailed: bool
    var retryCount: int
    var lastHeartbeat: int
    /** Whether `deviceInfo` is set; `connectDevice` sends nothing without it. */
    var hasDevice: bool

    function State(): Status
      reads this
    {
      Status(connected, connectionFailed, retryCount, lastHeartbeat)
    }

    ghost predicate Inv()
      reads this
    {
      Valid(State())
    }

    constructor (hasDevice: bool)
      ensures State() == Initial && this.hasDevice == hasDevice
      ensures Inv()
    {
      connected := false;
      connectionFailed := false;
      retryCount := 0;
      lastHeartbeat := 0;
      this.hasDevice := hasDevice;
    }

    /** One firing of the five-second timer. */
    method Tick(now: int) returns (checkIssued: bool)
      requires Inv()
      modifies this
      ensures Inv()
      ensures State() == AfterTick(old(State()), now).next
      ensures checkIssued == AfterTick(old(State()), now).checkIssued
      ensures hasDevice == old(hasDevice)
    {
      checkIssued := false;
      if connectionFailed {
        return;
      }
      if connected && now - lastHeartbeat > StaleAfter {
        connected := false;
        return;
      }
      if !connected && retryCount >= MaxRetries {
        connectionFailed := true;
        return;
      }
      if !connected {
        retryCount := retryCount + 1;
      }
      checkIssued := true;
    }

    method OnConnectResult(ok: bool, now: int)
      requires Inv()
      modifies this
      ensures Inv()
      ensures State() == AfterConnectResult(old(State()), ok, now)
      ensures hasDevice == old(hasDevice)
    {
      connected := ok;
      retryCount := 0;
      lastHeartbeat := now;
      if !ok {
        connectionFailed := true;
      }
    }

    method OnCheckResult(ok: bool, now: int)
      requires Inv()
      modifies this
      ensures Inv()
      ensures State() == AfterCheckResult(old(State()), ok, now)
      ensures hasDevice == old(hasDevice)
    {
      lastHeartbeat := now;
      if ok != connected {
        if ok {
          retryCount := 0;
        }
        connected := ok;
      }
    }

    /** "Retry": clear the failure and the counter, then send a connect if there is a device to connect to. */
    method Retry() returns (connectIssued: bool)
      requires Inv()
      modifies this
      ensures Inv()
      ensures State() == AfterRetry(old(State()))
      ensures connectIssued == hasDevice && hasDevice == old(hasDevice)
    {
      connectionFailed := false;
      retryCount := 0;
      connectIssued := hasDevice;
    }
  }
}
