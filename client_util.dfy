/**
 * The client's small utilities: the "nice" reconnect backoff, the clamp on
 * the delay before a retry, and the connection wrapper that holds back the
 * events of the underlying connection until it is resumed.
 */
module ClientUtil {
  import opened Common

  // ----- createNiceBackoffDelayFunc -----

  /** The backoff steps, in seconds; the last one repeats. */
  const NiceBackoff: seq<int> := [0, 1, 2, 3, 5]

  /** The delay, in milliseconds, the backoff function returns on its `n`-th call (counting from 0). */
  function NthDelay(n: nat): (ms: int)
    ensures ms == 1000 * NiceBackoff[if n < |NiceBackoff| then n else |NiceBackoff| - 1]
  {
    if n < |NiceBackoff| then NiceBackoff[n] * 1000 else NiceBackoff[|NiceBackoff| - 1] * 1000
  }

  /** The delays never shrink, and from the fifth call on they stay at five seconds. */
  lemma NthDelayShape(m: nat, n: nat)
    ensures m <= n ==> NthDelay(m) <= NthDelay(n)
    ensures n >= 4 ==> NthDelay(n) == 5000
    ensures 0 <= NthDelay(n) <= 5000
  {
  }

  /** The closure `createNiceBackoffDelayFunc` returns, with its captured `pos`. */
  class NiceBackoffFunc {
    /** `pos`: the index of the step last returned, -1 before the first call. */
    var pos: int
    /** How many times the function has been called. */
    ghost var calls: nat

    ghost predicate Valid()
      reads this
    {
      pos == (if calls == 0 then -1 else Min(calls - 1, |NiceBackoff| - 1))
    }

    constructor ()
      ensures Valid() && calls == 0
    {
      pos := -1;
      calls := 0;
    }

    /** One call: `pos = Math.min(++pos, niceBackoff.length - 1)`, then that step in milliseconds. */
    method Next() returns (ms: int)
      requires Valid()
      modifies this
      ensures Valid() && calls == old(calls) + 1
      ensures ms == NthDelay(old(calls))
    {
      pos := Min(pos + 1, |NiceBackoff| - 1);
      calls := calls + 1;
      ms := NiceBackoff[pos] * 1000;
    }
  }

  function Min(a: int, b: int): int { if a < b then a else b }

  function Max(a: int, b: int): int { if a < b then b else a }

  /** The backoff's unit test: ten calls of a fresh function. */
  method NiceBackoffSample() returns (results: seq<int>)
    ensures results == [0, 1000, 2000, 3000, 5000, 5000, 5000, 5000, 5000, 5000]
  {
    var func := new NiceBackoffFunc();
    results := [];
    var i := 0;
    while i < 10
      invariant 0 <= i <= 10
      invariant func.Valid() && func.calls == i
      invariant |results| == i && forall j :: 0 <= j < i ==> results[j] == NthDelay(j)
    {
      var d := func.Next();
      results := results + [d];
      i := i + 1;
    }
  }

  // ----- retryPromise_p -----

  /**
   * The wait before the next attempt: the backoff's delay, but no longer
   * than the time left until `expiration` and never negative.
   */
  function RetryDelay(delay: int, expiration: int, now: int): (d: int)
    ensures d >= 0
    ensures d <= Max(delay, 0) && d <= Max(expiration - now, 0)
    ensures d == delay || d == expiration - now || d == 0
  {
    Max(0, Min(delay, expiration - now))
  }

  /** The clamp only bites past the deadline: a delay that fits is kept, and an expired deadline retries at once. */
  lemma RetryDelayCases(delay: int, expiration: int, now: int)
    ensures 0 <= delay <= expiration - now ==> RetryDelay(delay, expiration, now) == delay
    ensures expiration <= now ==> RetryDelay(delay, expiration, now) == 0
    ensures 0 <= expiration - now < delay ==> RetryDelay(delay, expiration, now) == expiration - now
  {
  }

  // ----- PauseConnection -----

  /** The four event handlers a connection has. */
  datatype EventKind = Open | Message | Error | Close

  /** A held-back event: which handler, its argument, and the underlying connection's readyState when it happened. */
  datatype HeldEvent = HeldEvent(event: EventKind, data: string, readyState: int)

  /** A handler call of the wrapper: which handler, its argument, and the wrapper's readyState at the call. */
  datatype Delivery = Delivery(event: EventKind, data: string, readyState: int)

  /** The handler calls replaying `events` makes: each with the readyState it carried. */
  function Replay(events: seq<HeldEvent>): (r: seq<Delivery>)
    ensures |r| == |events|
    ensures forall i :: 0 <= i < |events| ==>
      r[i] == Delivery(events[i].event, events[i].data, events[i].readyState)
  {
    if events == [] then []
    else [Delivery(events[0].event, events[0].data, events[0].readyState)] + Replay(events[1..])
  }

  lemma {:induction false} ReplayAppend(a: seq<HeldEvent>, b: seq<HeldEvent>)
    ensures Replay(a + b) == Replay(a) + Replay(b)
  {
    if a == [] {
      assert a + b == b;
    } else {
      assert (a + b)[1..] == a[1..] + b;
      ReplayAppend(a[1..], b);
    }
  }

  /** Replaying one more held event extends the replay by that event's delivery. */
  lemma ReplayStep(queued: seq<HeldEvent>, k: nat)
    requires k < |queued|
    ensures Replay(queued[..k + 1]) == Replay(queued[..k]) + [Delivery(queued[k].event, queued[k].data, queued[k].readyState)]
    ensures LastReadyState(queued[..k + 1], 0) == queued[k].readyState
    ensures queued[k + 1..] == queued[k..][1..]
  {
    assert queued[..k + 1] == queued[..k] + [queued[k]];
    ReplayAppend(queued[..k], [queued[k]]);
  }

  /** The readyState the last of `events` carried, `initial` when there is none. */
  function LastReadyState(events: seq<HeldEvent>, initial: int): int
  {
    if events == [] then initial else events[|events| - 1].readyState
  }

  type TimerId = nat

  /** The WebSocket readyState values the unit test uses. */
  const Connecting := 0
  const OpenState := 1

  /**
   * `PauseConnection`: starts paused; events of the underlying connection
   * are queued with the readyState they happened in, and `resume` replays
   * them in order on a zero-delay timer before letting events through.
   */
  class PauseConnection {
    var paused: bool
    /** `_events`, oldest first. */
    var events: seq<HeldEvent>
    /** The wrapper's `readyState`. */
    var readyState: int
    /** `_timeout`: the handle of the last resume timer. */
    var timeout: Option<TimerId>
    /** The resume timers set and neither cleared nor fired yet. */
    var live: set<TimerId>
    var nextTimer: TimerId
    /** The calls of the wrapper's handlers, in order. */
    var delivered: seq<Delivery>

    /** `new PauseConnection(conn)`: paused, nothing queued, the readyState copied from `conn`. */
    constructor (connReadyState: int)
      ensures paused && events == [] && readyState == connReadyState
      ensures timeout == None && live == {} && nextTimer == 0 && delivered == []
    {
      paused := true;
      events := [];
      readyState := connReadyState;
      timeout := None;
      live := {};
      nextTimer := 0;
      delivered := [];
    }

    /**
     * The underlying connection calls handler `e`: while paused the event is
     * queued; otherwise the wrapper takes the connection's readyState and
     * its handler runs.
     */
    method ConnEvent(e: EventKind, data: string, connReadyState: int)
      modifies this
      ensures old(paused) ==>
        events == old(events) + [HeldEvent(e, data, connReadyState)] && delivered == old(delivered) && readyState == old(readyState)
      ensures !old(paused) ==>
        events == old(events) && readyState == connReadyState && delivered == old(delivered) + [Delivery(e, data, connReadyState)]
      ensures paused == old(paused) && timeout == old(timeout) && live == old(live) && nextTimer == old(nextTimer)
    {
      if paused {
        events := events + [HeldEvent(e, data, connReadyState)];
      } else {
        readyState := connReadyState;
        delivered := delivered + [Delivery(e, data, readyState)];
      }
    }

    /**
     * The same, as the handler is written: `this` inside it is the underlying
     * connection, so `this.readyState = conn.readyState` leaves the
     * wrapper's readyState where it was.
     */
    method ConnEventAsWritten(e: EventKind, data: string, connReadyState: int)
      modifies this
      ensures old(paused) ==> events == old(events) + [HeldEvent(e, data, connReadyState)] && delivered == old(delivered)
      ensures !old(paused) ==> events == old(events) && delivered == old(delivered) + [Delivery(e, data, old(readyState))]
      ensures readyState == old(readyState)
      ensures paused == old(paused) && timeout == old(timeout) && live == old(live) && nextTimer == old(nextTimer)
    {
      if paused {
        events := events + [HeldEvent(e, data, connReadyState)];
      } else {
        delivered := delivered + [Delivery(e, data, readyState)];
      }
    }

    /** `resume`: set a zero-delay timer that will replay the queue; an earlier one is not cleared. */
    method Resume()
      modifies this
      ensures timeout == Some(old(nextTimer)) && live == old(live) + {old(nextTimer)} && nextTimer == old(nextTimer) + 1
      ensures paused == old(paused) && events == old(events) && readyState == old(readyState)
      ensures delivered == old(delivered)
    {
      timeout := Some(nextTimer);
      live := live + {nextTimer};
      nextTimer := nextTimer + 1;
    }

    /** `pause`: clear the last resume timer and hold events back again. */
    method Pause()
      modifies this
      ensures paused
      ensures live == if old(timeout).Some? then old(live) - {old(timeout).value} else old(live)
      ensures timeout == old(timeout) && events == old(events) && readyState == old(readyState)
      ensures nextTimer == old(nextTimer) && delivered == old(delivered)
    {
      if timeout.Some? {
        live := live - {timeout.value};
      }
      paused := true;
    }

    /**
     * Resume timer `t` fires: every queued event is shifted off and handed
     * to its handler, oldest first, with the wrapper's readyState set to the
     * one the event carried; then events pass straight through.
     */
    method ResumeTimerFired(t: TimerId)
      modifies this
      ensures t in old(live) ==> events == [] && !paused && live == old(live) - {t}
      ensures t in old(live) ==> delivered == old(delivered) + Replay(old(events))
      ensures t in old(live) ==> readyState == LastReadyState(old(events), old(readyState))
      ensures t !in old(live) ==> events == old(events) && paused == old(paused) && live == old(live)
      ensures t !in old(live) ==> delivered == old(delivered) && readyState == old(readyState)
      ensures timeout == old(timeout) && nextTimer == old(nextTimer)
    {
      if t !in live {
        return;
      }
      live := live - {t};
      ghost var queued := events;
      ghost var k := 0;
      while |events| > 0
        invariant 0 <= k <= |queued| && events == queued[k..]
        invariant delivered == old(delivered) + Replay(queued[..k])
        invariant readyState == LastReadyState(queued[..k], old(readyState))
        invariant timeout == old(timeout) && nextTimer == old(nextTimer) && live == old(live) - {t}
        invariant paused == old(paused)
        decreases |events|
      {
        var e := events[0];
        events := events[1..];
        readyState := e.readyState;
        delivered := delivered + [Delivery(e.event, e.data, readyState)];
        ReplayStep(queued, k);
        k := k + 1;
      }
      assert queued[..k] == queued;
      paused := false;
    }
  }

  /**
   * The wrapper's unit test: the underlying connection opens and receives a
   * message while the wrapper is paused; nothing reaches the wrapper's
   * handlers and its readyState stays CONNECTING until the resume timer
   * fires, after which both events have been delivered and it is OPEN.
   */
  method PauseConnectionSample() returns (before: int, heldCalls: nat, after: int, calls: seq<Delivery>)
    ensures before == Connecting && heldCalls == 0
    ensures after == OpenState
    ensures calls == [Delivery(Open, "", OpenState), Delivery(Message, "Hello", OpenState)]
  {
    var pc := new PauseConnection(Connecting);
    pc.ConnEvent(Open, "", OpenState);
    pc.ConnEvent(Message, "Hello", OpenState);
    before := pc.readyState;
    heldCalls := |pc.delivered|;
    pc.Resume();
    var t := pc.timeout.value;
    pc.ResumeTimerFired(t);
    after := pc.readyState;
    calls := pc.delivered;
  }

  /**
   * A wrapper resumed before its connection opens: the open event comes
   * after the replay, so as written the wrapper's handler runs while its
   * readyState still says CONNECTING, and it never changes.
   */
  method LateOpenAsWritten() returns (state: int, calls: seq<Delivery>)
    ensures state == Connecting
    ensures calls == [Delivery(Open, "", Connecting)]
  {
    var pc := new PauseConnection(Connecting);
    pc.Resume();
    pc.ResumeTimerFired(pc.timeout.value);
    pc.ConnEventAsWritten(Open, "", OpenState);
    state := pc.readyState;
    calls := pc.delivered;
  }

  /** The same with the readyState taken over, as the replay does for held events. */
  method LateOpen() returns (state: int, calls: seq<Delivery>)
    ensures state == OpenState
    ensures calls == [Delivery(Open, "", OpenState)]
  {
    var pc := new PauseConnection(Connecting);
    pc.Resume();
    pc.ResumeTimerFired(pc.timeout.value);
    pc.ConnEvent(Open, "", OpenState);
    state := pc.readyState;
    calls := pc.delivered;
  }
}
