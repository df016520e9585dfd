/**
 * One entry of the scheduler's worker table: counters of the HTTP, SockJS
 * and pending (reserved, not yet arrived) connections assigned to a worker
 * process, the idle timer that fires when none are left, and the FIFO queue
 * of timers that give back a pending reservation whose SockJS connection
 * never arrives.
 */
module WorkerEntry {
  import opened Common

  /** The `connType` argument of `acquire` and `release`; any other string is `Unrecognized`. */
  datatype ConnType = Http | Sock | Pending | Unrecognized(name: string)

  /** The three counters of `data`. */
  datatype Counters = Counters(http: int, sock: int, pending: int)

  /** A timer handle returned by `setTimeout`. */
  type TimerId = nat

  /** The counters after `acquire(t)`, None when `t` is not recognized (the method throws). */
  function Acquired(c: Counters, t: ConnType): Option<Counters>
  {
    match t
    case Http => Some(c.(http := c.http + 1))
    case Sock => Some(c.(sock := c.sock + 1))
    case Pending => Some(c.(pending := c.pending + 1))
    case Unrecognized(_) => None
  }

  /**
   * The counters after `release(t)` on an open entry: http and sock drop by
   * one but never below zero, a pending reservation is only given back when
   * there is one; None when `t` is not recognized.
   */
  function Released(c: Counters, t: ConnType): Option<Counters>
  {
    match t
    case Http => Some(c.(http := Max0(c.http - 1)))
    case Sock => Some(c.(sock := Max0(c.sock - 1)))
    case Pending => Some(if c.pending <= 0 then c else c.(pending := c.pending - 1))
    case Unrecognized(_) => None
  }

  /** Whether `release(t)` goes on to `startIdleTimer` (it returns early for an empty pending count). */
  predicate ReleaseReachesIdleCheck(c: Counters, t: ConnType)
  {
    t.Http? || t.Sock? || (t.Pending? && c.pending > 0)
  }

  function Max0(x: int): int
  {
    if x < 0 then 0 else x
  }

  predicate NonNegative(c: Counters)
  {
    c.http >= 0 && c.sock >= 0 && c.pending >= 0
  }

  predicate AllZero(c: Counters)
  {
    c.http + c.sock + c.pending == 0
  }

  /** Acquiring recognizes exactly the three connection types and adds one to that counter only. */
  lemma AcquireCounts(c: Counters, t: ConnType)
    ensures Acquired(c, t).None? <==> t.Unrecognized?
    ensures Acquired(c, t).Some? ==>
      var d := Acquired(c, t).value;
      d.http + d.sock + d.pending == c.http + c.sock + c.pending + 1
      && (d.http != c.http ==> t.Http?) && (d.sock != c.sock ==> t.Sock?) && (d.pending != c.pending ==> t.Pending?)
  {
  }

  /** Releasing keeps the counters non-negative and never raises one. */
  lemma ReleaseBounds(c: Counters, t: ConnType)
    requires NonNegative(c)
    ensures Released(c, t).None? <==> t.Unrecognized?
    ensures Released(c, t).Some? ==>
      var d := Released(c, t).value;
      NonNegative(d) && d.http <= c.http && d.sock <= c.sock && d.pending <= c.pending
  {
  }

  /** A release undoes the acquire of the same type. */
  lemma ReleaseUndoesAcquire(c: Counters, t: ConnType)
    requires NonNegative(c) && !t.Unrecognized?
    ensures Acquired(c, t).Some? && Released(Acquired(c, t).value, t) == Some(c)
  {
  }

  /** Releasing an empty counter changes nothing. */
  lemma ReleaseAtZero(c: Counters, t: ConnType)
    requires (t.Http? && c.http == 0) || (t.Sock? && c.sock == 0) || (t.Pending? && c.pending <= 0)
    ensures Released(c, t) == Some(c)
  {
  }

  class WorkerEntry {
    /** `data.httpConn`, `data.sockConn`, `data.pendingConn` */
    var counters: Counters
    /** `closed`: the scheduler has removed this entry from its table. */
    var closed: bool
    /** `idleTimeout` in milliseconds; not positive means the worker is never reaped. */
    var idleTimeout: int
    /** Whether an idle timer has been set and not cleared since. */
    var idleTimerArmed: bool
    /** `pendingReleaseTimers`, oldest first. */
    var pendingReleaseTimers: seq<TimerId>
    /** The release timers cancelled with `clearTimeout`, in the order they were cancelled. */
    var cancelledTimers: seq<TimerId>

    ghost predicate Valid()
      reads this
    {
      NonNegative(counters)
    }

    constructor (idleTimeout: int)
      ensures Valid()
      ensures counters == Counters(0, 0, 0) && !closed && this.idleTimeout == idleTimeout
      ensures !idleTimerArmed && pendingReleaseTimers == [] && cancelledTimers == []
    {
      counters := Counters(0, 0, 0);
      closed := false;
      this.idleTimeout := idleTimeout;
      idleTimerArmed := false;
      pendingReleaseTimers := [];
      cancelledTimers := [];
    }

    /** `sessionCount`: the SockJS connections plus the reservations for them. */
    function SessionCount(): (n: int)
      reads this
      requires Valid()
      ensures n >= 0 && n == counters.sock + counters.pending
    {
      counters.sock + counters.pending
    }

    /** `acquire`: one more connection of type `t`; the idle timer is cleared. An unknown type throws and changes nothing. */
    method Acquire(t: ConnType) returns (ok: bool)
      requires Valid()
      modifies this
      ensures Valid()
      ensures ok <==> Acquired(old(counters), t).Some?
      ensures ok ==> counters == Acquired(old(counters), t).value && !idleTimerArmed
      ensures !ok ==> counters == old(counters) && idleTimerArmed == old(idleTimerArmed)
      ensures closed == old(closed) && idleTimeout == old(idleTimeout)
      ensures pendingReleaseTimers == old(pendingReleaseTimers) && cancelledTimers == old(cancelledTimers)
    {
      if t.Http? {
        counters := counters.(http := counters.http + 1);
      } else if t.Sock? {
        counters := counters.(sock := counters.sock + 1);
      } else if t.Pending? {
        counters := counters.(pending := counters.pending + 1);
      } else {
        return false;
      }
      idleTimerArmed := false;
      return true;
    }

    /**
     * `release`: nothing at all once the entry is closed; otherwise one
     * connection of type `t` less, and the idle check. An unknown type throws.
     */
    method Release(t: ConnType) returns (ok: bool)
      requires Valid()
      modifies this
      ensures Valid()
      ensures ok <==> old(closed) || !t.Unrecognized?
      ensures old(closed) ==> counters == old(counters) && idleTimerArmed == old(idleTimerArmed)
      ensures !old(closed) && ok ==> counters == Released(old(counters), t).value
      ensures !ok ==> counters == old(counters) && idleTimerArmed == old(idleTimerArmed)
      ensures !old(closed) && ReleaseReachesIdleCheck(old(counters), t) ==>
        idleTimerArmed == (old(idleTimerArmed) || (AllZero(counters) && idleTimeout > 0))
      ensures !old(closed) && !ReleaseReachesIdleCheck(old(counters), t) ==> idleTimerArmed == old(idleTimerArmed)
      ensures closed == old(closed) && idleTimeout == old(idleTimeout)
      ensures pendingReleaseTimers == old(pendingReleaseTimers) && cancelledTimers == old(cancelledTimers)
    {
      if closed {
        return true;
      }
      if t.Http? {
        counters := counters.(http := counters.http - 1);
        counters := counters.(http := Max0(counters.http));
      } else if t.Sock? {
        counters := counters.(sock := counters.sock - 1);
        counters := counters.(sock := Max0(counters.sock));
      } else if t.Pending? {
        if counters.pending <= 0 {
          return true;
        }
        counters := counters.(pending := counters.pending - 1);
      } else {
        return false;
      }
      StartIdleTimer();
      return true;
    }

    /** `startIdleTimer`: (re)arm the idle timer when no connection is left and reaping is on. */
    method StartIdleTimer()
      modifies this`idleTimerArmed
      ensures idleTimerArmed == (old(idleTimerArmed) || (AllZero(counters) && idleTimeout > 0))
    {
      if counters.sock + counters.http + counters.pending == 0 {
        if idleTimeout > 0 {
          idleTimerArmed := true;
        }
      }
    }

    /** `pushPendingReleaseTimer`: `timer` is the handle `setTimeout` returned for the delayed release. */
    method PushPendingReleaseTimer(timer: TimerId)
      modifies this`pendingReleaseTimers
      ensures pendingReleaseTimers == old(pendingReleaseTimers) + [timer]
    {
      pendingReleaseTimers := pendingReleaseTimers + [timer];
    }

    /**
     * The delayed release fires: its timer leaves the queue if it is at the
     * front, and unless the entry is closed a pending reservation is released.
     */
    method PendingReleaseTimerFired(timer: TimerId)
      requires Valid()
      modifies this
      ensures Valid()
      ensures pendingReleaseTimers ==
        if old(pendingReleaseTimers) != [] && old(pendingReleaseTimers)[0] == timer
        then old(pendingReleaseTimers)[1..] else old(pendingReleaseTimers)
      ensures counters == if old(closed) then old(counters) else Released(old(counters), Pending).value
      ensures !old(closed) && ReleaseReachesIdleCheck(old(counters), Pending) ==>
        idleTimerArmed == (old(idleTimerArmed) || (AllZero(counters) && idleTimeout > 0))
      ensures old(closed) || !ReleaseReachesIdleCheck(old(counters), Pending) ==> idleTimerArmed == old(idleTimerArmed)
      ensures closed == old(closed) && idleTimeout == old(idleTimeout) && cancelledTimers == old(cancelledTimers)
    {
      if |pendingReleaseTimers| > 0 && pendingReleaseTimers[0] == timer {
        pendingReleaseTimers := pendingReleaseTimers[1..];
      }
      if closed {
        return;
      }
      var _ := Release(Pending);
    }

    /** `shiftPendingReleaseTimer`: cancel the oldest release timer; true iff there was one. */
    method ShiftPendingReleaseTimer() returns (shifted: bool)
      modifies this`pendingReleaseTimers, this`cancelledTimers
      ensures shifted <==> old(pendingReleaseTimers) != []
      ensures shifted ==> pendingReleaseTimers == old(pendingReleaseTimers)[1..]
      ensures shifted ==> cancelledTimers == old(cancelledTimers) + [old(pendingReleaseTimers)[0]]
      ensures !shifted ==> pendingReleaseTimers == [] && cancelledTimers == old(cancelledTimers)
    {
      if |pendingReleaseTimers| > 0 {
        cancelledTimers := cancelledTimers + [pendingReleaseTimers[0]];
        pendingReleaseTimers := pendingReleaseTimers[1..];
        return true;
      }
      return false;
    }

    /** `close`: mark the entry closed and cancel every release timer, oldest first. */
    method Close()
      modifies this`closed, this`pendingReleaseTimers, this`cancelledTimers
      ensures closed && pendingReleaseTimers == []
      ensures cancelledTimers == old(cancelledTimers) + old(pendingReleaseTimers)
    {
      closed := true;
      var more := ShiftPendingReleaseTimer();
      while more
        invariant closed
        invariant !more ==> pendingReleaseTimers == []
        invariant cancelledTimers + pendingReleaseTimers == old(cancelledTimers) + old(pendingReleaseTimers)
        decreases |pendingReleaseTimers| + (if more then 1 else 0)
      {
        more := ShiftPendingReleaseTimer();
      }
    }
  }

  /** The acquire/release sequence of the scheduler's unit test, on `Acquired` and `Released`. */
  lemma AcquireReleaseSample()
    ensures
      var c0 := Counters(0, 0, 0);
      var c1 := Acquired(c0, Http).value;
      var c2 := Acquired(c1, Sock).value;
      var c3 := Released(c2, Http).value;
      var c4 := Released(c3, Sock).value;
      c1.http == 1 && c1.sock == 0 && c2.http == 1 && c2.sock == 1
      && c3.http == 0 && c3.sock == 1 && c4.http == 0 && c4.sock == 0
  {
  }
}
