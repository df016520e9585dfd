/**
 * The reference counter that runs a callback once nothing has held a
 * reference for a while: every increment cancels the pending timer, and the
 * decrement that brings the count down to zero (or below) sets a fresh one.
 * Timers are handles; `live` holds the ones set and neither cleared nor
 * fired, so "at most one timer pending" is a statement about `live`.
 */
module ReferenceCounting {
  import opened Common

  type TimerId = nat

  class ReferenceCounter {
    /** `_delay`: the default delay of the timer, in milliseconds. */
    var delay: int
    /** `_count` */
    var count: int
    /** `_timeoutId`: the handle of the last timer set, None once cleared. */
    var timeoutId: Option<TimerId>
    /** The timers set and neither cleared nor fired yet. */
    var live: set<TimerId>
    /** The delay the last timer was set with. */
    var lastDelay: int
    /** The handle the next `setTimeout` returns. */
    var nextTimer: TimerId
    /** The timers that fired, each calling the callback once, in order. */
    var fired: seq<TimerId>

    /** Only the timer named by `_timeoutId` can be pending, and every handle handed out is below `nextTimer`. */
    ghost predicate Valid()
      reads this
    {
      count >= 0
      && (timeoutId.None? ==> live == {})
      && (timeoutId.Some? ==> live <= {timeoutId.value} && timeoutId.value < nextTimer)
    }

    /** At most one timer is ever pending, so the callback cannot be queued twice. */
    lemma AtMostOnePending()
      requires Valid()
      ensures |live| <= 1
      ensures |live| == 1 <==> Armed()
    {
      if timeoutId.Some? {
        var t := timeoutId.value;
        assert live == {} || live == {t} by {
          if live != {} {
            var u :| u in live;
            assert u == t;
            assert live == {t};
          }
        }
      }
    }

    /** The callback will run unless something intervenes: a timer is pending. */
    predicate Armed()
      reads this
    {
      timeoutId.Some? && timeoutId.value in live
    }

    /** `new ReferenceCounter(callback, delay)`: no references and no timer. */
    constructor (delay: int)
      ensures Valid() && !Armed()
      ensures this.delay == delay && count == 0 && timeoutId == None && live == {}
      ensures nextTimer == 0 && fired == []
    {
      this.delay := delay;
      count := 0;
      timeoutId := None;
      live := {};
      lastDelay := delay;
      nextTimer := 0;
      fired := [];
    }

    /** `start`: set the timer with the default delay. */
    method Start()
      requires Valid()
      modifies this
      ensures Valid() && Armed() && live == {timeoutId.value}
      ensures lastDelay == delay && count == old(count) && delay == old(delay) && fired == old(fired)
    {
      SetTimeout(None);
    }

    /** `_clearTimeout`: cancel the timer named by `_timeoutId`, if any. */
    method ClearTimeout()
      requires Valid()
      modifies this
      ensures Valid() && !Armed()
      ensures timeoutId == None && live == {}
      ensures count == old(count) && delay == old(delay) && lastDelay == old(lastDelay)
      ensures nextTimer == old(nextTimer) && fired == old(fired)
    {
      if timeoutId.Some? {
        live := live - {timeoutId.value};
        timeoutId := None;
      }
    }

    /** `_setTimeout(delay)`: cancel the pending timer and set a new one, with the default delay when none is given. */
    method SetTimeout(d: Option<int>)
      requires Valid()
      modifies this
      ensures Valid() && Armed()
      ensures timeoutId == Some(old(nextTimer)) && live == {old(nextTimer)} && nextTimer == old(nextTimer) + 1
      ensures lastDelay == (if d.None? then delay else d.value)
      ensures count == old(count) && delay == old(delay) && fired == old(fired)
    {
      ClearTimeout();
      timeoutId := Some(nextTimer);
      live := {nextTimer};
      lastDelay := if d.None? then delay else d.value;
      nextTimer := nextTimer + 1;
    }

    /** `increment`: one more reference; the pending timer is cancelled. */
    method Increment()
      requires Valid()
      modifies this
      ensures Valid() && !Armed() && live == {}
      ensures count == old(count) + 1
      ensures delay == old(delay) && nextTimer == old(nextTimer) && fired == old(fired)
    {
      ClearTimeout();
      count := count + 1;
    }

    /**
     * `decrement`: one reference less; when none is left (or the count was
     * already zero) the count stays at zero and a fresh timer is set with the
     * default delay.
     */
    method Decrement()
      requires Valid()
      modifies this
      ensures Valid()
      ensures old(count) <= 1 ==> count == 0 && Armed() && live == {old(nextTimer)} && lastDelay == delay
      ensures old(count) <= 1 ==> nextTimer == old(nextTimer) + 1
      ensures old(count) > 1 ==> count == old(count) - 1 && timeoutId == old(timeoutId) && live == old(live)
      ensures old(count) > 1 ==> nextTimer == old(nextTimer) && lastDelay == old(lastDelay)
      ensures delay == old(delay) && fired == old(fired)
    {
      count := count - 1;
      if count <= 0 {
        count := 0;
        SetTimeout(None);
      }
    }

    /** `delayTimeoutBy(d)`: restart the timer with delay `d`, unless something still holds a reference. */
    method DelayTimeoutBy(d: int)
      requires Valid()
      modifies this
      ensures Valid()
      ensures old(count) > 0 ==>
        timeoutId == old(timeoutId) && live == old(live) && nextTimer == old(nextTimer) && lastDelay == old(lastDelay)
      ensures old(count) == 0 ==> Armed() && live == {old(nextTimer)} && lastDelay == d && nextTimer == old(nextTimer) + 1
      ensures count == old(count) && delay == old(delay) && fired == old(fired)
    {
      if count > 0 {
        return;
      }
      SetTimeout(Some(d));
    }

    /**
     * Timer `t` fires: if it is still pending the callback runs. `_timeoutId`
     * keeps naming it, so a later `_clearTimeout` clears a timer that already fired.
     */
    method TimerFired(t: TimerId) returns (called: bool)
      requires Valid()
      modifies this
      ensures Valid()
      ensures called <==> t in old(live)
      ensures called ==> !Armed()
      ensures called ==> fired == old(fired) + [t] && live == {}
      ensures !called ==> fired == old(fired) && live == old(live)
      ensures timeoutId == old(timeoutId) && count == old(count) && delay == old(delay)
      ensures nextTimer == old(nextTimer) && lastDelay == old(lastDelay)
    {
      if t in live {
        live := live - {t};
        fired := fired + [t];
        return true;
      }
      return false;
    }
  }
}
