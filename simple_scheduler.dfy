/**
 * The simple scheduler's admission rule: with no worker a new one is
 * spawned; otherwise the one worker is reused, up to a hard limit of
 * `maxRequests` connections for requests of an existing session and up to a
 * lower soft limit for requests of the application's base URL, which start
 * new sessions.
 */
module SimpleScheduler {
  import opened Common
  import opened WorkerEntry

  /** What `acquireWorker_p` does. */
  datatype Decision = Spawn | Reuse | OutOfCapacity

  /**
   * `Math.round(hardLimit * 0.8)` for an integer limit: 0.8·h is never
   * exactly halfway between two integers, so rounding half up is
   * `floor((8h + 5) / 10)` (Dafny's `/` by a positive divisor is floor division).
   */
  function RoundFourFifths(h: int): int
  {
    (8 * h + 5) / 10
  }

  /** `softLimit = Math.min(Math.round(hardLimit * 0.8), Math.max(hardLimit - 10, 2))` */
  function SoftLimit(h: int): int
  {
    Min(RoundFourFifths(h), Max(h - 10, 2))
  }

  function Min(a: int, b: int): int { if a < b then a else b }

  function Max(a: int, b: int): int { if a < b then b else a }

  /** `if (maxRequests)`: an unset limit and a limit of 0 both mean no limit. */
  predicate Limited(maxRequests: Option<int>)
  {
    maxRequests.Some? && maxRequests.value != 0
  }

  /** All connections a worker holds or has reserved. */
  function Conns(c: Counters): int
  {
    c.sock + c.http + c.pending
  }

  /**
   * `acquireWorker_p(appSpec, url)`: `firstWorker` is the counters of the
   * first worker of the table, None when the table is empty; `url` is None
   * when the caller passes none (which compares unequal to "/").
   */
  function Decide(firstWorker: Option<Counters>, maxRequests: Option<int>, url: Option<string>): (d: Decision)
  {
    if firstWorker.None? then Spawn
    else if !Limited(maxRequests) then Reuse
    else
      var hard := maxRequests.value;
      var conns := Conns(firstWorker.value);
      if url != Some("/") && conns < hard then Reuse
      else if url == Some("/") && conns < SoftLimit(hard) then Reuse
      else OutOfCapacity
  }

  /** For a positive hard limit the soft limit is between 1 and the hard limit. */
  lemma SoftLimitBounds(h: int)
    requires h >= 1
    ensures 1 <= SoftLimit(h) <= h
  {
    assert RoundFourFifths(h) <= h by {
      assert 8 * h + 5 < 10 * (h + 1);
    }
    assert RoundFourFifths(h) >= 1 by {
      assert 8 * h + 5 >= 10;
    }
  }

  /**
   * The soft limit piece by piece: 1 for a hard limit of 1, 2 up to 12, ten
   * below the hard limit up to 50, and four fifths of it (rounded) from 50 on.
   */
  lemma SoftLimitCases(h: int)
    ensures h == 1 ==> SoftLimit(h) == 1
    ensures 2 <= h <= 12 ==> SoftLimit(h) == 2
    ensures 12 <= h <= 50 ==> SoftLimit(h) == h - 10
    ensures h >= 50 ==> SoftLimit(h) == RoundFourFifths(h)
  {
    if 2 <= h <= 12 {
      assert RoundFourFifths(h) >= 2 by {
        assert 8 * h + 5 >= 20;
      }
    }
    if 12 <= h <= 50 {
      assert RoundFourFifths(h) >= h - 10 by {
        assert 8 * h + 5 >= 10 * (h - 10);
      }
    }
    if h >= 50 {
      assert RoundFourFifths(h) <= h - 10 by {
        assert 8 * h + 5 < 10 * (h - 9);
      }
    }
  }

  /** The decision table: spawn exactly when there is no worker, never refuse without a limit. */
  lemma DecideCases(firstWorker: Option<Counters>, maxRequests: Option<int>, url: Option<string>)
    ensures Decide(firstWorker, maxRequests, url) == Spawn <==> firstWorker.None?
    ensures firstWorker.Some? && !Limited(maxRequests) ==> Decide(firstWorker, maxRequests, url) == Reuse
    ensures firstWorker.Some? && Limited(maxRequests) && url != Some("/") ==>
      (Decide(firstWorker, maxRequests, url) == Reuse <==> Conns(firstWorker.value) < maxRequests.value)
    ensures firstWorker.Some? && Limited(maxRequests) && url == Some("/") ==>
      (Decide(firstWorker, maxRequests, url) == Reuse <==> Conns(firstWorker.value) < SoftLimit(maxRequests.value))
    ensures Decide(firstWorker, maxRequests, url) == OutOfCapacity ==> firstWorker.Some? && Limited(maxRequests)
  {
  }

  /**
   * A worker that still takes a new session also takes requests of existing
   * sessions, and a worker with fewer connections takes whatever one with
   * more connections takes.
   */
  lemma AdmissionMonotone(c: Counters, c': Counters, h: int, url: Option<string>)
    requires h >= 1
    ensures Decide(Some(c), Some(h), Some("/")) == Reuse ==> Decide(Some(c), Some(h), url) == Reuse
    ensures Conns(c') <= Conns(c) && Decide(Some(c), Some(h), url) == Reuse ==> Decide(Some(c'), Some(h), url) == Reuse
  {
    SoftLimitBounds(h);
  }

  /** The cases of the scheduler's unit tests without a limit, or with a URL other than the base. */
  lemma ReuseSamples()
    ensures Decide(None, Some(4), None) == Spawn
    ensures Decide(Some(Counters(0, 0, 0)), Some(4), None) == Reuse
    ensures Decide(Some(Counters(0, 10000, 0)), Some(0), None) == Reuse
    ensures Decide(Some(Counters(0, 8, 0)), Some(0), Some("SOMEURL")) == Reuse
  {
  }

  /** The base-URL cases of the scheduler's unit tests, with a hard limit of 4 (so a soft limit of 2). */
  lemma CapacitySamples()
    ensures Decide(Some(Counters(0, 4, 0)), Some(4), Some("/")) == OutOfCapacity
    ensures Decide(Some(Counters(0, 0, 4)), Some(4), Some("/")) == OutOfCapacity
    ensures Decide(Some(Counters(0, 3, 0)), Some(4), Some("/")) == OutOfCapacity
  {
    SoftLimitCases(4);
  }
}
