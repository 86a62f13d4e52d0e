/**
 * Client code that drives a breaker through the situations of the
 * repository's sanity tests (test/js/sanity_test.js), with the timers
 * replaced by explicit ticks and timeout firings. Each method checks, from
 * the contracts of the breaker alone, what the test expects.
 */
module Scenarios {
  import opened Wrappers
  import opened Window
  import opened StateMachine
  import opened CircuitBreaker

  /** The test configuration: a 400 ms window of 5 buckets, 50 % tolerance, calibration 1. */
  function TestOptions(timeout: int): Options
  {
    Options(Some(400), Some(5), Some(50), Some(1), Some(timeout))
  }

  const Succeeds := Command([MarkSuccess], false)
  const Fails := Command([MarkFailure], false)
  const Throws := Command([], true)
  const Deferred := Command([], false)

  /** A new test breaker: an empty window, CLOSED, no override. */
  method NewTestBreaker(timeout: int) returns (b: Breaker)
    ensures fresh(b) && b.Valid() && b.state == Some(Closed) && b.forced == None && b.bucketIndex == 0
    ensures b.bucketsNumber == 5 && b.tolerance == 50 && b.calibration == 1
    ensures b.timeout == (if timeout > 0 then timeout else 0)
    ensures TotalSum(b.buckets) == 0 && ErrorSum(b.buckets) == 0
    ensures b.notices == [] && b.commandCalls == 0 && b.fallbackCalls == 0
  {
    b := new Breaker(TestOptions(timeout));
    assert [CreateBucket()][..0] == [];
  }

  /**
   * A measurement taken outside HALF_OPEN with no truthy override, at the
   * level of the sums: one more call, one more error unless it was a
   * success, and the circuit opens with one `onopen` exactly when the trip
   * condition holds; otherwise the state stays `from`.
   */
  lemma TripMeasurement(b: Breaker, before: seq<Bucket>, from: Option<Phase>, notices: seq<Notice>, m: Marker)
    requires |before| > 0 && from != Some(HalfOpen) && !Overrides(b.forced)
    requires b.MeasuredFrom(before, from, notices, m)
    ensures TotalSum(b.buckets) == TotalSum(before) + 1
    ensures ErrorSum(b.buckets) == ErrorSum(before) + (if m == MarkSuccess then 0 else 1)
    ensures if Deviates(ErrorSum(b.buckets), TotalSum(b.buckets), b.tolerance, b.calibration)
      then b.state == Some(Open) && b.notices == notices + [OnOpen(MetricsOf(b.buckets))]
      else b.state == from && b.notices == notices
  {
    RecordLastMetrics(before, KindOf(m));
    TripRule(from, b.buckets, b.tolerance, b.calibration);
  }

  /**
   * A measurement taken while HALF_OPEN and not overridden: a success closes
   * the circuit with one `onclose`; a failure or timeout in an otherwise
   * successless bucket re-opens it silently.
   */
  lemma ProbeMeasurement(b: Breaker, before: seq<Bucket>, notices: seq<Notice>, m: Marker)
    requires |before| > 0 && !Overrides(b.forced) && b.MeasuredFrom(before, Some(HalfOpen), notices, m)
    requires LastBucket(before).success == 0
    ensures m == MarkSuccess ==> b.state == Some(Closed) && b.notices == notices + [OnClose(MetricsOf(b.buckets))]
    ensures m != MarkSuccess ==> b.state == Some(Open) && b.notices == notices
  {
    RecordLastMetrics(before, KindOf(m));
    HalfOpenProbe(b.buckets, b.tolerance, b.calibration);
  }

  /**
   * One `run` of a command resolving with `m` on a CLOSED (or undefined)
   * breaker with no truthy override.
   */
  method RunClosed(b: Breaker, command: Command, m: Marker)
    requires b.Valid() && (b.state == Some(Closed) || b.state == None) && !Overrides(b.forced)
    requires FirstMark(command) == Some(m)
    modifies b`buckets, b`state, b`notices, b`commandCalls, b`fallbackCalls
    ensures b.Valid() && b.commandCalls == old(b.commandCalls) + 1 && b.fallbackCalls == old(b.fallbackCalls)
    ensures TotalSum(b.buckets) == old(TotalSum(b.buckets)) + 1
    ensures ErrorSum(b.buckets) == old(ErrorSum(b.buckets)) + (if m == MarkSuccess then 0 else 1)
    ensures if Deviates(ErrorSum(b.buckets), TotalSum(b.buckets), b.tolerance, b.calibration)
      then b.state == Some(Open) && b.notices == old(b.notices) + [OnOpen(MetricsOf(b.buckets))]
      else b.state == old(b.state) && b.notices == old(b.notices)
  {
    ghost var before, from, notices := b.buckets, b.state, b.notices;
    var rejected, inv := b.Run(command, false, None);
    TripMeasurement(b, before, from, notices, m);
  }

  /**
   * Two failures open the circuit, `onopen` runs once, and further calls
   * never reach the command. `failing` may signal its failure or throw.
   */
  method TwoFailuresOpen(failing: Command) returns (b: Breaker)
    requires FirstMark(failing) == Some(MarkFailure)
    ensures fresh(b) && b.Valid() && b.state == Some(Open) && b.forced == None && b.bucketIndex == 0
    ensures b.bucketsNumber == 5 && b.tolerance == 50 && b.calibration == 1
    ensures |b.notices| == 1 && b.notices[0].OnOpen? && b.commandCalls == 2
    ensures TotalSum(b.buckets) == 2 && ErrorSum(b.buckets) == 2
  {
    b := NewTestBreaker(0);
    RunClosed(b, failing, MarkFailure);
    assert TotalSum(b.buckets) == 1 && b.state == Some(Closed) && b.notices == [];
    RunClosed(b, failing, MarkFailure);
    assert TotalSum(b.buckets) == 2 && ErrorSum(b.buckets) == 2;
    var m := b.Calculate();
    assert m.total == 2 && m.error == 2 && m.percent == 100.0;
  }

  /** While OPEN every call is rejected: the command is not invoked and nothing is notified. */
  method RejectedWhileOpen(b: Breaker)
    requires b.Valid() && b.state == Some(Open)
    modifies b`buckets, b`state, b`notices, b`commandCalls, b`fallbackCalls
    ensures b.state == Some(Open) && b.notices == old(b.notices) && b.commandCalls == old(b.commandCalls)
  {
    OpenRejects(b, false);
    OpenRejects(b, false);
  }

  /** The sanity tests' failing commands, one calling `markFailure`, the other throwing: after two calls each breaker is OPEN and two more calls reach neither command nor handler. */
  method FailingCommandsOpen() returns (signalled: Breaker, thrown: Breaker)
    ensures signalled.state == Some(Open) && signalled.commandCalls == 2 && |signalled.notices| == 1
    ensures thrown.state == Some(Open) && thrown.commandCalls == 2 && |thrown.notices| == 1
  {
    signalled := TwoFailuresOpen(Fails);
    RejectedWhileOpen(signalled);
    thrown := TwoFailuresOpen(Throws);
    RejectedWhileOpen(thrown);
  }

  /** A successful call on an undefined state, measured against a window holding two errors in two calls. */
  method SucceedUndefined(b: Breaker)
    requires b.Valid() && b.state == None && b.forced == None && b.tolerance == 50 && b.calibration == 1
    requires TotalSum(b.buckets) == 2 && ErrorSum(b.buckets) == 2
    modifies b`buckets, b`state, b`notices, b`commandCalls, b`fallbackCalls
    ensures b.commandCalls == old(b.commandCalls) + 1
    ensures b.state == Some(Open) && b.notices == old(b.notices) + [OnOpen(MetricsOf(b.buckets))]
  {
    RunClosed(b, Succeeds, MarkSuccess);
  }

  /**
   * `reset` without a saved override leaves the state undefined, which does
   * not reject: the next call reaches the command. Its success is measured
   * against the two earlier failures still in the window (2 errors in 3
   * calls), so the circuit trips again and `onopen` runs a second time.
   */
  method ResetWithoutOverride() returns (b: Breaker)
    ensures b.forced == None && b.state == Some(Open) && b.commandCalls == 3
    ensures |b.notices| == 2 && b.notices[0].OnOpen? && b.notices[1].OnOpen?
  {
    b := TwoFailuresOpen(Fails);
    b.Reset();
    assert b.state == None && !b.IsOpenNow();
    SucceedUndefined(b);
  }

  /** After opening, six ticks (one more than the number of buckets) let a probe through. */
  method CoolDown(b: Breaker)
    requires b.Valid() && b.state == Some(Open) && b.bucketIndex == 0 && b.bucketsNumber == 5
    modifies b`buckets, b`bucketIndex, b`state
    ensures b.Valid() && b.state == Some(HalfOpen) && LastBucket(b.buckets) == CreateBucket()
  {
    var k := 0;
    while k < 6
      invariant 0 <= k <= 6 && b.Valid() && b.bucketsNumber == 5 && b.bucketIndex == k % 6
      invariant b.state == if k < 6 then Some(Open) else Some(HalfOpen)
      invariant k > 0 ==> LastBucket(b.buckets) == CreateBucket()
    {
      SlideShape(b.buckets, 5);
      b.Tick();
      k := k + 1;
    }
  }

  /** One probe from HALF_OPEN into a successless current bucket, by a command resolving with `m`. */
  method ProbeStep(b: Breaker, command: Command, m: Marker)
    requires b.Valid() && b.state == Some(HalfOpen) && b.forced == None
    requires LastBucket(b.buckets).success == 0 && FirstMark(command) == Some(m)
    modifies b`buckets, b`state, b`notices, b`commandCalls, b`fallbackCalls
    ensures b.Valid() && b.commandCalls == old(b.commandCalls) + 1
    ensures m == MarkSuccess ==> b.state == Some(Closed) && b.notices == old(b.notices) + [OnClose(MetricsOf(b.buckets))]
    ensures m != MarkSuccess ==> b.state == Some(Open) && b.notices == old(b.notices)
  {
    ghost var before, notices := b.buckets, b.notices;
    var rejected, inv := b.Run(command, false, None);
    assert !rejected;
    ProbeMeasurement(b, before, notices, m);
  }

  /** A successful probe after the cooldown closes the circuit and calls `onclose` once. */
  method ProbeSuccessCloses() returns (b: Breaker)
    ensures b.state == Some(Closed) && |b.notices| == 2 && b.notices[0].OnOpen? && b.notices[1].OnClose?
    ensures b.commandCalls == 3
  {
    b := TwoFailuresOpen(Fails);
    CoolDown(b);
    ProbeStep(b, Succeeds, MarkSuccess);
  }

  /** A failing probe after the cooldown re-opens the circuit without calling `onclose`; later calls are rejected. */
  method ProbeFailureReopens() returns (b: Breaker)
    ensures b.state == Some(Open) && |b.notices| == 1 && b.notices[0].OnOpen?
    ensures b.commandCalls == 3
  {
    b := TwoFailuresOpen(Fails);
    CoolDown(b);
    ProbeStep(b, Fails, MarkFailure);
    RejectedWhileOpen(b);
  }

  /** The timer of a pending invocation fires on a CLOSED breaker with no truthy override. */
  method TimeoutFires(b: Breaker, inv: Invocation)
    requires b.Valid() && b.state == Some(Closed) && !Overrides(b.forced) && !inv.done
    modifies b`buckets, b`state, b`notices, inv
    ensures b.Valid() && inv.done && inv.timer == None
    ensures TotalSum(b.buckets) == old(TotalSum(b.buckets)) + 1 && ErrorSum(b.buckets) == old(ErrorSum(b.buckets)) + 1
    ensures if Deviates(ErrorSum(b.buckets), TotalSum(b.buckets), b.tolerance, b.calibration)
      then b.state == Some(Open) && b.notices == old(b.notices) + [OnOpen(MetricsOf(b.buckets))]
      else b.state == Some(Closed) && b.notices == old(b.notices)
  {
    ghost var before, notices := b.buckets, b.notices;
    b.Mark(MarkTimeout, inv);
    TripMeasurement(b, before, Some(Closed), notices, MarkTimeout);
  }

  /**
   * Two deferred commands are resolved by their 100 ms timers after a
   * success: the first timeout leaves 1 error in 2 calls (not above 50 %),
   * the second 2 errors in 3 calls, which trips the circuit. The deferred
   * success arriving later finds its invocation resolved and is ignored.
   */
  method TimersTrip() returns (b: Breaker)
    ensures b.state == Some(Open) && |b.notices| == 1 && b.notices[0].OnOpen?
    ensures TotalSum(b.buckets) == 3 && ErrorSum(b.buckets) == 2 && b.commandCalls == 3
  {
    b := NewTestBreaker(100);
    var r1, first := b.Run(Deferred, false, None);
    var r2, second := b.Run(Deferred, false, None);
    assert first.timer == Some(100) && !first.done && !second.done;
    assert TotalSum(b.buckets) == 0 && b.state == Some(Closed) && b.notices == [];

    RunClosed(b, Succeeds, MarkSuccess);
    assert TotalSum(b.buckets) == 1 && ErrorSum(b.buckets) == 0 && b.state == Some(Closed);

    TimeoutFires(b, first);
    assert TotalSum(b.buckets) == 2 && ErrorSum(b.buckets) == 1 && b.state == Some(Closed);
    TimeoutFires(b, second);
    assert TotalSum(b.buckets) == 3 && ErrorSum(b.buckets) == 2 && b.state == Some(Open);
    assert |b.notices| == 1;

    b.Mark(MarkSuccess, first);
  }

  /** Under a truthy override, a failing call is counted but the circuit neither trips nor notifies. */
  method OverriddenFailure(b: Breaker)
    requires b.Valid() && b.state == Some(Closed) && Overrides(b.forced)
    modifies b`buckets, b`state, b`notices, b`commandCalls, b`fallbackCalls
    ensures b.Valid() && b.state == Some(Closed) && b.notices == old(b.notices)
    ensures TotalSum(b.buckets) == old(TotalSum(b.buckets)) + 1 && ErrorSum(b.buckets) == old(ErrorSum(b.buckets)) + 1
    ensures b.commandCalls == old(b.commandCalls) + 1 && b.fallbackCalls == old(b.fallbackCalls)
  {
    ghost var before := b.buckets;
    var rejected, inv := b.Run(Fails, false, None);
    RecordLastMetrics(before, Failure);
  }

  /** While OPEN a call is rejected: the command is not invoked, the fallback runs if given, and the outage leaves the metrics as they were. */
  method OpenRejects(b: Breaker, hasFallback: bool)
    requires b.Valid() && b.state == Some(Open)
    modifies b`buckets, b`state, b`notices, b`commandCalls, b`fallbackCalls
    ensures b.Valid() && b.state == Some(Open) && b.notices == old(b.notices)
    ensures b.commandCalls == old(b.commandCalls) && b.fallbackCalls == old(b.fallbackCalls) + (if hasFallback then 1 else 0)
    ensures TotalSum(b.buckets) == old(TotalSum(b.buckets)) && ErrorSum(b.buckets) == old(ErrorSum(b.buckets))
  {
    ghost var before := b.buckets;
    var rejected, inv := b.Run(Succeeds, hasFallback, None);
    assert rejected;
    RecordLastMetrics(before, Outage);
  }

  /**
   * `open` then `close` on a fresh default breaker, as in the first sanity
   * test: the first call is rejected; `close` saves OPEN, which is falsy, so
   * the second call reaches the command with re-evaluation still active (one
   * success among default calibration 5 does not trip).
   */
  method OpenThenClose() returns (b: Breaker)
    ensures b.forced == Some(Open) && !Overrides(b.forced)
    ensures b.state == Some(Closed) && b.notices == [] && b.commandCalls == 1 && b.fallbackCalls == 0
    ensures TotalSum(b.buckets) == 1 && ErrorSum(b.buckets) == 0
  {
    b := new Breaker(Options(None, None, None, None, None));
    assert TotalSum(b.buckets) == 0 && ErrorSum(b.buckets) == 0 by {
      assert b.buckets[..0] == [];
    }
    b.ForceOpen();
    assert b.forced == Some(Closed) && b.state == Some(Open);
    OpenRejects(b, false);
    assert TotalSum(b.buckets) == 0 && ErrorSum(b.buckets) == 0 && b.commandCalls == 0 && b.notices == [];
    b.ForceClose();
    assert b.forced == Some(Open) && b.state == Some(Closed) && b.calibration == 5;
    RunClosed(b, Succeeds, MarkSuccess);
    assert TotalSum(b.buckets) == 1 && ErrorSum(b.buckets) == 0;
  }

  /**
   * Forced OPEN rejects and runs the fallback; `reset` restores the saved
   * CLOSED; `close` on that CLOSED circuit saves CLOSED, a truthy override,
   * so three failures are counted without tripping.
   */
  method ManualOverride() returns (b: Breaker)
    ensures b.forced == Some(Closed) && b.state == Some(Closed) && b.notices == []
    ensures TotalSum(b.buckets) == 3 && ErrorSum(b.buckets) == 3
    ensures b.commandCalls == 3 && b.fallbackCalls == 1
  {
    b := NewTestBreaker(0);
    b.ForceOpen();
    assert b.forced == Some(Closed);
    OpenRejects(b, true);
    b.Reset();
    assert b.state == Some(Closed) && b.forced == None;
    b.ForceClose();
    assert b.forced == Some(Closed) && b.notices == [];
    OverriddenFailure(b);
    OverriddenFailure(b);
    OverriddenFailure(b);
  }
}
