/**
 * The circuit breaker object: configuration, the sliding window of buckets,
 * the state and its manual override, and the execution gate.
 *
 * Timers are replaced by calls from the environment: the rotation timer by
 * `Tick`, a per-call timeout firing by `Mark(MarkTimeout, inv)` on the
 * invocation it was armed for. Callbacks (`command`, `fallback`, `onopen`,
 * `onclose`) are foreign code; the model records that they were invoked.
 */
module CircuitBreaker {
  import opened Wrappers
  import opened Window
  import opened StateMachine

  /** The construction options; `None` is an absent option. */
  datatype Options = Options(
    slidingTimeWindow: Option<int>,
    bucketsNumber: Option<int>,
    tolerance: Option<int>,
    calibration: Option<int>,
    timeout: Option<int>)

  /** The three resolution callbacks a command receives. */
  datatype Marker = MarkSuccess | MarkFailure | MarkTimeout

  /**
   * A command, as far as the breaker can observe it while `run` is on the
   * stack: the markers it calls synchronously, in order, and whether it then
   * throws. Markers it calls later are calls of `Mark` by the environment.
   */
  datatype Command = Command(calls: seq<Marker>, throws: bool)

  /** The bucket counter a marker increments. */
  function KindOf(m: Marker): Kind
  {
    match m
    case MarkSuccess => Success
    case MarkFailure => Failure
    case MarkTimeout => Timeout
  }

  /** A numeric option keeps its value when it is positive and otherwise takes the default. */
  function Setting(option: Option<int>, default: nat): (r: nat)
    ensures option.Some? && option.value > 0 ==> r == option.value
    ensures option.None? || option.value <= 0 ==> r == default
  {
    if option.Some? && 0 < option.value then option.value else default
  }

  /** The timer a call arms: one with the effective timeout as delay, none when it is 0. */
  function Armed(timeout: nat): (r: Option<nat>)
    ensures r.Some? <==> timeout > 0
    ensures r.Some? ==> r.value == timeout
  {
    if 0 < timeout then Some(timeout) else None
  }

  /** The marker that resolves a command's invocation synchronously, if any: the first one it calls, else a throw. */
  function FirstMark(c: Command): (r: Option<Marker>)
    ensures |c.calls| > 0 ==> r == Some(c.calls[0])
    ensures |c.calls| == 0 ==> (r.Some? <==> c.throws) && (c.throws ==> r == Some(MarkFailure))
  {
    if |c.calls| > 0 then Some(c.calls[0])
    else if c.throws then Some(MarkFailure)
    else None
  }

  /** The per-invocation status record: resolved yet, and the timeout timer still armed. */
  class Invocation {
    var done: bool
    var timer: Option<nat>

    constructor (timer: Option<nat>)
      ensures !done && this.timer == timer
    {
      done := false;
      this.timer := timer;
    }
  }

  class Breaker {
    const slidingTimeWindow: nat
    const bucketsNumber: nat
    const tolerance: nat
    const calibration: nat
    const timeout: nat

    var buckets: seq<Bucket>
    var state: Option<Phase>
    var forced: Option<Phase>
    var bucketIndex: nat

    // Calls of the foreign callbacks, for the specification only.
    ghost var notices: seq<Notice>
    ghost var commandCalls: nat
    ghost var fallbackCalls: nat

    /** The object invariant: positive configuration, a non-empty window within its bound. */
    ghost predicate Valid()
      reads this
    {
      && 0 < slidingTimeWindow && 0 < bucketsNumber && 0 < tolerance && 0 < calibration
      && 0 < |buckets| <= bucketsNumber
      && bucketIndex <= bucketsNumber
    }

    /**
     * The effect of the first resolution of an invocation, relative to the
     * state before it: the marker's counter in the current bucket goes up by
     * one, and the state is re-evaluated unless a truthy override is saved.
     */
    ghost function MeasuredFrom(oldBuckets: seq<Bucket>, oldState: Option<Phase>, oldNotices: seq<Notice>, m: Marker): (r: bool)
      requires |oldBuckets| > 0
      reads this
      ensures r ==> TotalSum(buckets) == TotalSum(oldBuckets) + 1
      ensures r ==> ErrorSum(buckets) == ErrorSum(oldBuckets) + (if m == MarkSuccess then 0 else 1)
      ensures r && Overrides(forced) ==> state == oldState && notices == oldNotices
      ensures r && !Overrides(forced) ==> state != Some(HalfOpen) && |oldNotices| <= |notices| <= |oldNotices| + 1
    {
      RecordLastMetrics(oldBuckets, KindOf(m));
      && buckets == RecordLast(oldBuckets, KindOf(m))
      && if Overrides(forced) then
           state == oldState && notices == oldNotices
         else
           var step := Evaluate(oldState, buckets, tolerance, calibration);
           state == step.state && notices == oldNotices + step.notices
    }

    /** `initialize`: each option or its default, one zero bucket, CLOSED, no override. */
    constructor (options: Options)
      ensures Valid()
      ensures slidingTimeWindow == Setting(options.slidingTimeWindow, 30000)
      ensures bucketsNumber == Setting(options.bucketsNumber, 10)
      ensures tolerance == Setting(options.tolerance, 50)
      ensures calibration == Setting(options.calibration, 5)
      ensures timeout == Setting(options.timeout, 0)
      ensures buckets == [CreateBucket()] && state == Some(Closed) && forced == None && bucketIndex == 0
      ensures notices == [] && commandCalls == 0 && fallbackCalls == 0
    {
      slidingTimeWindow := Setting(options.slidingTimeWindow, 30000);
      bucketsNumber := Setting(options.bucketsNumber, 10);
      tolerance := Setting(options.tolerance, 50);
      calibration := Setting(options.calibration, 5);
      timeout := Setting(options.timeout, 0);
      buckets := [CreateBucket()];
      state := Some(Closed);
      forced := None;
      bucketIndex := 0;
      notices, commandCalls, fallbackCalls := [], 0, 0;
    }

    /** `isOpen`: only the OPEN state is open; an undefined state is not. */
    function IsOpenNow(): (r: bool)
      reads this
      ensures r <==> state == Some(Open)
      ensures state == None ==> !r
    {
      state == Some(Open)
    }

    /** `open`: save the current state as the override and force OPEN. */
    method ForceOpen()
      requires Valid()
      modifies this`state, this`forced
      ensures Valid()
      ensures forced == old(state) && state == Some(Open)
    {
      forced := state;
      state := Some(Open);
    }

    /** `close`: save the current state as the override and force CLOSED. */
    method ForceClose()
      requires Valid()
      modifies this`state, this`forced
      ensures Valid()
      ensures forced == old(state) && state == Some(Closed)
    {
      forced := state;
      state := Some(Closed);
    }

    /** `reset`: restore the saved state (undefined when none was saved) and clear the override. */
    method Reset()
      requires Valid()
      modifies this`state, this`forced
      ensures Valid()
      ensures state == old(forced) && forced == None
    {
      state := forced;
      forced := None;
    }

    /** `calculate`: the loop over the retained buckets. */
    method Calculate() returns (m: Metrics)
      ensures m == MetricsOf(buckets)
    {
      var total, error := 0, 0;
      for i := 0 to |buckets|
        invariant total == TotalSum(buckets[..i])
        invariant error == ErrorSum(buckets[..i])
      {
        assert buckets[..i + 1][..i] == buckets[..i];
        var bucketErrors := buckets[i].failure + buckets[i].timeout;
        error := error + bucketErrors;
        total := total + bucketErrors + buckets[i].success;
      }
      assert buckets[..|buckets|] == buckets;
      var percent := (error as real / (if total > 0 then total else 1) as real) * 100.0;
      m := Metrics(total, error, percent);
    }

    /** `_createNextSlidingBucket`: advance the counter and rotate the window. */
    method CreateNextSlidingBucket()
      requires Valid()
      modifies this`buckets, this`bucketIndex
      ensures buckets == Slide(old(buckets), bucketsNumber) && bucketIndex == old(bucketIndex) + 1
      ensures 0 < |buckets| <= bucketsNumber
    {
      bucketIndex := bucketIndex + 1;
      buckets := buckets + [CreateBucket()];
      if |buckets| > bucketsNumber {
        buckets := buckets[1..];
      }
      SlideShape(old(buckets), bucketsNumber);
    }

    /** `_tick`: one period of the rotation timer. */
    method Tick()
      requires Valid()
      modifies this`buckets, this`bucketIndex, this`state
      ensures Valid()
      ensures buckets == Slide(old(buckets), bucketsNumber)
      ensures Clock(bucketIndex, state) == TickStep(Clock(old(bucketIndex), old(state)), bucketsNumber)
    {
      CreateNextSlidingBucket();
      if bucketIndex > bucketsNumber {
        bucketIndex := 0;
        if state == Some(Open) {
          state := Some(HalfOpen);
        }
      }
    }

    /** `_updateState`: re-evaluate the state from the metrics and the current bucket. */
    method UpdateState()
      requires Valid()
      modifies this`state, this`notices
      ensures Valid()
      ensures var step := Evaluate(old(state), buckets, tolerance, calibration);
        state == step.state && notices == old(notices) + step.notices
    {
      var metrics := Calculate();
      if state == Some(HalfOpen) {
        var lastCommandFailed := LastBucket(buckets).success == 0 && 0 < metrics.error;
        if lastCommandFailed {
          state := Some(Open);
        } else {
          state := Some(Closed);
          notices := notices + [OnClose(metrics)];
        }
      } else {
        var toleranceDeviation := metrics.percent > tolerance as real;
        var calibrationDeviation := metrics.total > calibration;
        ErrorsWithinTotal(buckets);
        PercentExceedsIff(metrics.error, metrics.total, tolerance);
        if calibrationDeviation && toleranceDeviation {
          state := Some(Open);
          notices := notices + [OnOpen(metrics)];
        }
      }
    }

    /**
     * A resolution callback of `_measure` called for invocation `inv`: only
     * the first call per invocation has an effect; it cancels the timer,
     * counts the outcome and marks the invocation done.
     */
    method Mark(m: Marker, inv: Invocation)
      requires Valid()
      modifies this`buckets, this`state, this`notices, inv
      ensures Valid()
      ensures old(inv.done) ==>
        && buckets == old(buckets) && state == old(state) && notices == old(notices)
        && inv.done && inv.timer == old(inv.timer)
      ensures !old(inv.done) ==>
        && inv.done && inv.timer == None
        && MeasuredFrom(old(buckets), old(state), old(notices), m)
    {
      if inv.done {
        return;
      } else if inv.timer.Some? {
        inv.timer := None;
      }
      buckets := RecordLast(buckets, KindOf(m));
      if !Overrides(forced) {
        UpdateState();
      }
      inv.done := true;
    }

    /** `_fallback`: invoke the fallback, if any, and count one outage. */
    method Fallback(hasFallback: bool)
      requires Valid()
      modifies this`buckets, this`fallbackCalls
      ensures Valid()
      ensures buckets == RecordLast(old(buckets), Outage)
      ensures fallbackCalls == old(fallbackCalls) + (if hasFallback then 1 else 0)
    {
      if hasFallback {
        fallbackCalls := fallbackCalls + 1;
      }
      buckets := RecordLast(buckets, Outage);
    }

    /**
     * `_execute`: arm the effective timeout, invoke the command once, and
     * count a synchronous throw as a failure. The invocation comes back
     * resolved by its first synchronous marker, or still pending with its
     * timer armed.
     */
    method Execute(command: Command, perCallTimeout: Option<int>) returns (inv: Invocation)
      requires Valid()
      modifies this`buckets, this`state, this`notices, this`commandCalls
      ensures Valid() && fresh(inv)
      ensures commandCalls == old(commandCalls) + 1
      ensures match FirstMark(command)
        case None =>
          && buckets == old(buckets) && state == old(state) && notices == old(notices)
          && !inv.done && inv.timer == Armed(Setting(perCallTimeout, timeout))
        case Some(m) =>
          && inv.done && inv.timer == None
          && MeasuredFrom(old(buckets), old(state), old(notices), m)
    {
      var effective := Setting(perCallTimeout, timeout);
      inv := new Invocation(Armed(effective));
      commandCalls := commandCalls + 1;
      for i := 0 to |command.calls|
        invariant Valid() && fresh(inv) && commandCalls == old(commandCalls) + 1
        invariant i == 0 ==>
          && buckets == old(buckets) && state == old(state) && notices == old(notices)
          && !inv.done && inv.timer == Armed(effective)
        invariant i > 0 ==>
          && inv.done && inv.timer == None
          && MeasuredFrom(old(buckets), old(state), old(notices), command.calls[0])
      {
        Mark(command.calls[i], inv);
      }
      if command.throws {
        Mark(MarkFailure, inv);
      }
    }

    /**
     * `run`: while OPEN, reject without invoking the command (the `false`
     * result), run the fallback and count one outage; otherwise execute the
     * command (the source then returns nothing).
     */
    method Run(command: Command, hasFallback: bool, perCallTimeout: Option<int>) returns (rejected: bool, inv: Invocation?)
      requires Valid()
      modifies this`buckets, this`state, this`notices, this`commandCalls, this`fallbackCalls
      ensures Valid()
      ensures rejected <==> old(state) == Some(Open)
      ensures rejected ==>
        && inv == null && buckets == RecordLast(old(buckets), Outage)
        && state == old(state) && notices == old(notices)
        && commandCalls == old(commandCalls)
        && fallbackCalls == old(fallbackCalls) + (if hasFallback then 1 else 0)
      ensures !rejected ==>
        && inv != null && fresh(inv)
        && commandCalls == old(commandCalls) + 1 && fallbackCalls == old(fallbackCalls)
        && match FirstMark(command)
           case None =>
             && buckets == old(buckets) && state == old(state) && notices == old(notices)
             && !inv.done && inv.timer == Armed(Setting(perCallTimeout, timeout))
           case Some(m) =>
             && inv.done && inv.timer == None
             && MeasuredFrom(old(buckets), old(state), old(notices), m)
    {
      if IsOpenNow() {
        Fallback(hasFallback);
        rejected, inv := true, null;
      } else {
        inv := Execute(command, perCallTimeout);
        rejected := false;
      }
    }
  }
}
