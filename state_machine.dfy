/**
 * The circuit's state machine as functions on values: the re-evaluation that
 * follows every measurement (`_updateState`) and the state part of a rotation
 * tick (`_tick`).
 */
module StateMachine {
  import opened Wrappers
  import opened Window

  /** STATE: OPEN is 0, HALF_OPEN is 1, CLOSED is 2. */
  datatype Phase = Open | HalfOpen | Closed

  /** A handler invocation, with the metrics snapshot the handler receives. */
  datatype Notice = OnOpen(metrics: Metrics) | OnClose(metrics: Metrics)

  /** The outcome of one re-evaluation: the new state and the handlers it invoked. */
  datatype Step = Step(state: Option<Phase>, notices: seq<Notice>)

  /** The bucket counter and state a rotation tick acts on. */
  datatype Clock = Clock(index: nat, state: Option<Phase>)

  /**
   * The guard `!this.forced` negated: a saved override suppresses automatic
   * transitions only when it is truthy. OPEN is 0 and therefore falsy.
   */
  function Overrides(forced: Option<Phase>): (r: bool)
    ensures r <==> forced != None && forced != Some(Open)
  {
    match forced
    case Some(HalfOpen) => true
    case Some(Closed) => true
    case _ => false
  }

  /**
   * The trip condition: more than `calibration` calls and an error ratio
   * above `tolerance` percent, compared in integers (see `PercentExceedsIff`).
   */
  predicate Deviates(error: nat, total: nat, tolerance: nat, calibration: nat)
  {
    total > calibration && error * 100 > tolerance * total
  }

  /** `_updateState`: the state and handler calls that follow a measurement. */
  function Evaluate(state: Option<Phase>, buckets: seq<Bucket>, tolerance: nat, calibration: nat): (r: Step)
    requires |buckets| > 0
    ensures r.state != Some(HalfOpen)
    ensures r.notices == []
         || (r.notices == [OnOpen(MetricsOf(buckets))] && r.state == Some(Open) && state != Some(HalfOpen))
         || (r.notices == [OnClose(MetricsOf(buckets))] && r.state == Some(Closed) && state == Some(HalfOpen))
    ensures r.notices == [] && state != Some(HalfOpen) ==> r.state == state
  {
    var metrics := MetricsOf(buckets);
    if state == Some(HalfOpen) then
      var lastCommandFailed := LastBucket(buckets).success == 0 && 0 < metrics.error;
      if lastCommandFailed then Step(Some(Open), [])
      else Step(Some(Closed), [OnClose(metrics)])
    else if metrics.total > calibration && metrics.percent > tolerance as real then
      Step(Some(Open), [OnOpen(metrics)])
    else
      Step(state, [])
  }

  /**
   * Outside HALF_OPEN (CLOSED, undefined, or OPEN when a late call resolves)
   * a measurement opens the circuit and calls `onopen` exactly when more than
   * `calibration` calls are in the window and their error ratio exceeds
   * `tolerance` percent; otherwise nothing happens.
   */
  lemma TripRule(state: Option<Phase>, buckets: seq<Bucket>, tolerance: nat, calibration: nat)
    requires |buckets| > 0 && state != Some(HalfOpen)
    ensures var r := Evaluate(state, buckets, tolerance, calibration);
      if Deviates(ErrorSum(buckets), TotalSum(buckets), tolerance, calibration)
      then r == Step(Some(Open), [OnOpen(MetricsOf(buckets))])
      else r == Step(state, [])
  {
    ErrorsWithinTotal(buckets);
    PercentExceedsIff(ErrorSum(buckets), TotalSum(buckets), tolerance);
  }

  /**
   * In HALF_OPEN a measurement is a probe: the circuit re-opens, silently,
   * when the current bucket holds no success and the window holds an error;
   * otherwise it closes and calls `onclose` once.
   */
  lemma HalfOpenProbe(buckets: seq<Bucket>, tolerance: nat, calibration: nat)
    requires |buckets| > 0
    ensures var r := Evaluate(Some(HalfOpen), buckets, tolerance, calibration);
      if LastBucket(buckets).success == 0 && ErrorSum(buckets) > 0
      then r == Step(Some(Open), [])
      else r == Step(Some(Closed), [OnClose(MetricsOf(buckets))])
  {
  }

  /**
   * An undefined state (left by `reset` without an override) is evaluated
   * with the same handler calls and open-ness as CLOSED, though a
   * measurement that does not trip leaves it undefined; no tick changes it.
   */
  lemma UndefinedActsClosed(buckets: seq<Bucket>, tolerance: nat, calibration: nat, clock: nat, n: nat)
    requires |buckets| > 0
    ensures Evaluate(None, buckets, tolerance, calibration).notices
         == Evaluate(Some(Closed), buckets, tolerance, calibration).notices
    ensures Evaluate(None, buckets, tolerance, calibration).state == Some(Open)
        <==> Evaluate(Some(Closed), buckets, tolerance, calibration).state == Some(Open)
    ensures TickStep(Clock(clock, None), n).state == None
  {
  }

  /**
   * The state part of `_tick`: the bucket counter advances, and once it
   * exceeds `n` it restarts at 0 and an OPEN circuit becomes HALF_OPEN.
   */
  function TickStep(c: Clock, n: nat): (r: Clock)
    ensures c.index <= n ==> r.index <= n
    ensures r.index == c.index + 1 || (r.index == 0 && c.index + 1 > n)
    ensures r.state != c.state ==> c.state == Some(Open) && r.state == Some(HalfOpen) && r.index == 0
    ensures c.state != Some(Open) ==> r.state == c.state
  {
    var index := c.index + 1;
    if index > n then
      Clock(0, if c.state == Some(Open) then Some(HalfOpen) else c.state)
    else
      Clock(index, c.state)
  }

  /** `k` consecutive ticks. */
  function Ticks(c: Clock, n: nat, k: nat): Clock
  {
    if k == 0 then c else TickStep(Ticks(c, n, k - 1), n)
  }

  /** Before the counter passes `n`, ticks leave an OPEN circuit open. */
  lemma {:induction false} StaysOpen(c: Clock, n: nat, k: nat)
    requires c.state == Some(Open) && c.index + k <= n
    ensures Ticks(c, n, k) == Clock(c.index + k, Some(Open))
  {
    if k > 0 {
      StaysOpen(c, n, k - 1);
    }
  }

  /**
   * The cooldown: an OPEN circuit whose counter stands at `c.index` stays
   * OPEN for `n - c.index` ticks and becomes HALF_OPEN on the next one, so a
   * probe is let through after at most `n + 1` ticks.
   */
  lemma ProbeAfterCooldown(c: Clock, n: nat)
    requires c.state == Some(Open) && c.index <= n
    ensures Ticks(c, n, n + 1 - c.index) == Clock(0, Some(HalfOpen))
    ensures forall k :: 0 <= k <= n - c.index ==> Ticks(c, n, k).state == Some(Open)
  {
    StaysOpen(c, n, n - c.index);
    forall k | 0 <= k <= n - c.index
      ensures Ticks(c, n, k).state == Some(Open)
    {
      StaysOpen(c, n, k);
    }
  }
}
