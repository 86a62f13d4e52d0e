# circuit-breakerjs in Dafny

A verified model of the circuit breaker of `src/CircuitBreaker.js`.

The breaker counts the outcome of each wrapped call in the newest bucket of a sliding window of buckets. A bucket counts failures, successes, timeouts and outages. After every measured outcome the breaker re-evaluates its state, which is CLOSED, OPEN or HALF_OPEN:

- **Trip.** Outside HALF_OPEN the circuit opens and calls `onopen` when more than `calibration` calls are in the window and their error percentage exceeds `tolerance`.
- **Probe.** In HALF_OPEN a measurement either re-opens the circuit silently or closes it and calls `onclose`.
- **Rotation.** A periodic timer pushes a fresh bucket and drops the oldest once the window holds more than `bucketsNumber` buckets. Every `bucketsNumber + 1` ticks it turns OPEN into HALF_OPEN. The tick counter is not reset when the circuit opens, so the cooldown lasts anywhere from 1 tick (a circuit that opens with the counter at `bucketsNumber`) to `bucketsNumber + 1` ticks (with the counter at 0); `StateMachine.ProbeAfterCooldown` states this for every counter value.
- **Gate.** `run` rejects calls while OPEN: it runs the fallback and counts one outage. Otherwise it invokes the command with three one-shot resolution callbacks, and an optional timeout fires the third one.
- **Override.** `open` and `close` save the current state in `forced` and force OPEN or CLOSED; `reset` restores the saved state. Whether the saved state suppresses automatic transitions depends on the state that was saved, not on the one forced (see the quirks below).

Modules:

- `Wrappers`: `Option`, whose `None` stands for JavaScript's `undefined`.
- `Window` (`window.dfy`): buckets, recording an outcome in the current bucket, the metrics as sums over the window (`MetricsOf`), and the rotation (`Slide`). Its lemmas cover the soundness of the metrics, outages never counting, the exact effect of one recorded outcome, and the shape and metrics of a rotation.
- `StateMachine` (`state_machine.dfy`): the override guard (`Overrides`), the re-evaluation `_updateState` as a function `Evaluate` from state and window to the new state and the handler calls it makes, and the state part of `_tick` as `TickStep`. Its lemmas state the trip rule in integers, the HALF_OPEN probe rule, the undefined state acting as CLOSED, and the cooldown.
- `CircuitBreaker` (`breaker.dfy`): the `Breaker` class holds:
  - the configuration;
  - `buckets`, `state`, `forced` and `bucketIndex`;
  - a ghost log of `onopen`/`onclose` calls with the metrics passed to them;
  - ghost counters of command and fallback invocations.

  Each source method is a Dafny method whose postcondition ties the new state to the functions above. The per-call `status` record is the `Invocation` class.
- `Scenarios` (`scenarios.dfy`): client code that replays the situations of `test/js/sanity_test.js` against the contracts alone:
  - two failures (signalled or thrown) open the circuit and later calls are rejected;
  - after six ticks a successful probe closes the circuit, while a failing probe re-opens it;
  - two timer-fired timeouts trip the circuit and a late resolution is ignored;
  - `open` then `close` on a fresh breaker, as in the first sanity test: `close` saves OPEN, which is falsy, so the next call is re-evaluated as usual;
  - a forced OPEN rejects calls and runs the fallback; after `reset`, `close` on a CLOSED circuit saves CLOSED, a truthy override that suppresses tripping;
  - `reset` without an override leaves an undefined state, and the next call trips the circuit again.

Timers are replaced by calls from the environment:

- the rotation timer is `Breaker.Tick`;
- a per-call timeout firing is `Breaker.Mark(MarkTimeout, inv)`;
- a command that resolves later (a deferred command) resolves through a later `Mark` call.

A command, as the breaker can observe it during `run`, is the list of markers it calls synchronously plus whether it then throws (`Command`). Only the first marker, or the failure a throw causes, takes effect (`FirstMark`).

Quirks of the source that the model keeps as written:

- **OPEN is falsy.** The override guard is the truthiness of `forced`, and OPEN is 0. A forced state saved as OPEN therefore does not suppress transitions (`StateMachine.Overrides`). `close()` on an OPEN circuit, the usual way to end a forced OPEN, saves OPEN and leaves tripping active; `close()` on a CLOSED or HALF_OPEN circuit saves a truthy state that suppresses it.
- **`reset` can leave the state undefined.** Without a saved override, `reset` sets the state to undefined. That state is never OPEN (`Breaker.IsOpenNow`) and is evaluated like CLOSED (`StateMachine.UndefinedActsClosed`).
- **A late measurement while OPEN can re-trip.** It goes through the trip branch and can call `onopen` again (`StateMachine.TripRule` admits `state == Some(Open)`).
- **Rotation ignores overrides.** `_tick` does not look at `forced`, so a circuit forced OPEN is promoted to HALF_OPEN by the rotation like any other.
- **The probe rule reads buckets, not the last call.** It checks for no success in the current bucket and at least one error in the whole window.
- **HALF_OPEN does not admit just one probe.** It lets every call through until a measurement decides.
- **`run` returns nothing when it does not reject.** It has no `return` on the non-OPEN path, so the only observable result is whether the call was rejected (`rejected`).

## Model

| member | source | states |
|---|---|---|
| Window.CreateBucket | src/CircuitBreaker.js:225-234 | a fresh bucket has every counter at zero |
| Window.Record | src/CircuitBreaker.js:275-276 | `bucket[prop]++`: the chosen counter goes up by exactly one and every other counter is unchanged |
| Window.RecordLast | src/CircuitBreaker.js:328-329 | counting an outcome touches only the current (last) bucket: same length, every older bucket unchanged, exactly one counter of the last bucket incremented |
| Window.LastBucket | src/CircuitBreaker.js:240-242 | the current bucket is the newest one: the window is its older buckets followed by the result; `RecordLast` and `Slide` state what a measurement and a rotation do to it |
| Window.MetricsOf | src/CircuitBreaker.js:169-175 | total and error are the sums over the retained buckets, and percent is error's share of total in hundredths (error * 100 when total is 0, which is then 0) |
| Window.ErrorsWithinTotal | src/CircuitBreaker.js:169-173 | the summed errors never exceed the summed calls |
| Window.MetricsSound | src/CircuitBreaker.js:162-182 | `calculate`'s metrics are coherent: error <= total, percent within [0, 100], and total 0 gives error 0 and percent 0 |
| Window.PercentExceedsIff | src/CircuitBreaker.js:351 | `percent > tolerance` holds exactly when `error * 100 > tolerance * total` |
| Window.RecordLastMetrics | src/CircuitBreaker.js:264-284 | one measured outcome changes the metrics by exactly that outcome: a success adds one call, a failure or timeout one call and one error, an outage nothing |
| Window.OutageNeverCounts | src/CircuitBreaker.js:169-173 | an outage in any bucket of the window leaves all metrics unchanged |
| Window.Slide | src/CircuitBreaker.js:251-255 | push then shift: below the bound the window grows by one with every old bucket kept in place; at or above it the length stays and the buckets after the oldest move down by one; the newest bucket is a zero bucket |
| Window.SlideShape | src/CircuitBreaker.js:248-256 | a rotation keeps the window non-empty and within `bucketsNumber`, makes a zero bucket current, drops the oldest bucket exactly when the window was full, and leaves every surviving bucket unchanged |
| Window.SlideMetrics | src/CircuitBreaker.js:248-256 | after a rotation the sums are the old ones less the evicted bucket's share, and unchanged when nothing was evicted |
| StateMachine.Overrides | src/CircuitBreaker.js:278 | a saved override blocks re-evaluation exactly when it is defined and not OPEN (OPEN is 0 and falsy) |
| StateMachine.Evaluate | src/CircuitBreaker.js:336-360 | a re-evaluation never yields HALF_OPEN; it calls no handler, or `onopen` once with the window's metrics while turning a non-HALF_OPEN state OPEN, or `onclose` once with the metrics while turning HALF_OPEN into CLOSED; with no handler call outside HALF_OPEN the state is unchanged |
| StateMachine.TripRule | src/CircuitBreaker.js:350-359 | outside HALF_OPEN (CLOSED, undefined, or OPEN on a late resolution) the circuit opens and calls `onopen` once exactly when total > calibration and error * 100 > tolerance * total; otherwise nothing changes |
| StateMachine.HalfOpenProbe | src/CircuitBreaker.js:339-349 | in HALF_OPEN the circuit re-opens without a handler call when the current bucket has no success and the window has an error, and otherwise closes and calls `onclose` once |
| StateMachine.UndefinedActsClosed | src/CircuitBreaker.js:147-157 | an undefined state is not open, is never changed by a tick, and is evaluated with the same handler calls and open-ness as CLOSED |
| StateMachine.TickStep | src/CircuitBreaker.js:188-204 | a tick increments the bucket counter, or resets it to 0 once it passes `bucketsNumber`; the counter stays within bounds; the only state change is OPEN to HALF_OPEN at that reset; a non-OPEN state is never changed |
| StateMachine.StaysOpen | src/CircuitBreaker.js:195-201 | ticks that keep the counter within `bucketsNumber` leave an OPEN circuit OPEN, with the counter advanced by the number of ticks |
| StateMachine.ProbeAfterCooldown | src/CircuitBreaker.js:195-201 | an OPEN circuit stays OPEN for `bucketsNumber - index` ticks and is HALF_OPEN, with the counter at 0, after exactly one more |
| CircuitBreaker.Setting | src/CircuitBreaker.js:90-94 | a numeric option keeps its value when it is positive and otherwise takes the default |
| CircuitBreaker.Armed | src/CircuitBreaker.js:300-304 | a timeout timer is armed, with the effective timeout as delay, exactly when that timeout is positive |
| CircuitBreaker.FirstMark | src/CircuitBreaker.js:306-312 | the outcome measured for a command is its first synchronous marker call; failing that, a failure when it throws; otherwise nothing yet |
| CircuitBreaker.Invocation.constructor | src/CircuitBreaker.js:293-304 | a new invocation status is not done and holds the timer it was armed with |
| CircuitBreaker.Breaker.constructor | src/CircuitBreaker.js:86-104 | each option or its default 30000/10/50/5/0, one zero bucket, CLOSED, no override, counter 0, no handler or callback calls yet |
| CircuitBreaker.Breaker.IsOpenNow | src/CircuitBreaker.js:155-157 | true exactly in the OPEN state |
| CircuitBreaker.Breaker.MeasuredFrom | src/CircuitBreaker.js:275-280 | a counted marker adds one call to the sums, and one error unless it is a success; under a truthy override the state and handler log are unchanged; otherwise the state is not HALF_OPEN and at most one handler call is appended |
| CircuitBreaker.Breaker.ForceOpen | src/CircuitBreaker.js:131-134 | the current state is saved as the override and the state becomes OPEN |
| CircuitBreaker.Breaker.ForceClose | src/CircuitBreaker.js:139-142 | the current state is saved as the override and the state becomes CLOSED |
| CircuitBreaker.Breaker.Reset | src/CircuitBreaker.js:147-150 | the state becomes exactly the saved override (undefined when none was saved) and the override is cleared |
| CircuitBreaker.Breaker.Calculate | src/CircuitBreaker.js:162-182 | the loop returns exactly `MetricsOf(buckets)`: total = Σ(failure + timeout + success), error = Σ(failure + timeout), percent = error / max(total, 1) * 100 |
| CircuitBreaker.Breaker.CreateNextSlidingBucket | src/CircuitBreaker.js:248-256 | the window becomes `Slide(old window)` and the counter goes up by one; the window stays within `bucketsNumber` |
| CircuitBreaker.Breaker.Tick | src/CircuitBreaker.js:188-204 | the window is rotated and (counter, state) moves by `TickStep`; the object invariant is kept |
| CircuitBreaker.Breaker.UpdateState | src/CircuitBreaker.js:336-360 | the new state and the appended handler calls are those of `Evaluate` on the old state and the current window |
| CircuitBreaker.Breaker.Mark | src/CircuitBreaker.js:264-284 | a marker on a resolved invocation changes nothing; on a pending one it disarms the timer, marks the invocation done, adds one to its counter in the current bucket, and re-evaluates the state unless a truthy override is saved |
| CircuitBreaker.Breaker.Fallback | src/CircuitBreaker.js:320-330 | one outage is counted in the current bucket and the fallback, when given, is invoked once |
| CircuitBreaker.Breaker.Execute | src/CircuitBreaker.js:292-313 | the command is invoked exactly once; the invocation is resolved by `FirstMark` of the command, or stays pending with the effective timeout armed and nothing else changed |
| CircuitBreaker.Breaker.Run | src/CircuitBreaker.js:113-126 | rejected exactly when OPEN: then the command is not invoked, one outage is counted, the state and handler log are unchanged and the fallback runs; otherwise as `Execute` |
| Scenarios.TripMeasurement | src/CircuitBreaker.js:275-280 | a measurement outside HALF_OPEN with no truthy override adds one call (and one error unless a success) and opens the circuit with one `onopen` exactly when the trip condition holds |
| Scenarios.ProbeMeasurement | src/CircuitBreaker.js:339-349 | a probe into a successless current bucket closes the circuit with one `onclose` on a success and re-opens it silently on a failure or timeout |
| Scenarios.NewTestBreaker | test/js/sanity_test.js:65-97 | a breaker built from the test configuration has 5 buckets, tolerance 50, calibration 1, the given timeout, an empty window and is CLOSED with no override |
| Scenarios.RunClosed | src/CircuitBreaker.js:119-124 | one call on a CLOSED (or undefined) circuit with no truthy override invokes the command once, adds one call (and one error unless a success), and trips with one `onopen` exactly when the trip condition holds |
| Scenarios.OpenRejects | src/CircuitBreaker.js:119-121 | a call on an OPEN circuit does not invoke the command, runs the fallback if given, calls no handler and leaves the metrics unchanged |
| Scenarios.TwoFailuresOpen | test/js/sanity_test.js:99-125 | two failing calls, signalled or thrown, on a fresh test breaker open it with exactly one `onopen` and two command invocations, at 2 errors in 2 calls |
| Scenarios.FailingCommandsOpen | test/js/sanity_test.js:99-125 | for a command that calls `markFailure` and for one that throws, two calls open the breaker with one `onopen`, and the third and fourth calls leave it OPEN with the command still invoked only twice |
| Scenarios.RejectedWhileOpen | test/js/sanity_test.js:108-110 | calls on an OPEN breaker reach no command and call no handler |
| Scenarios.SucceedUndefined | test/js/sanity_test.js:149-152 | a successful call on an undefined state after two failures reaches the command and re-opens the circuit with a second `onopen` |
| Scenarios.ResetWithoutOverride | test/js/sanity_test.js:140-153 | after two failures, `reset` without an override leaves the state undefined, the next call reaches the command, and its success (2 errors in 3 calls) trips the circuit again |
| Scenarios.CoolDown | test/js/sanity_test.js:155-198 | six ticks after tripping leave the breaker HALF_OPEN with a zero current bucket |
| Scenarios.ProbeStep | src/CircuitBreaker.js:339-349 | one call from HALF_OPEN into a successless bucket invokes the command, closes with one `onclose` on a success and re-opens silently otherwise |
| Scenarios.ProbeSuccessCloses | test/js/sanity_test.js:155-168 | after the cooldown a successful probe closes the circuit: one `onopen`, then one `onclose` |
| Scenarios.ProbeFailureReopens | test/js/sanity_test.js:179-195 | after the cooldown a failing probe re-opens the circuit without `onclose`, and later calls are rejected |
| Scenarios.TimeoutFires | src/CircuitBreaker.js:300-304 | the timeout timer of a pending invocation on a CLOSED circuit with no truthy override marks it done, clears its timer, adds one call and one error, and trips with one `onopen` exactly when the trip condition holds |
| Scenarios.TimersTrip | test/js/sanity_test.js:283-299 | two deferred commands timed out at 100 ms after one success trip the circuit on the second timeout (2 errors in 3 calls) with one `onopen`; the late deferred success is ignored |
| Scenarios.OpenThenClose | test/js/sanity_test.js:37-44 | `open` rejects the first call; `close` then saves OPEN, a falsy override, so the next call reaches the command with re-evaluation active |
| Scenarios.ManualOverride | src/CircuitBreaker.js:131-150 | forced OPEN rejects and runs the fallback; `reset` restores CLOSED; `close` then saves CLOSED, and three failures are counted with no trip and no handler call |
| Scenarios.OverriddenFailure | src/CircuitBreaker.js:278-280 | under a truthy override a failure is counted but the circuit stays CLOSED without a handler call |

## Left out

- The UMD/AMD/CommonJS wrapper and exports, the `new`-enforcement trick and the `Function.prototype.bind` polyfill: module plumbing with no behaviour of the breaker.
- Real timers (`setTimeout`/`clearTimeout` of the rotation and of per-call timeouts): replaced by `Tick` and by `Mark(MarkTimeout, inv)` calls from the environment. The bucket period `slidingTimeWindow / bucketsNumber` is only a scheduling delay and is not modelled, so the model does not relate ticks to milliseconds.
- The bodies of `command`, `fallback`, `onopen` and `onclose`, which are foreign callbacks. The model records that they were invoked, and with which metrics for the handlers. An exception thrown by `fallback` is swallowed by the source and does not affect the breaker, so it is not modelled.
- JavaScript value coercion:
  - options and per-call timeouts are optional integers, so `isNaN`/`parseInt` on strings or fractions is not modelled;
  - a fractional option in (0, 1), which `parseInt` truncates to 0, is outside the model;
  - the argument shuffle of `run` when `fallback` is not a function is modelled by its result: a `hasFallback` flag and a separate per-call timeout.
- A second call of `initialize` on a constructed breaker is a no-op in the source. The model has only the constructor.
- Floating-point `percent`: the model computes it as an exact rational. IEEE rounding can differ only at exact-equality boundaries of `percent > tolerance`.
- Concurrency: the source runs on a single-threaded event loop. Each model method is one atomic event.
- Breaker.Run: the `undefined` result of the non-rejecting path is modelled as `rejected == false`.
- Breaker.Mark, Breaker.UpdateState, Breaker.Execute: the model assumes `onopen` and `onclose` return normally and do not call back into the breaker, and treats each measurement as one atomic step. In the source, `status.done` is set only after `_updateState` has returned. A handler that throws therefore leaves the invocation pending, so a later marker counts it again. When the marker was called synchronously by the command, the exception reaches `_execute`'s catch, which counts an extra failure. A handler that calls `open`, `close`, `reset` or `run` re-entrantly changes the state in the middle of the step. The postconditions of these members (and of `StateMachine.Evaluate`) hold only under this assumption.
- The `status.timer` handle is modelled as the armed delay (`Option<nat>`) rather than a timer identity.
