/**
 * The windowed metrics store of the circuit breaker: buckets of outcome
 * counters, the aggregate metrics computed over them, and the rotation that
 * slides the window by one bucket.
 */
module Window {

  /** The four outcome kinds a bucket counts (MEASURE in the source). */
  datatype Kind = Failure | Success | Timeout | Outage

  /** One time slice of the sliding window. */
  datatype Bucket = Bucket(failure: nat, success: nat, timeout: nat, outage: nat)

  /** The aggregate metrics: `percent` is the error ratio in percent. */
  datatype Metrics = Metrics(total: nat, error: nat, percent: real)

  /** The counter of kind `k` in bucket `b`. */
  function Count(b: Bucket, k: Kind): nat
  {
    match k
    case Failure => b.failure
    case Success => b.success
    case Timeout => b.timeout
    case Outage => b.outage
  }

  /** A fresh bucket, every counter zero. */
  function CreateBucket(): (b: Bucket)
    ensures forall k: Kind :: Count(b, k) == 0
  {
    Bucket(0, 0, 0, 0)
  }

  /** `bucket[prop]++`: one more outcome of kind `k`, nothing else changes. */
  function Record(b: Bucket, k: Kind): (r: Bucket)
    ensures Count(r, k) == Count(b, k) + 1
    ensures forall j: Kind :: j != k ==> Count(r, j) == Count(b, j)
  {
    match k
    case Failure => b.(failure := b.failure + 1)
    case Success => b.(success := b.success + 1)
    case Timeout => b.(timeout := b.timeout + 1)
    case Outage => b.(outage := b.outage + 1)
  }

  /** The current bucket: the newest one, at the end of the window. */
  function LastBucket(s: seq<Bucket>): (r: Bucket)
    requires |s| > 0
    ensures s == s[..|s| - 1] + [r]
  {
    s[|s| - 1]
  }

  /** The window after one outcome of kind `k` was counted in its current bucket. */
  function RecordLast(s: seq<Bucket>, k: Kind): (r: seq<Bucket>)
    requires |s| > 0
    ensures |r| == |s| && r[..|s| - 1] == s[..|s| - 1]
    ensures Count(LastBucket(r), k) == Count(LastBucket(s), k) + 1
    ensures forall j: Kind :: j != k ==> Count(LastBucket(r), j) == Count(LastBucket(s), j)
  {
    s[..|s| - 1] + [Record(LastBucket(s), k)]
  }

  /** The errors a bucket contributes: failures and timeouts. */
  function Errors(b: Bucket): nat
  {
    b.failure + b.timeout
  }

  /** The calls a bucket contributes: failures, timeouts and successes. */
  function Calls(b: Bucket): nat
  {
    b.failure + b.timeout + b.success
  }

  /** The sum of `Errors` over the window. */
  function ErrorSum(s: seq<Bucket>): nat
  {
    if s == [] then 0 else ErrorSum(s[..|s| - 1]) + Errors(s[|s| - 1])
  }

  /** The sum of `Calls` over the window. */
  function TotalSum(s: seq<Bucket>): nat
  {
    if s == [] then 0 else TotalSum(s[..|s| - 1]) + Calls(s[|s| - 1])
  }

  /** `error / max(total, 1) * 100`, in exact rational arithmetic. */
  function Percent(error: nat, total: nat): real
  {
    (error as real / (if total > 0 then total else 1) as real) * 100.0
  }

  /** The metrics of a window, as `calculate` reports them. */
  function MetricsOf(s: seq<Bucket>): (r: Metrics)
    ensures r.total == TotalSum(s) && r.error == ErrorSum(s)
    ensures r.total > 0 ==> r.percent * r.total as real == r.error as real * 100.0
    ensures r.total == 0 ==> r.percent == r.error as real * 100.0
  {
    var total := TotalSum(s);
    var error := ErrorSum(s);
    Metrics(total, error, Percent(error, total))
  }

  /** The error count never exceeds the total, so the percentage is within [0, 100]. */
  lemma {:induction false} ErrorsWithinTotal(s: seq<Bucket>)
    ensures ErrorSum(s) <= TotalSum(s)
  {
    if s != [] {
      ErrorsWithinTotal(s[..|s| - 1]);
    }
  }

  /** A ratio of a non-negative value to a larger positive one lies within [0, 1]. */
  lemma RatioAtMostOne(a: real, t: real)
    requires 0.0 <= a <= t && 0.0 < t
    ensures 0.0 <= a / t <= 1.0
  {
    var q := a / t;
    assert q * t == a;
  }

  /** The metrics of any window are coherent: error <= total, percent in [0, 100], and 0 when total is 0. */
  lemma MetricsSound(s: seq<Bucket>)
    ensures MetricsOf(s).error <= MetricsOf(s).total
    ensures MetricsOf(s).total == 0 ==> MetricsOf(s).error == 0 && MetricsOf(s).percent == 0.0
    ensures 0.0 <= MetricsOf(s).percent <= 100.0
  {
    ErrorsWithinTotal(s);
    var m := MetricsOf(s);
    if m.total > 0 {
      RatioAtMostOne(m.error as real, m.total as real);
    }
  }

  /** The comparison `percent > tolerance` is the integer comparison `error * 100 > tolerance * total`. */
  lemma PercentExceedsIff(error: nat, total: nat, tolerance: nat)
    requires error <= total
    ensures Percent(error, total) > tolerance as real <==> error * 100 > tolerance * total
  {
    if total > 0 {
      var t := total as real;
      var q := error as real / t;
      assert q * t == error as real;
      assert Percent(error, total) == q * 100.0;
      assert (error * 100) as real == q * 100.0 * t;
      assert (tolerance * total) as real == tolerance as real * t;
    }
  }

  /** Summing peeled from the front: the oldest bucket's share comes off first. */
  lemma {:induction false} SumsFromFront(s: seq<Bucket>)
    requires |s| > 0
    ensures TotalSum(s) == Calls(s[0]) + TotalSum(s[1..])
    ensures ErrorSum(s) == Errors(s[0]) + ErrorSum(s[1..])
  {
    if |s| > 1 {
      var init := s[..|s| - 1];
      SumsFromFront(init);
      assert init[1..] == s[1..][..|s[1..]| - 1];
    }
  }

  /** Sums over a concatenation add up. */
  lemma {:induction false} SumsAppend(s: seq<Bucket>, t: seq<Bucket>)
    ensures TotalSum(s + t) == TotalSum(s) + TotalSum(t)
    ensures ErrorSum(s + t) == ErrorSum(s) + ErrorSum(t)
  {
    if t == [] {
      assert s + t == s;
    } else {
      var init := t[..|t| - 1];
      SumsAppend(s, init);
      assert (s + t)[..|s + t| - 1] == s + init;
    }
  }

  /**
   * Counting one outcome of kind `k` in the current bucket changes the
   * metrics by exactly that outcome: a success adds one call, a failure or a
   * timeout one call and one error, an outage nothing at all.
   */
  lemma RecordLastMetrics(s: seq<Bucket>, k: Kind)
    requires |s| > 0
    ensures TotalSum(RecordLast(s, k)) == TotalSum(s) + (if k == Outage then 0 else 1)
    ensures ErrorSum(RecordLast(s, k)) == ErrorSum(s) + (if k == Failure || k == Timeout then 1 else 0)
  {
    var r := RecordLast(s, k);
    assert r[..|r| - 1] == s[..|s| - 1];
  }

  /** Outages never count: an outage anywhere in the window leaves the metrics as they were. */
  lemma {:induction false} OutageNeverCounts(s: seq<Bucket>, i: nat)
    requires i < |s|
    ensures MetricsOf(s[i := Record(s[i], Outage)]) == MetricsOf(s)
  {
    var r := s[i := Record(s[i], Outage)];
    if i < |s| - 1 {
      OutageNeverCounts(s[..|s| - 1], i);
      assert r[..|r| - 1] == s[..|s| - 1][i := Record(s[i], Outage)];
    } else {
      assert r[..|r| - 1] == s[..|s| - 1];
    }
  }

  /**
   * The rotation of `_createNextSlidingBucket`: push a fresh bucket and, once
   * the window is longer than `n`, shift the oldest one out.
   */
  function Slide(s: seq<Bucket>, n: nat): (r: seq<Bucket>)
    ensures |s| < n ==> |r| == |s| + 1 && r[..|s|] == s
    ensures |s| >= n ==> |r| == |s| && (0 < |s| ==> r[..|s| - 1] == s[1..])
    ensures 0 < |r| ==> LastBucket(r) == CreateBucket()
  {
    var pushed := s + [CreateBucket()];
    if |pushed| > n then pushed[1..] else pushed
  }

  /**
   * A rotation of a window within its bound keeps it within the bound, makes
   * a zero bucket current, drops the oldest bucket exactly when the window was
   * full, and leaves every surviving bucket as it was.
   */
  lemma SlideShape(s: seq<Bucket>, n: nat)
    requires 0 < n && |s| <= n
    ensures var r := Slide(s, n);
      && 0 < |r| <= n
      && LastBucket(r) == CreateBucket()
      && (|s| < n ==> r[..|r| - 1] == s)
      && (|s| == n ==> r[..|r| - 1] == s[1..])
  {
  }

  /** The metrics after a rotation: those of the old window, less the evicted bucket's share. */
  lemma SlideMetrics(s: seq<Bucket>, n: nat)
    requires 0 < n && 0 < |s| <= n
    ensures TotalSum(Slide(s, n)) == TotalSum(s) - (if |s| == n then Calls(s[0]) else 0)
    ensures ErrorSum(Slide(s, n)) == ErrorSum(s) - (if |s| == n then Errors(s[0]) else 0)
  {
    var pushed := s + [CreateBucket()];
    SumsAppend(s, [CreateBucket()]);
    assert [CreateBucket()][..0] == [];
    if |pushed| > n {
      SumsFromFront(pushed);
    }
  }
}
