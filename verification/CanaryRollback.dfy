/** The rollback controller of the canary harness: one response at a time, over any
    stream of latencies. */
module CanaryRollback {
  import opened Numbers
  import opened Ranks
  import opened Outcomes

  const WINDOW: nat := 100
  const EVALUATE_EVERY: nat := 20
  const FIRST_EVALUATION: nat := 5
  const OBSERVE_AFTER: nat := 70

  // ---------------------------------------------------------------- windows and percentiles

  /** `_latency_bucket_from_ns`: the lower bound of the bucket, in milliseconds. */
  function LatencyBucket(ns: nat): nat {
    if ns < 10_000_000 then 0
    else if ns < 50_000_000 then 10
    else if ns < 100_000_000 then 50
    else if ns < 250_000_000 then 100
    else 250
  }

  /** `_percentile_bucket_lower_ms` at the 95th percentile. */
  function Percentile95(buckets: seq<nat>): int
  {
    if buckets == [] then 0
    else
      var ordered := Sorted(buckets);
      SortedLength(buckets);
      ordered[Max(0, Min(|ordered| - 1, (|ordered| * 950_000 + 999_999) / 1_000_000 - 1))]
  }

  function LastOf(s: seq<nat>, n: nat): seq<nat> {
    if |s| < n then s else s[|s| - n..]
  }

  datatype Window = Window(breach: bool, consecutive: nat, errors: nat, p95: int)

  /** `_evaluate_rollback` */
  function EvaluateRollback(statuses: seq<nat>, buckets: seq<nat>, responses: nat, consecutive: nat): (bool, Option<Window>) {
    if responses % EVALUATE_EVERY != 0 || |statuses| < WINDOW then (false, None)
    else
      var window := LastOf(statuses, WINDOW);
      var errors := CountAtLeast(window, 500);
      var p95 := Percentile95(LastOf(buckets, WINDOW));
      var breach := errors as real / WINDOW as real >= 0.2 || p95 >= 50;
      var next := if breach then consecutive + 1 else 0;
      (next >= 3, Some(Window(breach, next, errors, p95)))
  }

  // ---------------------------------------------------------------- what a breach is

  /** The 100 responses before the k-th evaluation, which comes after 20 k responses. */
  function WindowAt(s: seq<nat>, k: nat): seq<nat>
    requires FIRST_EVALUATION <= k && 20 * k <= |s|
  {
    s[20 * k - WINDOW..20 * k]
  }

  predicate Breach(statusWindow: seq<nat>, latencyWindow: seq<nat>) {
    CountAtLeast(statusWindow, 500) >= 20 || CountAtLeast(latencyWindow, 50) >= 6
  }

  predicate BreachAt(statuses: seq<nat>, buckets: seq<nat>, k: nat)
    requires FIRST_EVALUATION <= k && 20 * k <= |statuses| && 20 * k <= |buckets|
  {
    Breach(WindowAt(statuses, k), WindowAt(buckets, k))
  }

  lemma PercentileIndex(buckets: seq<nat>)
    requires |buckets| == WINDOW
    ensures |Sorted(buckets)| == WINDOW && Percentile95(buckets) == Sorted(buckets)[94]
  {
    SortedLength(buckets);
    assert (WINDOW * 950_000 + 999_999) / 1_000_000 == 95;
  }

  /** The nearest-rank percentile of 100 buckets reaches 50 ms exactly when at least
      six of them do. */
  lemma PercentileMeaning(buckets: seq<nat>)
    requires |buckets| == WINDOW
    ensures Percentile95(buckets) >= 50 <==> CountAtLeast(buckets, 50) >= 6
  {
    PercentileIndex(buckets);
    RankOf(buckets, 94, 50);
  }

  lemma LastWindow(s: seq<nat>, k: nat)
    requires |s| == 20 * k && k >= FIRST_EVALUATION
    ensures LastOf(s, WINDOW) == WindowAt(s, k) && |LastOf(s, WINDOW)| == WINDOW
  {
  }

  lemma ErrorRateMeaning(errors: nat)
    ensures errors as real / WINDOW as real >= 0.2 <==> errors >= 20
  {
  }

  lemma EvaluationIsDue(k: nat)
    ensures (20 * k) % EVALUATE_EVERY == 0
  {
  }

  /** The verdict on two full windows. */
  lemma VerdictMeaning(statuses: seq<nat>, buckets: seq<nat>)
    requires |statuses| == |buckets| == WINDOW
    ensures CountAtLeast(statuses, 500) as real / WINDOW as real >= 0.2 || Percentile95(buckets) >= 50
            <==> Breach(statuses, buckets)
  {
    ErrorRateMeaning(CountAtLeast(statuses, 500));
    PercentileMeaning(buckets);
  }

  /** An evaluated window breaches exactly when at least 20 of its 100 responses are
      errors or at least 6 of them took 50 ms or more. */
  lemma BreachMeaning(statuses: seq<nat>, buckets: seq<nat>, consecutive: nat, k: nat)
    requires |statuses| == |buckets| == 20 * k && k >= FIRST_EVALUATION
    ensures var (trigger, window) := EvaluateRollback(statuses, buckets, 20 * k, consecutive);
            && window.Some?
            && (window.value.breach <==> BreachAt(statuses, buckets, k))
            && window.value.consecutive == (if BreachAt(statuses, buckets, k) then consecutive + 1 else 0)
            && (trigger <==> window.value.consecutive >= 3)
  {
    EvaluationIsDue(k);
    LastWindow(statuses, k);
    LastWindow(buckets, k);
    VerdictMeaning(WindowAt(statuses, k), WindowAt(buckets, k));
  }

  /** The recorded windows count consecutive breaches. */
  predicate Chained(windows: seq<Window>) {
    forall i | 0 <= i < |windows| :: ChainedAt(windows, i)
  }

  predicate ChainedAt(windows: seq<Window>, i: nat)
    requires i < |windows|
  {
    var before := if i == 0 then 0 else windows[i - 1].consecutive;
    windows[i].consecutive == if windows[i].breach then before + 1 else 0
  }

  /** The trigger condition holds at a recorded window exactly when the last three
      recorded windows all breach. */
  lemma TriggerMeaning(windows: seq<Window>, i: nat)
    requires Chained(windows) && i < |windows|
    ensures windows[i].consecutive >= 3 <==>
            i >= 2 && windows[i].breach && windows[i - 1].breach && windows[i - 2].breach
  {
    assert ChainedAt(windows, i);
    if i >= 1 {
      assert ChainedAt(windows, i - 1);
    }
    if i >= 2 {
      assert ChainedAt(windows, i - 2);
    }
  }

  // ---------------------------------------------------------------- the controlled stream

  /** Measured latency of the j-th canary response, in nanoseconds, with the fault
      off or on. */
  type Latency = (nat, bool) -> nat

  /** State after some canary responses. `latch` is the index of the recorded window
      at which the rollback fired; window i is evaluated after 20 (i + 5) responses. */
  datatype Controller = Controller(
    statuses: seq<nat>, buckets: seq<nat>, windows: seq<Window>, consecutive: nat, latch: Option<nat>)

  const INITIAL := Controller([], [], [], 0, None)

  /** Number of responses at which window i is evaluated. */
  function ResponsesAt(i: nat): nat {
    20 * (i + FIRST_EVALUATION)
  }

  /** The fault is on from the first response of the fault tick until a rollback
      that comes after it; a rollback that came before it is spent. */
  predicate FaultOn(faultTick: nat, latch: Option<nat>, j: nat) {
    j >= 2 * faultTick && !(latch.Some? && 2 * faultTick < ResponsesAt(latch.value) <= j)
  }

  /** The faulted canary answers every fourth request with 503; `j` counts from zero. */
  function Status(j: nat, on: bool): nat {
    if on && (j + 1) % 4 == 0 then 503 else 200
  }

  function Respond(c: Controller, faultTick: nat, latency: Latency): Controller {
    var j := |c.statuses|;
    var on := FaultOn(faultTick, c.latch, j);
    var statuses := c.statuses + [Status(j, on)];
    var buckets := c.buckets + [LatencyBucket(latency(j, on))];
    var (trigger, window) := EvaluateRollback(statuses, buckets, |statuses|, c.consecutive);
    if window.None? then c.(statuses := statuses, buckets := buckets)
    else Controller(statuses, buckets, c.windows + [window.value], window.value.consecutive,
                    if trigger && c.latch.None? then Some(|c.windows|) else c.latch)
  }

  /** `h` lists the controller states before each response and after the last. */
  predicate IsStream(h: seq<Controller>, faultTick: nat, latency: Latency) {
    && h != [] && h[0] == INITIAL
    && forall j: nat | j + 1 < |h| :: IsStep(h, j, faultTick, latency)
  }

  predicate IsStep(h: seq<Controller>, j: nat, faultTick: nat, latency: Latency)
    requires j + 1 < |h|
  {
    h[j + 1] == Respond(h[j], faultTick, latency)
  }

  function Stream(faultTick: nat, latency: Latency, n: nat): (h: seq<Controller>)
    ensures |h| == n + 1
  {
    if n == 0 then [INITIAL]
    else
      var h := Stream(faultTick, latency, n - 1);
      h + [Respond(h[n - 1], faultTick, latency)]
  }

  lemma {:induction false} StreamIsStream(faultTick: nat, latency: Latency, n: nat)
    ensures IsStream(Stream(faultTick, latency, n), faultTick, latency)
  {
    if n > 0 {
      var g := Stream(faultTick, latency, n - 1);
      StreamIsStream(faultTick, latency, n - 1);
      StreamGrows(g, Respond(g[n - 1], faultTick, latency), faultTick, latency);
    }
  }

  lemma StreamGrows(h: seq<Controller>, d: Controller, faultTick: nat, latency: Latency)
    requires IsStream(h, faultTick, latency) && d == Respond(h[|h| - 1], faultTick, latency)
    ensures IsStream(h + [d], faultTick, latency)
  {
    var g := h + [d];
    forall j: nat | j + 1 < |g| ensures IsStep(g, j, faultTick, latency) {
      if j + 1 < |h| {
        assert IsStep(h, j, faultTick, latency);
      }
    }
  }

  /** The responses of the stream in closed form. */
  predicate Responses(c: Controller, faultTick: nat, latency: Latency, n: nat) {
    && |c.statuses| == |c.buckets| == n
    && (forall j | 0 <= j < n :: c.statuses[j] == Status(j, FaultOn(faultTick, c.latch, j)))
    && (forall j | 0 <= j < n :: c.buckets[j] == LatencyBucket(latency(j, FaultOn(faultTick, c.latch, j))))
  }

  /** Exactly `count` evaluations come after the first n responses. */
  predicate Due(count: nat, n: nat) {
    (if count == 0 then 0 else ResponsesAt(count - 1)) <= n < ResponsesAt(count)
  }

  /** Every full window was recorded, with the right verdict. */
  predicate Recorded(c: Controller, n: nat)
    requires |c.statuses| == |c.buckets| == n
  {
    && Due(|c.windows|, n)
    && forall i | 0 <= i < |c.windows| :: RecordedAt(c, n, i)
  }

  /** A latch at window l is the first window that triggers. */
  predicate FirstTrigger(windows: seq<Window>, latch: Option<nat>) {
    match latch
    case None => forall i | 0 <= i < |windows| :: windows[i].consecutive < 3
    case Some(l) => l < |windows| && windows[l].consecutive >= 3 && forall i | 0 <= i < l :: windows[i].consecutive < 3
  }

  /** The rollback latched at the first window that triggers. */
  predicate Latched(c: Controller) {
    && Chained(c.windows)
    && c.consecutive == (if c.windows == [] then 0 else c.windows[|c.windows| - 1].consecutive)
    && FirstTrigger(c.windows, c.latch)
  }

  predicate Described(c: Controller, faultTick: nat, latency: Latency, n: nat) {
    Responses(c, faultTick, latency, n) && Recorded(c, n) && Latched(c)
  }

  /** `d` is the state after response n, given to a controller in state `c`. */
  predicate Next(c: Controller, d: Controller, faultTick: nat, latency: Latency, n: nat)
    requires |c.statuses| == |c.buckets| == n
  {
    var on := FaultOn(faultTick, c.latch, n);
    && d.statuses == c.statuses + [Status(n, on)]
    && d.buckets == c.buckets + [LatencyBucket(latency(n, on))]
    && if n + 1 == ResponsesAt(|c.windows|) then
         && |d.windows| == |c.windows| + 1 && d.windows[..|c.windows|] == c.windows
         && var w := d.windows[|c.windows|];
            && (w.breach <==> BreachAt(d.statuses, d.buckets, |c.windows| + FIRST_EVALUATION))
            && w.consecutive == d.consecutive == (if w.breach then c.consecutive + 1 else 0)
            && d.latch == if w.consecutive >= 3 && c.latch.None? then Some(|c.windows|) else c.latch
       else d.windows == c.windows && d.consecutive == c.consecutive && d.latch == c.latch
  }

  /** One response leads to the next state: only every twentieth one is evaluated,
      and its window is the one that is due. */
  lemma RespondNext(c: Controller, faultTick: nat, latency: Latency, n: nat)
    requires |c.statuses| == |c.buckets| == n && Due(|c.windows|, n)
    ensures Next(c, Respond(c, faultTick, latency), faultTick, latency, n)
  {
    var d := Respond(c, faultTick, latency);
    var k := |c.windows| + FIRST_EVALUATION;
    if n + 1 == 20 * k {
      BreachMeaning(d.statuses, d.buckets, c.consecutive, k);
    } else {
      NotAnEvaluation(n + 1, k);
    }
  }

  lemma NotAnEvaluation(m: nat, k: nat)
    requires m < WINDOW || 20 * (k - 1) < m < 20 * k
    ensures m < WINDOW || m % EVALUATE_EVERY != 0
  {
  }

  lemma BreachStable(s: seq<nat>, b: seq<nat>, x: nat, y: nat, k: nat)
    requires FIRST_EVALUATION <= k && 20 * k <= |s| && 20 * k <= |b|
    ensures BreachAt(s + [x], b + [y], k) == BreachAt(s, b, k)
  {
    assert WindowAt(s + [x], k) == WindowAt(s, k);
    assert WindowAt(b + [y], k) == WindowAt(b, k);
  }

  lemma NextKeepsResponses(c: Controller, d: Controller, faultTick: nat, latency: Latency, n: nat)
    requires Responses(c, faultTick, latency, n) && Recorded(c, n)
    requires c.latch.Some? ==> c.latch.value < |c.windows|
    requires Next(c, d, faultTick, latency, n)
    ensures Responses(d, faultTick, latency, n + 1)
  {
    forall j | 0 <= j <= n ensures FaultOn(faultTick, d.latch, j) == FaultOn(faultTick, c.latch, j) {
    }
  }

  /** The recorded verdict of window i is the one of its 100 responses. */
  predicate RecordedAt(c: Controller, n: nat, i: nat)
    requires |c.statuses| == |c.buckets| == n && i < |c.windows|
  {
    ResponsesAt(i) <= n && c.windows[i].breach == BreachAt(c.statuses, c.buckets, i + FIRST_EVALUATION)
  }

  lemma NextKeepsRecordAt(c: Controller, d: Controller, faultTick: nat, latency: Latency, n: nat, i: nat)
    requires |c.statuses| == |c.buckets| == n && i < |c.windows| && RecordedAt(c, n, i)
    requires Next(c, d, faultTick, latency, n)
    ensures i < |d.windows| && RecordedAt(d, n + 1, i)
  {
    assert d.windows[..|c.windows|] == c.windows;
    assert d.windows[..|c.windows|][i] == c.windows[i];
    BreachStable(c.statuses, c.buckets, d.statuses[n], d.buckets[n], i + FIRST_EVALUATION);
  }

  lemma NextKeepsRecord(c: Controller, d: Controller, faultTick: nat, latency: Latency, n: nat)
    requires |c.statuses| == |c.buckets| == n && Recorded(c, n)
    requires Next(c, d, faultTick, latency, n)
    ensures Recorded(d, n + 1)
  {
    var m := n + 1;
    forall i: nat | i < |d.windows| ensures RecordedAt(d, m, i) {
      if i < |c.windows| {
        assert RecordedAt(c, n, i);
        NextKeepsRecordAt(c, d, faultTick, latency, n, i);
      }
    }
  }

  lemma ChainGrows(windows: seq<Window>, w: Window)
    requires Chained(windows) && ChainedAt(windows + [w], |windows|)
    ensures Chained(windows + [w])
  {
    var longer := windows + [w];
    forall i | 0 <= i < |longer| ensures ChainedAt(longer, i) {
      if i < |windows| {
        assert ChainedAt(windows, i);
      }
    }
  }

  lemma TriggerGrows(windows: seq<Window>, latch: Option<nat>, w: Window)
    requires FirstTrigger(windows, latch)
    ensures FirstTrigger(windows + [w], if w.consecutive >= 3 && latch.None? then Some(|windows|) else latch)
  {
  }

  lemma NextKeepsLatch(c: Controller, d: Controller, faultTick: nat, latency: Latency, n: nat)
    requires |c.statuses| == |c.buckets| == n && Latched(c)
    requires Next(c, d, faultTick, latency, n)
    ensures Latched(d)
  {
    if n + 1 == ResponsesAt(|c.windows|) {
      var w := d.windows[|c.windows|];
      assert d.windows == c.windows + [w];
      ChainGrows(c.windows, w);
      TriggerGrows(c.windows, c.latch, w);
    }
  }

  lemma StreamNext(h: seq<Controller>, faultTick: nat, latency: Latency, n: nat)
    requires IsStream(h, faultTick, latency) && n + 1 < |h| && |h[n].statuses| == |h[n].buckets| == n && Due(|h[n].windows|, n)
    ensures Next(h[n], h[n + 1], faultTick, latency, n)
  {
    assert IsStep(h, n, faultTick, latency);
    RespondNext(h[n], faultTick, latency, n);
  }

  lemma InitialDescribed(faultTick: nat, latency: Latency)
    ensures Described(INITIAL, faultTick, latency, 0)
  {
  }

  lemma {:induction false} StreamDescribed(h: seq<Controller>, faultTick: nat, latency: Latency, n: nat)
    requires IsStream(h, faultTick, latency) && n < |h|
    ensures Described(h[n], faultTick, latency, n)
  {
    if n == 0 {
      InitialDescribed(faultTick, latency);
    } else {
      StreamDescribed(h, faultTick, latency, n - 1);
      StreamNext(h, faultTick, latency, n - 1);
      DescribedNext(h[n - 1], h[n], faultTick, latency, n - 1);
    }
  }

  lemma DescribedNext(c: Controller, d: Controller, faultTick: nat, latency: Latency, n: nat)
    requires Described(c, faultTick, latency, n) && Next(c, d, faultTick, latency, n)
    ensures Described(d, faultTick, latency, n + 1)
  {
    NextKeepsResponses(c, d, faultTick, latency, n);
    NextKeepsRecord(c, d, faultTick, latency, n);
    NextKeepsLatch(c, d, faultTick, latency, n);
  }

  /** `u`, after m responses, is what became of the latch `t` after n. */
  predicate LatchFollows(t: Option<nat>, u: Option<nat>, n: nat, m: nat) {
    && (t.Some? ==> u == t)
    && (t.None? && u.Some? ==> n < ResponsesAt(u.value) <= m)
  }

  lemma LatchFollowsNext(h: seq<Controller>, faultTick: nat, latency: Latency, n: nat)
    requires IsStream(h, faultTick, latency) && n + 1 < |h|
    ensures LatchFollows(h[n].latch, h[n + 1].latch, n, n + 1)
  {
    StreamDescribed(h, faultTick, latency, n);
    StreamNext(h, faultTick, latency, n);
  }

  /** The rollback latches once: more responses never change it, and a later latch
      comes from a later response. */
  lemma {:induction false} LatchesOnce(h: seq<Controller>, faultTick: nat, latency: Latency, n: nat, m: nat)
    requires IsStream(h, faultTick, latency) && n <= m < |h|
    ensures LatchFollows(h[n].latch, h[m].latch, n, m)
    decreases m
  {
    if n < m {
      LatchesOnce(h, faultTick, latency, n, m - 1);
      LatchFollowsNext(h, faultTick, latency, m - 1);
    }
  }

  // ---------------------------------------------------------------- counting errors

  /** Exact number of errors in a stretch of the stream: the multiples of four
      since the fault, in one-based positions. */
  lemma {:induction false} ErrorCount(statuses: seq<nat>, faultTick: nat, lo: nat, c: nat)
    requires lo <= c <= |statuses|
    requires forall j | 0 <= j < c :: statuses[j] == Status(j, j >= 2 * faultTick)
    ensures CountAtLeast(statuses[lo..c], 500) ==
            if c <= 2 * faultTick then 0 else c / 4 - Max(lo, 2 * faultTick) / 4
    decreases c
  {
    if lo < c {
      ErrorCount(statuses, faultTick, lo, c - 1);
      assert statuses[lo..c][..c - lo - 1] == statuses[lo..c - 1];
      assert statuses[c - 1] == Status(c - 1, c - 1 >= 2 * faultTick);
    } else {
      assert statuses[lo..c] == [];
    }
  }

  /** Slow responses in a window are at most the responses since the fault. */
  lemma {:induction false} SlowCount(buckets: seq<nat>, faultTick: nat, lo: nat, c: nat)
    requires lo <= c <= |buckets|
    requires forall j | 0 <= j < c && j < 2 * faultTick :: buckets[j] < 50
    ensures CountAtLeast(buckets[lo..c], 50) <= Max(0, c - 2 * faultTick)
    decreases c
  {
    if lo < c {
      SlowCount(buckets, faultTick, lo, c - 1);
      assert buckets[lo..c][..c - lo - 1] == buckets[lo..c - 1];
    } else {
      assert buckets[lo..c] == [];
    }
  }

  /** Of the multiples of four in a window, at least 20 lie in its last x responses
      exactly when x is at least 77. */
  lemma FourthsInWindow(k: nat, faultTick: nat)
    requires k >= FIRST_EVALUATION
    ensures 20 * k > 2 * faultTick ==>
              (20 * k / 4 - Max(20 * k - WINDOW, 2 * faultTick) / 4 >= 20 <==> 20 * k >= 2 * faultTick + 77)
  {
    assert 20 * k / 4 == 5 * k;
    assert (20 * k - WINDOW) / 4 == 5 * k - 25;
  }

  /** Up to the latch the fault is on exactly from the fault tick. */
  lemma FaultBeforeLatch(c: Controller, faultTick: nat, latency: Latency, n: nat, k: nat)
    requires Responses(c, faultTick, latency, n) && 20 * k <= n
    requires c.latch.None? || ResponsesAt(c.latch.value) >= 20 * k
    ensures forall j | 0 <= j < 20 * k :: c.statuses[j] == Status(j, j >= 2 * faultTick)
    ensures forall j | 0 <= j < 20 * k :: c.buckets[j] == LatencyBucket(latency(j, j >= 2 * faultTick))
  {
    forall j | 0 <= j < 20 * k ensures FaultOn(faultTick, c.latch, j) == (j >= 2 * faultTick) {
    }
  }

  /** Errors of the window before the k-th evaluation. */
  lemma WindowErrors(c: Controller, faultTick: nat, latency: Latency, n: nat, k: nat)
    requires Responses(c, faultTick, latency, n) && FIRST_EVALUATION <= k && 20 * k <= n
    requires c.latch.None? || ResponsesAt(c.latch.value) >= 20 * k
    ensures CountAtLeast(WindowAt(c.statuses, k), 500) >= 20 <==> 20 * k >= 2 * faultTick + 77
  {
    FaultBeforeLatch(c, faultTick, latency, n, k);
    ErrorCount(c.statuses, faultTick, 20 * k - WINDOW, 20 * k);
    FourthsInWindow(k, faultTick);
  }

  /** The unfaulted canary answers within 50 ms. */
  ghost predicate FastWhenHealthy(latency: Latency) {
    forall j: nat {:trigger latency(j, false)} :: latency(j, false) < 50_000_000
  }

  lemma WindowOfPrefix(s: seq<nat>, k: nat)
    requires FIRST_EVALUATION <= k && 20 * k <= |s|
    ensures s[..20 * k][20 * k - WINDOW..20 * k] == WindowAt(s, k)
  {
  }

  /** A window with fewer than six responses since the fault has fewer than six slow ones. */
  lemma WindowSlow(c: Controller, faultTick: nat, latency: Latency, n: nat, k: nat)
    requires Responses(c, faultTick, latency, n) && FastWhenHealthy(latency)
    requires c.latch.None? || ResponsesAt(c.latch.value) >= 20 * k
    requires FIRST_EVALUATION <= k && 20 * k <= n && 20 * k < 2 * faultTick + 6
    ensures CountAtLeast(WindowAt(c.buckets, k), 50) < 6
  {
    FaultBeforeLatch(c, faultTick, latency, n, k);
    forall j | 0 <= j < 20 * k && j < 2 * faultTick ensures c.buckets[j] < 50 {
      assert c.buckets[j] == LatencyBucket(latency(j, false));
    }
    SlowCount(c.buckets[..20 * k], faultTick, 20 * k - WINDOW, 20 * k);
    WindowOfPrefix(c.buckets, k);
  }

  // ---------------------------------------------------------------- the deadline

  /** The k-th evaluation is the first at which errors alone are enough. */
  predicate FirstSure(faultTick: nat, k: nat) {
    FirstFrom(2 * faultTick + 77, k)
  }

  /** The k-th evaluation is the first that comes after at least `bound` responses. */
  predicate FirstFrom(bound: nat, k: nat) {
    FIRST_EVALUATION <= k && 20 * k >= bound && (k == FIRST_EVALUATION || 20 * (k - 1) < bound)
  }

  lemma FirstSureExists(faultTick: nat) returns (k: nat)
    ensures FirstSure(faultTick, k)
  {
    k := FIRST_EVALUATION;
    while 20 * k < 2 * faultTick + 77
      invariant FIRST_EVALUATION <= k && (k == FIRST_EVALUATION || 20 * (k - 1) < 2 * faultTick + 77)
    {
      k := k + 1;
    }
  }

  /** Every window evaluated from 77 responses after the fault until the rollback breaches. */
  predicate SureWindowsBreach(c: Controller, faultTick: nat) {
    forall i | 0 <= i < |c.windows| && ResponsesAt(i) >= 2 * faultTick + 77 && (c.latch.None? || i <= c.latch.value) ::
      c.windows[i].breach
  }

  lemma SureWindows(c: Controller, faultTick: nat, latency: Latency, n: nat)
    requires Described(c, faultTick, latency, n)
    ensures SureWindowsBreach(c, faultTick)
  {
    forall i | 0 <= i < |c.windows| && ResponsesAt(i) >= 2 * faultTick + 77 && (c.latch.None? || i <= c.latch.value)
      ensures c.windows[i].breach
    {
      assert RecordedAt(c, n, i);
      WindowErrors(c, faultTick, latency, n, i + FIRST_EVALUATION);
    }
  }

  /** Three windows in a row that breach latch the rollback, if nothing did before. */
  lemma ThreeBreachesLatch(c: Controller, i: nat)
    requires Latched(c) && i + 2 < |c.windows|
    requires c.latch.None? || c.latch.value > i + 2 ==>
               c.windows[i].breach && c.windows[i + 1].breach && c.windows[i + 2].breach
    ensures c.latch.Some? && c.latch.value <= i + 2
  {
    TriggerMeaning(c.windows, i + 2);
  }

  lemma SureLatch(c: Controller, faultTick: nat, n: nat, i: nat)
    requires Latched(c) && Due(|c.windows|, n) && SureWindowsBreach(c, faultTick)
    requires ResponsesAt(i) >= 2 * faultTick + 77 && n >= ResponsesAt(i + 2)
    ensures c.latch.Some? && c.latch.value <= i + 2
  {
    ThreeBreachesLatch(c, i);
  }

  /** Whatever the latencies, once 77 responses have been seen since the fault the
      windows breach until the rollback, and it fires no later than the third. */
  lemma LatchedByDeadline(h: seq<Controller>, faultTick: nat, latency: Latency, n: nat, k: nat)
    requires IsStream(h, faultTick, latency) && n < |h|
    requires FirstSure(faultTick, k) && n >= 20 * k + 40
    ensures var l := h[n].latch;
            l.Some? && ResponsesAt(l.value) <= 20 * k + 40
  {
    StreamDescribed(h, faultTick, latency, n);
    SureWindows(h[n], faultTick, latency, n);
    SureLatch(h[n], faultTick, n, k - FIRST_EVALUATION);
  }

  /** The tick of a rollback at window `latch`: two canary responses are made per tick. */
  function TickOf(latch: nat): nat {
    10 * latch + 49
  }

  /** The last response of that tick is the one after which the window is evaluated. */
  lemma TickOfResponses(latch: nat)
    ensures 2 * (TickOf(latch) + 1) == ResponsesAt(latch)
  {
  }

  function Deadline(faultTick: nat): nat {
    Max(69, faultTick + 67)
  }

  /** A latch that follows from windows breaching in a row comes at least 22 ticks
      after the fault. */
  lemma NoEarlyLatch(c: Controller, faultTick: nat, latency: Latency, n: nat)
    requires Described(c, faultTick, latency, n) && FastWhenHealthy(latency) && c.latch.Some?
    ensures TickOf(c.latch.value) >= faultTick + 22
  {
    var l := c.latch.value;
    TriggerMeaning(c.windows, l);
    var k := l - 2 + FIRST_EVALUATION;
    assert RecordedAt(c, n, l - 2);
    if 20 * k < 2 * faultTick + 6 {
      WindowSlow(c, faultTick, latency, n, k);
      WindowErrors(c, faultTick, latency, n, k);
    }
  }

  /** Rollback deadline, for every fault tick and every latency that is fast while
      the canary is healthy: the rollback fires, at the end of a tick that is no
      earlier than 22 ticks after the fault and no later than the deadline, which
      never exceeds the 69 ticks the program assumes. */
  lemma RollbackDeadline(h: seq<Controller>, faultTick: nat, latency: Latency, n: nat)
    requires IsStream(h, faultTick, latency) && n < |h|
    requires FastWhenHealthy(latency) && n >= 2 * Deadline(faultTick) + 2
    ensures var l := h[n].latch;
            l.Some? && faultTick + 22 <= TickOf(l.value) <= Deadline(faultTick) <= faultTick + 69
  {
    var k := FirstSureExists(faultTick);
    LatchedByDeadline(h, faultTick, latency, n, k);
    StreamDescribed(h, faultTick, latency, n);
    NoEarlyLatch(h[n], faultTick, latency, n);
  }

  /** No breach is recorded before the fault. */
  lemma NoBreachBeforeFault(c: Controller, faultTick: nat, latency: Latency, n: nat, i: nat)
    requires Described(c, faultTick, latency, n) && FastWhenHealthy(latency)
    requires i < |c.windows| && ResponsesAt(i) <= 2 * faultTick
    ensures !c.windows[i].breach
  {
    if c.latch.Some? {
      NoEarlyLatch(c, faultTick, latency, n);
    }
    assert RecordedAt(c, n, i);
    WindowErrors(c, faultTick, latency, n, i + FIRST_EVALUATION);
    WindowSlow(c, faultTick, latency, n, i + FIRST_EVALUATION);
  }

  /** Without slow responses a window breaches exactly from 77 responses since the fault. */
  lemma FastWindow(c: Controller, faultTick: nat, latency: Latency, n: nat, k: nat)
    requires Responses(c, faultTick, latency, n)
    requires forall j: nat, on: bool :: latency(j, on) < 50_000_000
    requires c.latch.None? || ResponsesAt(c.latch.value) >= 20 * k
    requires FIRST_EVALUATION <= k && 20 * k <= n
    ensures BreachAt(c.statuses, c.buckets, k) <==> 20 * k >= 2 * faultTick + 77
  {
    FaultBeforeLatch(c, faultTick, latency, n, k);
    WindowErrors(c, faultTick, latency, n, k);
    var w := WindowAt(c.buckets, k);
    forall i | 0 <= i < |w| ensures w[i] < 50 {
      var j := 20 * k - WINDOW + i;
      assert w[i] == c.buckets[j] == LatencyBucket(latency(j, j >= 2 * faultTick));
    }
    NoneAtLeast(w, 50);
  }

  /** Up to the rollback exactly the windows from `bound` responses on breach. */
  predicate BreachesExactlyFrom(c: Controller, bound: nat) {
    forall i | 0 <= i < |c.windows| && (c.latch.None? || i <= c.latch.value) ::
      c.windows[i].breach <==> ResponsesAt(i) >= bound
  }

  lemma FastWindows(c: Controller, faultTick: nat, latency: Latency, n: nat)
    requires Described(c, faultTick, latency, n)
    requires forall j: nat, on: bool :: latency(j, on) < 50_000_000
    ensures BreachesExactlyFrom(c, 2 * faultTick + 77)
  {
    forall i | 0 <= i < |c.windows| && (c.latch.None? || i <= c.latch.value)
      ensures c.windows[i].breach <==> ResponsesAt(i) >= 2 * faultTick + 77
    {
      assert RecordedAt(c, n, i);
      FastWindow(c, faultTick, latency, n, i + FIRST_EVALUATION);
    }
  }

  /** Then the rollback fires two evaluations after the first that breaches. */
  lemma LatchFromBound(c: Controller, n: nat, bound: nat, i: nat)
    requires Latched(c) && Due(|c.windows|, n) && BreachesExactlyFrom(c, bound)
    requires FirstFrom(bound, i + FIRST_EVALUATION) && n >= ResponsesAt(i + 2)
    ensures c.latch == Some(i + 2)
  {
    ThreeBreachesLatch(c, i);
    TriggerMeaning(c.windows, c.latch.value);
  }

  /** The rollback fires two evaluations after the first at which errors are enough:
      at fault tick 0 in tick 69, at fault ticks 2, 12, 22, ... 67 ticks after the fault. */
  predicate LatestLatch(latch: Option<nat>, faultTick: nat) {
    && latch.Some?
    && FirstSure(faultTick, latch.value + 3)
    && TickOf(latch.value) <= Deadline(faultTick)
    && (faultTick == 0 || faultTick % 10 == 2 ==> TickOf(latch.value) == Deadline(faultTick))
  }

  lemma SureArithmetic(faultTick: nat, k: nat)
    requires FirstSure(faultTick, k)
    ensures 10 * k + 19 <= Deadline(faultTick)
    ensures faultTick == 0 || faultTick % 10 == 2 ==> 10 * k + 19 == Deadline(faultTick)
  {
  }

  /** The deadline is attained: if no response is ever slow, only errors count, and
      the rollback fires as late as it ever can. */
  lemma DeadlineIsTight(h: seq<Controller>, faultTick: nat, latency: Latency, n: nat)
    requires IsStream(h, faultTick, latency) && n < |h|
    requires forall j: nat, on: bool :: latency(j, on) < 50_000_000
    requires n >= 2 * Deadline(faultTick) + 2
    ensures LatestLatch(h[n].latch, faultTick)
  {
    var k := FirstSureExists(faultTick);
    SureArithmetic(faultTick, k);
    StreamDescribed(h, faultTick, latency, n);
    FastWindows(h[n], faultTick, latency, n);
    LatchFromBound(h[n], n, 2 * faultTick + 77, k - FIRST_EVALUATION);
  }

  // ---------------------------------------------------------------- the release profile

  /** The faulted canary takes at least 50 ms, as the 80 ms delay of a release run makes it. */
  ghost predicate SlowWhenFaulted(latency: Latency) {
    forall j: nat {:trigger latency(j, true)} :: latency(j, true) >= 50_000_000
  }

  lemma {:induction false} SlowCountExact(buckets: seq<nat>, faultTick: nat, lo: nat, c: nat)
    requires lo <= c <= |buckets|
    requires forall j | 0 <= j < c :: buckets[j] >= 50 <==> j >= 2 * faultTick
    ensures CountAtLeast(buckets[lo..c], 50) == Max(0, c - Max(lo, 2 * faultTick))
    decreases c
  {
    if lo < c {
      SlowCountExact(buckets, faultTick, lo, c - 1);
      assert buckets[lo..c][..c - lo - 1] == buckets[lo..c - 1];
    } else {
      assert buckets[lo..c] == [];
    }
  }

  /** When exactly the faulted responses are slow, six of them make a breach. */
  lemma SlowWindow(c: Controller, faultTick: nat, latency: Latency, n: nat, k: nat)
    requires Responses(c, faultTick, latency, n) && FastWhenHealthy(latency) && SlowWhenFaulted(latency)
    requires c.latch.None? || ResponsesAt(c.latch.value) >= 20 * k
    requires FIRST_EVALUATION <= k && 20 * k <= n
    ensures BreachAt(c.statuses, c.buckets, k) <==> 20 * k >= 2 * faultTick + 6
  {
    FaultBeforeLatch(c, faultTick, latency, n, k);
    WindowErrors(c, faultTick, latency, n, k);
    var buckets := c.buckets[..20 * k];
    forall j | 0 <= j < 20 * k ensures buckets[j] >= 50 <==> j >= 2 * faultTick {
      assert c.buckets[j] == LatencyBucket(latency(j, j >= 2 * faultTick));
    }
    SlowCountExact(buckets, faultTick, 20 * k - WINDOW, 20 * k);
    WindowOfPrefix(c.buckets, k);
  }

  lemma SlowWindows(c: Controller, faultTick: nat, latency: Latency, n: nat)
    requires Described(c, faultTick, latency, n) && FastWhenHealthy(latency) && SlowWhenFaulted(latency)
    ensures BreachesExactlyFrom(c, 2 * faultTick + 6)
  {
    forall i | 0 <= i < |c.windows| && (c.latch.None? || i <= c.latch.value)
      ensures c.windows[i].breach <==> ResponsesAt(i) >= 2 * faultTick + 6
    {
      assert RecordedAt(c, n, i);
      SlowWindow(c, faultTick, latency, n, i + FIRST_EVALUATION);
    }
  }

  /** A faulted canary that is always slow is rolled back two evaluations after the
      first that follows its sixth response, far before the deadline. */
  lemma SlowFaultTrigger(h: seq<Controller>, faultTick: nat, latency: Latency, n: nat, k: nat)
    requires IsStream(h, faultTick, latency) && n < |h|
    requires FastWhenHealthy(latency) && SlowWhenFaulted(latency)
    requires FirstFrom(2 * faultTick + 6, k) && n >= 20 * (k + 2)
    ensures h[n].latch == Some(k + 2 - FIRST_EVALUATION) && TickOf(h[n].latch.value) == 10 * k + 19
  {
    StreamDescribed(h, faultTick, latency, n);
    SlowWindows(h[n], faultTick, latency, n);
    LatchFromBound(h[n], n, 2 * faultTick + 6, k - FIRST_EVALUATION);
  }

  /** In the release profile the fault comes at tick 300 and the rollback at tick 329,
      not at the tick 369 that is recorded. */
  lemma ReleaseTrigger(h: seq<Controller>, latency: Latency)
    requires IsStream(h, 300, latency) && |h| == 2 * 1200 + 1
    requires FastWhenHealthy(latency) && SlowWhenFaulted(latency)
    ensures h[2400].latch.Some? && TickOf(h[2400].latch.value) == 329
  {
    SlowFaultTrigger(h, 300, latency, 2400, 31);
  }

  // ---------------------------------------------------------------- rollbacks before the fault

  /** The latency buckets of the first n responses of a canary that stays healthy. */
  function HealthyBuckets(latency: Latency, n: nat): (s: seq<nat>)
    ensures |s| == n
  {
    seq<nat>(n, j requires 0 <= j => LatencyBucket(latency(j, false)))
  }

  /** At least six of the 100 responses before the k-th evaluation are slow although
      the canary is healthy. */
  predicate HealthySlow(latency: Latency, k: nat)
    requires k >= FIRST_EVALUATION
  {
    CountAtLeast(WindowAt(HealthyBuckets(latency, 20 * k), k), 50) >= 6
  }

  /** Three windows in a row, from window i on, are slow before the fault tick. */
  predicate EarlyTriple(faultTick: nat, latency: Latency, i: nat) {
    && ResponsesAt(i + 2) <= 2 * faultTick
    && HealthySlow(latency, i + FIRST_EVALUATION)
    && HealthySlow(latency, i + 1 + FIRST_EVALUATION)
    && HealthySlow(latency, i + 2 + FIRST_EVALUATION)
  }

  /** Before the fault a window breaches exactly when the healthy canary was slow in it. */
  lemma EarlyWindow(c: Controller, faultTick: nat, latency: Latency, n: nat, i: nat)
    requires Described(c, faultTick, latency, n)
    requires i < |c.windows| && ResponsesAt(i) <= 2 * faultTick && (c.latch.None? || i <= c.latch.value)
    ensures c.windows[i].breach <==> HealthySlow(latency, i + FIRST_EVALUATION)
  {
    var k := i + FIRST_EVALUATION;
    assert RecordedAt(c, n, i);
    FaultBeforeLatch(c, faultTick, latency, n, k);
    WindowErrors(c, faultTick, latency, n, k);
    var healthy := HealthyBuckets(latency, 20 * k);
    forall j | 0 <= j < 20 * k ensures c.buckets[j] == healthy[j] {
      assert c.buckets[j] == LatencyBucket(latency(j, j >= 2 * faultTick));
    }
    assert WindowAt(c.buckets, k) == WindowAt(healthy, k);
  }

  /** The rollback comes before the fault exactly when, before the fault tick, the
      healthy canary is slow in three evaluated windows in a row. */
  lemma EarlyLatchExactly(h: seq<Controller>, faultTick: nat, latency: Latency, n: nat)
    requires IsStream(h, faultTick, latency) && n < |h| && n >= 2 * faultTick
    ensures (h[n].latch.Some? && ResponsesAt(h[n].latch.value) <= 2 * faultTick) <==> exists i: nat :: EarlyTriple(faultTick, latency, i)
  {
    StreamDescribed(h, faultTick, latency, n);
    var c := h[n];
    if c.latch.Some? && ResponsesAt(c.latch.value) <= 2 * faultTick {
      var l := c.latch.value;
      TriggerMeaning(c.windows, l);
      EarlyWindow(c, faultTick, latency, n, l - 2);
      EarlyWindow(c, faultTick, latency, n, l - 1);
      EarlyWindow(c, faultTick, latency, n, l);
      assert EarlyTriple(faultTick, latency, l - 2);
    }
    if i: nat :| EarlyTriple(faultTick, latency, i) {
      TripleLatches(c, faultTick, latency, n, i);
    }
  }

  lemma TripleLatches(c: Controller, faultTick: nat, latency: Latency, n: nat, i: nat)
    requires Described(c, faultTick, latency, n) && n >= 2 * faultTick && EarlyTriple(faultTick, latency, i)
    ensures c.latch.Some? && c.latch.value <= i + 2
  {
    if c.latch.None? || c.latch.value > i + 2 {
      EarlyWindow(c, faultTick, latency, n, i);
      EarlyWindow(c, faultTick, latency, n, i + 1);
      EarlyWindow(c, faultTick, latency, n, i + 2);
    }
    ThreeBreachesLatch(c, i);
  }

  lemma {:induction false} AllAtLeast(s: seq<nat>, v: nat)
    requires forall i | 0 <= i < |s| :: s[i] >= v
    ensures CountAtLeast(s, v) == |s|
  {
    if s != [] {
      AllAtLeast(s[..|s| - 1], v);
    }
  }

  /** A canary that takes 50 ms or more while healthy is slow in every window. */
  lemma AlwaysSlow(latency: Latency, k: nat)
    requires k >= FIRST_EVALUATION && forall j: nat :: latency(j, false) >= 50_000_000
    ensures HealthySlow(latency, k)
  {
    var w := WindowAt(HealthyBuckets(latency, 20 * k), k);
    forall i | 0 <= i < |w| ensures w[i] >= 50 {
      assert w[i] == LatencyBucket(latency(20 * k - WINDOW + i, false));
    }
    AllAtLeast(w, 50);
  }
}
