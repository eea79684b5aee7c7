/** The window generator of the reviewed metric source: complete timestamps, the
    intervals without large gaps, and the stride-aligned windows inside them. */
module DejavuWindows {

  // ---------------------------------------------------------------- complete timestamps

  type Metric = string

  /** The recorded metrics of one service: its timestamps, each once, in any order. */
  type Values = seq<(int, set<Metric>)>

  predicate DistinctKeys(values: Values) {
    forall i, j | 0 <= i < j < |values| :: values[i].0 != values[j].0
  }

  function Insert(t: int, s: seq<int>): seq<int> {
    if s == [] || t <= s[0] then [t] + s else [s[0]] + Insert(t, s[1..])
  }

  /** `_complete_timestamps`: the sorted timestamps that have every metric. */
  function CompleteTimestamps(values: Values, metrics: set<Metric>): seq<int> {
    if values == [] then []
    else
      var last := values[|values| - 1];
      var rest := CompleteTimestamps(values[..|values| - 1], metrics);
      if metrics <= last.1 then Insert(last.0, rest) else rest
  }

  predicate Increasing(s: seq<int>) {
    forall i, j | 0 <= i < j < |s| :: s[i] < s[j]
  }

  lemma {:induction false} InsertKeeps(t: int, s: seq<int>)
    requires Increasing(s) && t !in s
    ensures Increasing(Insert(t, s))
    ensures forall x :: x in Insert(t, s) <==> x == t || x in s
  {
    if s != [] && t > s[0] {
      InsertKeeps(t, s[1..]);
      assert s == [s[0]] + s[1..];
      forall x | x in Insert(t, s[1..]) ensures s[0] < x {
      }
      PrependIncreasing(s[0], Insert(t, s[1..]));
    } else if s != [] {
      assert t != s[0];
      PrependIncreasing(t, s);
    }
  }

  lemma PrependIncreasing(t: int, s: seq<int>)
    requires Increasing(s) && forall x | x in s :: t < x
    ensures Increasing([t] + s)
  {
    var r := [t] + s;
    forall i, j | 0 <= i < j < |r| ensures r[i] < r[j] {
      assert r[j] == s[j - 1];
      if i > 0 {
        assert r[i] == s[i - 1];
      } else {
        assert s[j - 1] in s;
      }
    }
  }

  lemma AppendIncreasing(s: seq<int>, t: int)
    requires Increasing(s) && forall x | x in s :: x < t
    ensures Increasing(s + [t])
  {
    var r := s + [t];
    forall i, j | 0 <= i < j < |r| ensures r[i] < r[j] {
      assert r[i] == s[i] && s[i] in s;
    }
  }

  /** Each complete timestamp is there once, in order, and no other is. */
  lemma {:induction false} CompleteTimestampsAre(values: Values, metrics: set<Metric>)
    requires DistinctKeys(values)
    ensures Increasing(CompleteTimestamps(values, metrics))
    ensures forall t :: t in CompleteTimestamps(values, metrics) <==>
                        exists i :: 0 <= i < |values| && values[i].0 == t && metrics <= values[i].1
  {
    if values != [] {
      var n := |values| - 1;
      CompleteTimestampsAre(values[..n], metrics);
      var rest := CompleteTimestamps(values[..n], metrics);
      if metrics <= values[n].1 {
        InsertKeeps(values[n].0, rest);
      }
      forall t ensures t in CompleteTimestamps(values, metrics) <==>
                       exists i :: 0 <= i < |values| && values[i].0 == t && metrics <= values[i].1
      {
        if t in rest {
          var i :| 0 <= i < n && values[..n][i].0 == t && metrics <= values[..n][i].1;
          assert values[i].0 == t && metrics <= values[i].1;
        }
        if i :| 0 <= i < |values| && values[i].0 == t && metrics <= values[i].1 {
          if i < n {
            assert values[..n][i].0 == t && metrics <= values[..n][i].1;
          }
        }
      }
    }
  }

  // ---------------------------------------------------------------- continuity

  datatype Interval = Interval(start: int, end: int)

  predicate Within(iv: Interval, t: int) {
    iv.start <= t <= iv.end
  }

  function IntervalsFrom(start: int, previous: int, rest: seq<int>, gap: int): (ivs: seq<Interval>)
    ensures ivs != []
    decreases |rest|
  {
    if rest == [] then [Interval(start, previous)]
    else if rest[0] - previous > gap then [Interval(start, previous)] + IntervalsFrom(rest[0], rest[0], rest[1..], gap)
    else IntervalsFrom(start, rest[0], rest[1..], gap)
  }

  function Continuity(ts: seq<int>, gap: int): seq<Interval> {
    if ts == [] then [] else IntervalsFrom(ts[0], ts[0], ts[1..], gap)
  }

  /** `_continuity_intervals` */
  method ContinuityIntervals(ts: seq<int>, gap: int) returns (intervals: seq<Interval>)
    ensures intervals == Continuity(ts, gap)
  {
    intervals := [];
    if ts == [] {
      return;
    }
    var start, previous := ts[0], ts[0];
    for i := 1 to |ts|
      invariant Continuity(ts, gap) == intervals + IntervalsFrom(start, previous, ts[i..], gap)
    {
      var t := ts[i];
      assert ts[i..][1..] == ts[i + 1..];
      if t - previous > gap {
        intervals := intervals + [Interval(start, previous)];
        start := t;
      }
      previous := t;
    }
    intervals := intervals + [Interval(start, previous)];
  }

  /** The intervals follow one another, each more than the limit after the last. */
  predicate Apart(ivs: seq<Interval>, gap: int) {
    && (forall k | 0 <= k < |ivs| :: ivs[k].start <= ivs[k].end)
    && (forall j, k | 0 <= j < k < |ivs| :: ivs[j].end < ivs[k].start && ivs[k].start - ivs[j].end > gap)
  }

  predicate Covered(ivs: seq<Interval>, t: int) {
    exists k :: 0 <= k < |ivs| && Within(ivs[k], t)
  }

  /** The i-th timestamp and the next, if both are in the interval, are within the limit. */
  predicate CloseAt(ts: seq<int>, iv: Interval, gap: int, i: nat)
    requires i + 1 < |ts|
  {
    Within(iv, ts[i]) && Within(iv, ts[i + 1]) ==> ts[i + 1] - ts[i] <= gap
  }

  predicate GapFree(ts: seq<int>, iv: Interval, gap: int) {
    forall i: nat | i + 1 < |ts| :: CloseAt(ts, iv, gap, i)
  }

  predicate AllCovered(ivs: seq<Interval>, ts: seq<int>) {
    forall t | t in ts :: Covered(ivs, t)
  }

  predicate AllGapFree(ivs: seq<Interval>, ts: seq<int>, gap: int) {
    forall k | 0 <= k < |ivs| :: GapFree(ts, ivs[k], gap)
  }

  /** Every interval begins and ends at a timestamp. */
  predicate EndsAreTimestamps(ivs: seq<Interval>, ts: seq<int>) {
    forall k | 0 <= k < |ivs| :: ivs[k].start in ts && ivs[k].end in ts
  }

  predicate Partition(ivs: seq<Interval>, ts: seq<int>, gap: int) {
    Apart(ivs, gap) && AllCovered(ivs, ts) && AllGapFree(ivs, ts, gap)
  }

  lemma ApartPrepend(iv: Interval, ivs: seq<Interval>, gap: int)
    requires iv.start <= iv.end && Apart(ivs, gap) && ivs != []
    requires iv.end < ivs[0].start && ivs[0].start - iv.end > gap
    ensures Apart([iv] + ivs, gap)
  {
    var all := [iv] + ivs;
    forall j, k | 0 <= j < k < |all| ensures all[j].end < all[k].start && all[k].start - all[j].end > gap {
      assert all[k] == ivs[k - 1];
      if j == 0 {
        assert ivs[0].start <= ivs[k - 1].start;
      } else {
        assert all[j] == ivs[j - 1];
      }
    }
  }

  lemma CoveredPrepend(iv: Interval, ivs: seq<Interval>, t: int)
    requires Within(iv, t) || Covered(ivs, t)
    ensures Covered([iv] + ivs, t)
  {
    var all := [iv] + ivs;
    if Within(iv, t) {
      assert Within(all[0], t);
    } else {
      var k :| 0 <= k < |ivs| && Within(ivs[k], t);
      assert Within(all[k + 1], t);
    }
  }

  lemma GapFreePrepend(previous: int, rest: seq<int>, iv: Interval, gap: int)
    requires GapFree(rest, iv, gap)
    requires rest != [] && Within(iv, previous) && Within(iv, rest[0]) ==> rest[0] - previous <= gap
    ensures GapFree([previous] + rest, iv, gap)
  {
    var ts := [previous] + rest;
    forall i: nat | i + 1 < |ts| ensures CloseAt(ts, iv, gap, i) {
      if i > 0 {
        assert CloseAt(rest, iv, gap, i - 1);
      }
    }
  }

  lemma GapFreeOutside(ts: seq<int>, iv: Interval, gap: int)
    requires forall t | t in ts :: iv.end < t
    ensures GapFree(ts, iv, gap)
  {
    forall i: nat | i + 1 < |ts| ensures CloseAt(ts, iv, gap, i) {
      assert ts[i] in ts;
    }
  }

  lemma PartitionNewInterval(start: int, previous: int, rest: seq<int>, gap: int, ivs: seq<Interval>)
    requires start <= previous && rest != [] && rest[0] - previous > gap && previous < rest[0]
    requires forall t | t in rest :: rest[0] <= t
    requires Partition(ivs, rest, gap) && ivs != [] && ivs[0].start == rest[0]
    ensures Partition([Interval(start, previous)] + ivs, [previous] + rest, gap)
  {
    var ts, iv := [previous] + rest, Interval(start, previous);
    var all := [iv] + ivs;
    ApartPrepend(iv, ivs, gap);
    forall t | t in ts ensures Covered(all, t) {
      CoveredPrepend(iv, ivs, t);
    }
    forall k | 0 <= k < |all| ensures GapFree(ts, all[k], gap) {
      if k == 0 {
        GapFreeOutside(rest, iv, gap);
      } else {
        assert all[k] == ivs[k - 1];
        assert ivs[0].start <= ivs[k - 1].start;
      }
      GapFreePrepend(previous, rest, all[k], gap);
    }
  }

  lemma PartitionLonger(previous: int, rest: seq<int>, gap: int, ivs: seq<Interval>)
    requires rest != [] && previous < rest[0] && rest[0] - previous <= gap
    requires Partition(ivs, rest, gap) && ivs != [] && ivs[0].start <= previous && Within(ivs[0], rest[0])
    ensures Partition(ivs, [previous] + rest, gap)
  {
    forall t | t in [previous] + rest ensures Covered(ivs, t) {
      if t == previous {
        assert Within(ivs[0], previous);
      }
    }
    forall k | 0 <= k < |ivs| ensures GapFree([previous] + rest, ivs[k], gap) {
      GapFreePrepend(previous, rest, ivs[k], gap);
    }
  }

  lemma RestIncreases(previous: int, rest: seq<int>)
    requires Increasing([previous] + rest)
    ensures Increasing(rest)
    ensures forall t | t in rest :: previous < t
  {
    var ts := [previous] + rest;
    forall i, j | 0 <= i < j < |rest| ensures rest[i] < rest[j] {
      assert ts[i + 1] < ts[j + 1];
    }
    forall i | 0 <= i < |rest| ensures previous < rest[i] {
      assert ts[0] < ts[i + 1];
    }
  }

  lemma {:induction false} IntervalsFromPartition(start: int, previous: int, rest: seq<int>, gap: int)
    requires start <= previous && Increasing([previous] + rest)
    ensures var ivs := IntervalsFrom(start, previous, rest, gap);
            Partition(ivs, [previous] + rest, gap) && ivs[0].start == start && Within(ivs[0], previous)
    decreases |rest|
  {
    if rest == [] {
      assert Within([Interval(start, previous)][0], previous);
    } else {
      RestIncreases(previous, rest);
      assert [rest[0]] + rest[1..] == rest;
      RestIncreases(rest[0], rest[1..]);
      assert rest[0] in rest;
      if rest[0] - previous > gap {
        IntervalsFromPartition(rest[0], rest[0], rest[1..], gap);
        PartitionNewInterval(start, previous, rest, gap, IntervalsFrom(rest[0], rest[0], rest[1..], gap));
      } else {
        IntervalsFromPartition(start, rest[0], rest[1..], gap);
        PartitionLonger(previous, rest, gap, IntervalsFrom(start, rest[0], rest[1..], gap));
      }
    }
  }

  lemma {:induction false} IntervalEnds(start: int, previous: int, rest: seq<int>, gap: int, ts: seq<int>)
    requires start in ts && previous in ts && forall t | t in rest :: t in ts
    ensures EndsAreTimestamps(IntervalsFrom(start, previous, rest, gap), ts)
    decreases |rest|
  {
    if rest != [] {
      IntervalEnds(if rest[0] - previous > gap then rest[0] else start, rest[0], rest[1..], gap, ts);
    }
  }

  /** The continuity intervals partition the complete timestamps: each timestamp is in
      one of them, they begin and end at timestamps, no two neighbours in one are
      further apart than the limit, and neighbouring intervals are. */
  lemma ContinuityPartitions(ts: seq<int>, gap: int)
    requires Increasing(ts)
    ensures Partition(Continuity(ts, gap), ts, gap) && EndsAreTimestamps(Continuity(ts, gap), ts)
  {
    if ts != [] {
      assert [ts[0]] + ts[1..] == ts;
      IntervalsFromPartition(ts[0], ts[0], ts[1..], gap);
      IntervalEnds(ts[0], ts[0], ts[1..], gap, ts);
    }
  }

  // ---------------------------------------------------------------- evaluable intervals

  function Evaluable(ivs: seq<Interval>, window: int): seq<Interval> {
    if ivs == [] then []
    else
      var last := ivs[|ivs| - 1];
      Evaluable(ivs[..|ivs| - 1], window) + if last.end >= last.start + window then [Interval(last.start + window, last.end)] else []
  }

  /** `_evaluable_intervals` */
  method EvaluableIntervals(ts: seq<int>, gap: int, window: int) returns (intervals: seq<Interval>)
    ensures intervals == Evaluable(Continuity(ts, gap), window)
  {
    var continuity := ContinuityIntervals(ts, gap);
    intervals := [];
    for k := 0 to |continuity|
      invariant intervals == Evaluable(continuity[..k], window)
    {
      assert continuity[..k + 1][..k] == continuity[..k];
      var evaluableStart := continuity[k].start + window;
      if continuity[k].end >= evaluableStart {
        intervals := intervals + [Interval(evaluableStart, continuity[k].end)];
      }
    }
    assert continuity[..|continuity|] == continuity;
  }

  // ---------------------------------------------------------------- windows

  datatype Window = Window(start: int, end: int, timestamps: seq<int>)

  /** The complete timestamps of a window. */
  function Stamps(ts: seq<int>, lo: int, hi: int): seq<int> {
    if ts == [] then []
    else Stamps(ts[..|ts| - 1], lo, hi) + if lo <= ts[|ts| - 1] <= hi then [ts[|ts| - 1]] else []
  }

  function RoundUp(t: int, stride: int): int
    requires stride > 0
  {
    if t % stride == 0 then t else t + (stride - t % stride)
  }

  datatype Rule = Rule(window: int, stride: int, minimum: int)

  function WindowAt(ts: seq<int>, rule: Rule, end: int): Window {
    Window(end - rule.window, end, Stamps(ts, end - rule.window, end))
  }

  function WindowsFrom(ts: seq<int>, rule: Rule, end: int, last: int): seq<Window>
    requires rule.stride > 0
    decreases last - end
  {
    if end > last then []
    else
      var w := WindowAt(ts, rule, end);
      (if |w.timestamps| < rule.minimum then [] else [w]) + WindowsFrom(ts, rule, end + rule.stride, last)
  }

  function WindowsIn(ts: seq<int>, rule: Rule, ivs: seq<Interval>): seq<Window>
    requires rule.stride > 0
  {
    if ivs == [] then []
    else
      var last := ivs[|ivs| - 1];
      WindowsIn(ts, rule, ivs[..|ivs| - 1]) + WindowsFrom(ts, rule, RoundUp(last.start, rule.stride), last.end)
  }

  /** `_public_windows` for one service. */
  method PublicWindows(values: Values, metrics: set<Metric>, gap: int, rule: Rule) returns (rows: seq<Window>, coverage: seq<Interval>)
    requires rule.stride > 0
    ensures var complete := CompleteTimestamps(values, metrics);
            && coverage == Evaluable(Continuity(complete, gap), rule.window)
            && rows == WindowsIn(complete, rule, coverage)
  {
    var complete := CompleteTimestamps(values, metrics);
    coverage := EvaluableIntervals(complete, gap, rule.window);
    rows := [];
    for k := 0 to |coverage|
      invariant rows == WindowsIn(complete, rule, coverage[..k])
    {
      assert coverage[..k + 1][..k] == coverage[..k];
      var end := RoundUp(coverage[k].start, rule.stride);
      ghost var goal := rows + WindowsFrom(complete, rule, end, coverage[k].end);
      while end <= coverage[k].end
        invariant goal == rows + WindowsFrom(complete, rule, end, coverage[k].end)
        decreases coverage[k].end - end
      {
        var stamps := WindowStamps(complete, end - rule.window, end);
        if |stamps| >= rule.minimum {
          rows := rows + [Window(end - rule.window, end, stamps)];
        }
        end := end + rule.stride;
      }
    }
    assert coverage[..|coverage|] == coverage;
  }

  method WindowStamps(complete: seq<int>, lo: int, hi: int) returns (stamps: seq<int>)
    ensures stamps == Stamps(complete, lo, hi)
  {
    stamps := [];
    for i := 0 to |complete|
      invariant stamps == Stamps(complete[..i], lo, hi)
    {
      assert complete[..i + 1][..i] == complete[..i];
      if lo <= complete[i] <= hi {
        stamps := stamps + [complete[i]];
      }
    }
    assert complete[..|complete|] == complete;
  }

  // ---------------------------------------------------------------- which windows are emitted

  lemma RoundUpIs(t: int, stride: int)
    requires stride > 0
    ensures RoundUp(t, stride) % stride == 0 && t <= RoundUp(t, stride) < t + stride
  {
    var q, m := t / stride, t % stride;
    assert t == stride * q + m;
    if m != 0 {
      assert RoundUp(t, stride) == stride * (q + 1);
      MultipleOf(stride, q + 1);
    }
  }

  lemma Scaled(stride: int, k: int)
    requires stride > 0
    ensures k >= 1 ==> stride * k >= stride
    ensures k <= -1 ==> stride * k <= -stride
    ensures k == 0 ==> stride * k == 0
  {
  }

  lemma NoRemainder(stride: int, k: int, r: int)
    requires 0 <= r < stride && stride * k == r
    ensures r == 0
  {
    Scaled(stride, k);
  }

  lemma MultipleOf(stride: int, q: int)
    requires stride > 0
    ensures (stride * q) % stride == 0
  {
    var x := stride * q;
    var d, r := x / stride, x % stride;
    assert x == stride * d + r;
    assert stride * (q - d) == stride * q - stride * d;
    NoRemainder(stride, q - d, r);
  }

  lemma MoreStrides(stride: int, p: int, q: int)
    requires stride > 0 && stride * p < stride * q
    ensures stride * p + stride <= stride * q
  {
    Scaled(stride, q - p);
    assert stride * (q - p) == stride * q - stride * p;
  }

  /** Two multiples of the stride that differ are at least a stride apart. */
  lemma NextMultiple(a: int, x: int, stride: int)
    requires stride > 0 && a % stride == 0 && x % stride == 0 && a < x
    ensures a + stride <= x
  {
    var p, q := a / stride, x / stride;
    assert a == stride * p && x == stride * q;
    MoreStrides(stride, p, q);
  }

  lemma StrideOn(a: int, stride: int)
    requires stride > 0 && a % stride == 0
    ensures (a + stride) % stride == 0
  {
    var p := a / stride;
    assert a + stride == stride * (p + 1);
    MultipleOf(stride, p + 1);
  }

  predicate Emitted(rows: seq<Window>, w: Window) {
    w in rows
  }

  predicate EndsIncrease(rows: seq<Window>) {
    forall i, j | 0 <= i < j < |rows| :: rows[i].end < rows[j].end
  }

  predicate EndsBetween(rows: seq<Window>, lo: int, hi: int) {
    forall i | 0 <= i < |rows| :: lo <= rows[i].end <= hi
  }

  /** In one interval: a window is emitted exactly when its end is a multiple of the
      stride inside it and it holds enough samples. */
  lemma {:induction false} WindowsFromExact(ts: seq<int>, rule: Rule, end: int, last: int, w: Window)
    requires rule.stride > 0 && end % rule.stride == 0
    ensures Emitted(WindowsFrom(ts, rule, end, last), w) <==>
            && end <= w.end <= last && w.end % rule.stride == 0
            && w == WindowAt(ts, rule, w.end) && |w.timestamps| >= rule.minimum
    decreases last - end
  {
    if end <= last {
      StrideOn(end, rule.stride);
      WindowsFromExact(ts, rule, end + rule.stride, last, w);
      if end < w.end && w.end % rule.stride == 0 {
        NextMultiple(end, w.end, rule.stride);
      }
    }
  }

  lemma {:induction false} WindowsFromOnce(ts: seq<int>, rule: Rule, end: int, last: int)
    requires rule.stride > 0
    ensures EndsIncrease(WindowsFrom(ts, rule, end, last)) && EndsBetween(WindowsFrom(ts, rule, end, last), end, last)
    decreases last - end
  {
    if end <= last {
      WindowsFromOnce(ts, rule, end + rule.stride, last);
    }
  }

  predicate Spread(ivs: seq<Interval>) {
    && (forall k | 0 <= k < |ivs| :: ivs[k].start <= ivs[k].end)
    && (forall j, k | 0 <= j < k < |ivs| :: ivs[j].end < ivs[k].start)
  }

  lemma InEither(a: seq<Window>, b: seq<Window>, w: Window)
    ensures Emitted(a + b, w) <==> Emitted(a, w) || Emitted(b, w)
  {
  }

  lemma CoveredEarlier(ivs: seq<Interval>, t: int)
    requires ivs != []
    ensures Covered(ivs, t) <==> Covered(ivs[..|ivs| - 1], t) || Within(ivs[|ivs| - 1], t)
  {
    var n := |ivs| - 1;
    if k :| 0 <= k < |ivs| && Within(ivs[k], t) && k < n {
      assert Within(ivs[..n][k], t);
    }
    if k :| 0 <= k < n && Within(ivs[..n][k], t) {
      assert Within(ivs[k], t);
    }
  }

  lemma {:induction false} WindowsInExact(ts: seq<int>, rule: Rule, ivs: seq<Interval>, w: Window)
    requires rule.stride > 0
    ensures Emitted(WindowsIn(ts, rule, ivs), w) <==>
            && Covered(ivs, w.end) && w.end % rule.stride == 0
            && w == WindowAt(ts, rule, w.end) && |w.timestamps| >= rule.minimum
  {
    if ivs != [] {
      var n, last := |ivs| - 1, ivs[|ivs| - 1];
      WindowsInExact(ts, rule, ivs[..n], w);
      RoundUpIs(last.start, rule.stride);
      var first := RoundUp(last.start, rule.stride);
      WindowsFromExact(ts, rule, first, last.end, w);
      InEither(WindowsIn(ts, rule, ivs[..n]), WindowsFrom(ts, rule, first, last.end), w);
      CoveredEarlier(ivs, w.end);
      if last.start <= w.end < first && w.end % rule.stride == 0 {
        NextMultiple(w.end, first, rule.stride);
      }
    }
  }

  lemma {:induction false} WindowsInOnce(ts: seq<int>, rule: Rule, ivs: seq<Interval>)
    requires rule.stride > 0 && Spread(ivs)
    ensures EndsIncrease(WindowsIn(ts, rule, ivs))
    ensures ivs != [] ==> forall w <- WindowsIn(ts, rule, ivs) :: w.end <= ivs[|ivs| - 1].end
  {
    if ivs != [] {
      var n, last := |ivs| - 1, ivs[|ivs| - 1];
      WindowsInOnce(ts, rule, ivs[..n]);
      RoundUpIs(last.start, rule.stride);
      WindowsFromOnce(ts, rule, RoundUp(last.start, rule.stride), last.end);
      var before := WindowsIn(ts, rule, ivs[..n]);
      forall w <- before ensures w.end < last.start {
        assert n > 0 && ivs[..n][n - 1] == ivs[n - 1];
      }
    }
  }

  lemma {:induction false} EvaluableIs(ivs: seq<Interval>, window: int, gap: int)
    requires Apart(ivs, gap) && window >= 0
    ensures Spread(Evaluable(ivs, window))
    ensures ivs != [] ==> forall k | 0 <= k < |Evaluable(ivs, window)| :: Evaluable(ivs, window)[k].end <= ivs[|ivs| - 1].end
  {
    if ivs != [] {
      var n := |ivs| - 1;
      assert Apart(ivs[..n], gap);
      EvaluableIs(ivs[..n], window, gap);
    }
  }

  /** There is a continuity interval that holds the whole window. */
  predicate Inside(ivs: seq<Interval>, window: int, end: int) {
    exists k :: 0 <= k < |ivs| && Holds(ivs[k], window, end)
  }

  predicate Holds(iv: Interval, window: int, end: int) {
    iv.start + window <= end <= iv.end
  }

  lemma {:induction false} EvaluableCovers(ivs: seq<Interval>, window: int, t: int)
    ensures Covered(Evaluable(ivs, window), t) <==> Inside(ivs, window, t)
  {
    if ivs != [] {
      var n, last := |ivs| - 1, ivs[|ivs| - 1];
      EvaluableCovers(ivs[..n], window, t);
      InsideEarlier(ivs, window, t);
      var before := Evaluable(ivs[..n], window);
      if last.end >= last.start + window {
        var all := before + [Interval(last.start + window, last.end)];
        CoveredEarlier(all, t);
        assert all[..|all| - 1] == before;
      } else {
        assert before + [] == before;
      }
    }
  }

  lemma InsideEarlier(ivs: seq<Interval>, window: int, t: int)
    requires ivs != []
    ensures Inside(ivs, window, t) <==> Inside(ivs[..|ivs| - 1], window, t) || Holds(ivs[|ivs| - 1], window, t)
  {
    var n := |ivs| - 1;
    if k :| 0 <= k < |ivs| && Holds(ivs[k], window, t) && k < n {
      assert Holds(ivs[..n][k], window, t);
    }
    if k :| 0 <= k < n && Holds(ivs[..n][k], window, t) {
      assert Holds(ivs[k], window, t);
    }
  }

  /** Windows are sound and complete, for timestamps in order: exactly the windows are
      emitted whose end is a multiple of the stride, that lie inside one continuity
      interval and hold enough complete samples; each of them once, in order. */
  lemma WindowsExact(ts: seq<int>, gap: int, rule: Rule, w: Window)
    requires Increasing(ts) && rule.stride > 0 && rule.window >= 0
    ensures var ivs := Continuity(ts, gap);
            var rows := WindowsIn(ts, rule, Evaluable(ivs, rule.window));
            && EndsIncrease(rows)
            && (Emitted(rows, w) <==>
                && Inside(ivs, rule.window, w.end) && w.end % rule.stride == 0
                && w == WindowAt(ts, rule, w.end) && |w.timestamps| >= rule.minimum)
  {
    var ivs := Continuity(ts, gap);
    ContinuityPartitions(ts, gap);
    EvaluableIs(ivs, rule.window, gap);
    EvaluableCovers(ivs, rule.window, w.end);
    WindowsInOnce(ts, rule, Evaluable(ivs, rule.window));
    WindowsInExact(ts, rule, Evaluable(ivs, rule.window), w);
  }

  lemma {:induction false} StampsAre(ts: seq<int>, lo: int, hi: int)
    requires Increasing(ts)
    ensures Increasing(Stamps(ts, lo, hi))
    ensures forall t :: t in Stamps(ts, lo, hi) <==> t in ts && lo <= t <= hi
  {
    if ts != [] {
      var n := |ts| - 1;
      StampsAre(ts[..n], lo, hi);
      assert ts == ts[..n] + [ts[n]];
      forall t | t in Stamps(ts[..n], lo, hi) ensures t < ts[n] {
        assert t in ts[..n];
      }
      AppendIncreasing(Stamps(ts[..n], lo, hi), ts[n]);
    }
  }

  lemma EachIsGapFree(ts: seq<int>, gap: int, k: nat)
    requires Increasing(ts) && k < |Continuity(ts, gap)|
    ensures GapFree(ts, Continuity(ts, gap)[k], gap)
  {
    ContinuityPartitions(ts, gap);
  }

  lemma NeighboursInside(ts: seq<int>, gap: int, window: int, end: int, i: nat)
    requires Increasing(ts) && Inside(Continuity(ts, gap), window, end)
    requires i + 1 < |ts| && end - window <= ts[i] && ts[i + 1] <= end
    ensures ts[i + 1] - ts[i] <= gap
  {
    var ivs := Continuity(ts, gap);
    var k :| 0 <= k < |ivs| && Holds(ivs[k], window, end);
    EachIsGapFree(ts, gap, k);
    assert CloseAt(ts, ivs[k], gap, i);
    assert ts[i] < ts[i + 1];
  }

  lemma EmittedMeans(ts: seq<int>, gap: int, rule: Rule, w: Window)
    requires Increasing(ts) && rule.stride > 0 && rule.window >= 0
    requires Emitted(WindowsIn(ts, rule, Evaluable(Continuity(ts, gap), rule.window)), w)
    ensures Inside(Continuity(ts, gap), rule.window, w.end) && w.start == w.end - rule.window
    ensures w.timestamps == Stamps(ts, w.start, w.end)
  {
    WindowsExact(ts, gap, rule, w);
  }

  /** An emitted window lists exactly the complete samples it spans, in order, and no
      two neighbouring ones are further apart than the limit. */
  lemma WindowsAreGapFree(ts: seq<int>, gap: int, rule: Rule, w: Window)
    requires Increasing(ts) && rule.stride > 0 && rule.window >= 0
    requires Emitted(WindowsIn(ts, rule, Evaluable(Continuity(ts, gap), rule.window)), w)
    ensures Increasing(w.timestamps)
    ensures forall t :: t in w.timestamps <==> t in ts && w.start <= t <= w.end
    ensures GapFree(ts, Interval(w.start, w.end), gap)
  {
    EmittedMeans(ts, gap, rule, w);
    StampsAre(ts, w.start, w.end);
    var iv := Interval(w.start, w.end);
    forall i: nat | i + 1 < |ts| ensures CloseAt(ts, iv, gap, i) {
      if Within(iv, ts[i]) && Within(iv, ts[i + 1]) {
        NeighboursInside(ts, gap, rule.window, w.end, i);
      }
    }
  }
}
