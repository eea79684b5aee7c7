/** Receipt-bound coverage: adjacent samples of a service form runs, and a run earns
    conservative seconds. Three harnesses split and credit independently. */
module Coverage {
  import opened Numbers

  const CADENCE_SECONDS: nat := 5
  const SECOND_NS: nat := 1_000_000_000
  const CADENCE_NS: nat := 5_000_000_000
  const MIN_GAP_NS: nat := 4_000_000_000
  const MAX_GAP_NS: nat := 7_500_000_000

  datatype Sample = Sample(ordinal: int, ns: int)

  datatype Segment = Segment(service: nat, first: Sample, last: Sample, count: nat, credit: int)

  predicate Joined(p: Sample, s: Sample) {
    s.ordinal == p.ordinal + 1 && MIN_GAP_NS <= s.ns - p.ns <= MAX_GAP_NS
  }

  /** Splitting goes on from a current run. */
  function RunsFrom(current: seq<Sample>, rest: seq<Sample>): seq<seq<Sample>>
    requires current != []
    decreases |rest|
  {
    if rest == [] then [current]
    else if Joined(current[|current| - 1], rest[0]) then RunsFrom(current + [rest[0]], rest[1..])
    else [current] + RunsFrom([rest[0]], rest[1..])
  }

  function Runs(samples: seq<Sample>): seq<seq<Sample>> {
    if samples == [] then [] else RunsFrom([samples[0]], samples[1..])
  }

  // ---------------------------------------------------------------- runs are maximal

  /** A run: every adjacent pair is joined. */
  predicate Unbroken(run: seq<Sample>) {
    run != [] && forall i | 0 <= i < |run| - 1 :: Joined(run[i], run[i + 1])
  }

  function Flatten(runs: seq<seq<Sample>>): seq<Sample> {
    if runs == [] then [] else runs[0] + Flatten(runs[1..])
  }

  /** The runs lie end to end, each is unbroken, and no two neighbours could be one. */
  predicate Maximal(runs: seq<seq<Sample>>) {
    && (forall k | 0 <= k < |runs| :: Unbroken(runs[k]))
    && (forall k | 0 <= k < |runs| - 1 :: Separate(runs[k], runs[k + 1]))
  }

  predicate Separate(a: seq<Sample>, b: seq<Sample>) {
    a != [] && b != [] ==> !Joined(a[|a| - 1], b[0])
  }

  lemma {:induction false} RunsFromMaximal(current: seq<Sample>, rest: seq<Sample>)
    requires Unbroken(current)
    ensures var runs := RunsFrom(current, rest);
            && Flatten(runs) == current + rest && Maximal(runs)
            && runs != [] && current <= runs[0]
    decreases |rest|
  {
    if rest == [] {
      assert Flatten([current]) == current;
    } else if Joined(current[|current| - 1], rest[0]) {
      RunsFromMaximal(current + [rest[0]], rest[1..]);
      assert current + [rest[0]] + rest[1..] == current + rest;
    } else {
      RunsFromMaximal([rest[0]], rest[1..]);
      assert [rest[0]] + rest[1..] == rest;
    }
  }

  /** Every sample is in a run, and the runs are maximal: a pair of neighbouring
      samples is in one run exactly when it is joined. */
  lemma RunsAreMaximal(samples: seq<Sample>)
    ensures Flatten(Runs(samples)) == samples && Maximal(Runs(samples))
  {
    if samples != [] {
      RunsFromMaximal([samples[0]], samples[1..]);
      assert [samples[0]] + samples[1..] == samples;
    }
  }

  lemma {:induction false} MaximalFromCurrent(current: seq<Sample>, runs: seq<seq<Sample>>)
    requires current != [] && runs != [] && Maximal(runs) && current <= runs[0]
    ensures runs == RunsFrom(current, Flatten(runs)[|current|..])
    decreases |Flatten(runs)| - |current|
  {
    var n, rest := |current|, Flatten(runs)[|current|..];
    var flat := Flatten(runs);
    if n < |runs[0]| {
      assert rest[0] == runs[0][n];
      assert Joined(runs[0][n - 1], runs[0][n]) by {
        assert Unbroken(runs[0]);
      }
      assert current[n - 1] == runs[0][n - 1];
      assert flat[n + 1..] == rest[1..];
      MaximalFromCurrent(current + [rest[0]], runs);
    } else if |runs| == 1 {
      assert current == runs[0] && rest == [];
    } else {
      assert current == runs[0] && rest == Flatten(runs[1..]);
      assert Separate(runs[0], runs[1]) && Unbroken(runs[1]);
      assert Maximal(runs[1..]) by {
        forall k | 0 <= k < |runs| - 1 ensures Unbroken(runs[1..][k]) {
          assert Unbroken(runs[k + 1]);
        }
        forall k | 0 <= k < |runs| - 2 ensures Separate(runs[1..][k], runs[1..][k + 1]) {
          assert Separate(runs[k + 1], runs[k + 2]);
        }
      }
      assert rest[0] == runs[1][0];
      MaximalFromCurrent([rest[0]], runs[1..]);
    }
  }

  /** There is only one such splitting. */
  lemma RunsAreUnique(samples: seq<Sample>, runs: seq<seq<Sample>>)
    requires Flatten(runs) == samples && Maximal(runs)
    ensures runs == Runs(samples)
  {
    if runs != [] {
      assert Unbroken(runs[0]);
      assert [samples[0]] <= runs[0];
      MaximalFromCurrent([samples[0]], runs);
    }
  }

  // ---------------------------------------------------------------- credit

  function Elapsed(run: seq<Sample>): int
    requires run != []
  {
    run[|run| - 1].ns - run[0].ns
  }

  /** `min((n - 1) * 5, elapsed // 5 s * 5)` */
  function Credit(count: nat, elapsed: int): int {
    Min((count - 1) * CADENCE_SECONDS, elapsed / CADENCE_NS * CADENCE_SECONDS)
  }

  lemma {:induction false} UnbrokenElapsed(run: seq<Sample>)
    requires Unbroken(run)
    ensures MIN_GAP_NS * (|run| - 1) <= Elapsed(run) <= MAX_GAP_NS * (|run| - 1)
  {
    var n := |run| - 1;
    if n > 0 {
      assert Joined(run[n - 1], run[n]);
      forall i | 0 <= i < n - 1 ensures Joined(run[..n][i], run[..n][i + 1]) {
        assert Joined(run[i], run[i + 1]);
      }
      UnbrokenElapsed(run[..n]);
    }
  }

  /** What a run earns is a multiple of the cadence, and no more than its time or its
      intervals allow; only two samples less than 5 s apart earn nothing. */
  lemma CreditBounds(run: seq<Sample>)
    requires Unbroken(run)
    ensures var c := Credit(|run|, Elapsed(run));
            && 0 <= c <= 5 * (|run| - 1) && c * SECOND_NS <= Elapsed(run) && c % 5 == 0
            && (|run| >= 2 ==> (c == 0 <==> |run| == 2 && Elapsed(run) < CADENCE_NS))
  {
    UnbrokenElapsed(run);
    var q := Elapsed(run) / CADENCE_NS;
    if |run| >= 3 {
      assert q >= 1;
    }
  }

  // ---------------------------------------------------------------- the three emitters

  type Emitter = (nat, seq<Sample>) -> seq<Segment>

  /** `_segment_for` and its guard in the database harness. */
  function DatabaseSegment(service: nat, run: seq<Sample>, diagnosticOnly: bool): seq<Segment> {
    if |run| < 2 then []
    else
      var credit := Credit(|run|, Elapsed(run));
      [Segment(service, run[0], run[|run| - 1], |run|, if diagnosticOnly then 0 else credit)]
  }

  /** `_segment_rows` of the queue harness. */
  function QueueSegment(service: nat, run: seq<Sample>): seq<Segment> {
    if |run| < 2 then []
    else
      var credit := Credit(|run|, Elapsed(run));
      if credit <= 0 then [] else [Segment(service, run[0], run[|run| - 1], |run|, credit)]
  }

  /** `_deploy_coverage_segment` */
  function DeploySegment(service: nat, run: seq<Sample>): seq<Segment> {
    if |run| < 2 then []
    else
      var observed := if Elapsed(run) < 0 then 0 else Elapsed(run);
      var credit := Credit(|run|, observed);
      if credit <= 0 then [] else [Segment(service, run[0], run[|run| - 1], |run|, credit)]
  }

  function EmitAll(e: Emitter, service: nat, runs: seq<seq<Sample>>): seq<Segment> {
    if runs == [] then [] else e(service, runs[0]) + EmitAll(e, service, runs[1..])
  }

  type Raw = seq<(nat, seq<Sample>)>

  function EmitServices(e: Emitter, raw: Raw): seq<Segment> {
    if raw == [] then []
    else EmitServices(e, raw[..|raw| - 1]) + EmitAll(e, raw[|raw| - 1].0, Runs(raw[|raw| - 1].1))
  }

  lemma EmitNext(e: Emitter, raw: Raw, k: nat)
    requires k < |raw|
    ensures EmitServices(e, raw[..k + 1]) == EmitServices(e, raw[..k]) + EmitAll(e, raw[k].0, Runs(raw[k].1))
  {
    assert raw[..k + 1][..k] == raw[..k];
  }

  const DATABASE: Emitter := (service: nat, run: seq<Sample>) => DatabaseSegment(service, run, false)
  const DIAGNOSTIC: Emitter := (service: nat, run: seq<Sample>) => DatabaseSegment(service, run, true)
  const QUEUE: Emitter := (service: nat, run: seq<Sample>) => QueueSegment(service, run)
  const DEPLOY: Emitter := (service: nat, run: seq<Sample>) => DeploySegment(service, run)

  function Total(segments: seq<Segment>): int {
    if segments == [] then 0 else Total(segments[..|segments| - 1]) + segments[|segments| - 1].credit
  }

  // ---------------------------------------------------------------- the three loops

  /** Splitting takes the next sample into the current run, or closes the run before it. */
  lemma NextSample(e: Emitter, service: nat, current: seq<Sample>, samples: seq<Sample>, i: nat, before: seq<Segment>)
    requires current != [] && i < |samples|
    ensures before + EmitAll(e, service, RunsFrom(current, samples[i..])) ==
            if Joined(current[|current| - 1], samples[i])
            then before + EmitAll(e, service, RunsFrom(current + [samples[i]], samples[i + 1..]))
            else before + e(service, current) + EmitAll(e, service, RunsFrom([samples[i]], samples[i + 1..]))
  {
    assert samples[i..][0] == samples[i] && samples[i..][1..] == samples[i + 1..];
    if !Joined(current[|current| - 1], samples[i]) {
      EmitFirst(e, service, current, RunsFrom([samples[i]], samples[i + 1..]), before);
    }
  }

  lemma LastRun(e: Emitter, service: nat, current: seq<Sample>, before: seq<Segment>)
    requires current != []
    ensures before + EmitAll(e, service, RunsFrom(current, [])) == before + e(service, current)
  {
    EmitFirst(e, service, current, [], before);
  }

  /** What is still to be emitted after the first i samples. */
  function Remaining(e: Emitter, service: nat, current: seq<Sample>, samples: seq<Sample>, i: nat): seq<Segment>
    requires i <= |samples|
  {
    EmitAll(e, service, if current == [] then Runs(samples[i..]) else RunsFrom(current, samples[i..]))
  }

  lemma FirstSample(e: Emitter, service: nat, samples: seq<Sample>, i: nat)
    requires i < |samples|
    ensures Remaining(e, service, [], samples, i) == Remaining(e, service, [samples[i]], samples, i + 1)
  {
    assert samples[i..][0] == samples[i] && samples[i..][1..] == samples[i + 1..];
  }

  lemma WholeService(e: Emitter, service: nat, samples: seq<Sample>)
    ensures EmitAll(e, service, Runs(samples)) == Remaining(e, service, [], samples, 0)
  {
    assert samples[0..] == samples;
  }

  lemma ServiceDone(e: Emitter, service: nat, current: seq<Sample>, samples: seq<Sample>, before: seq<Segment>)
    ensures before + Remaining(e, service, current, samples, |samples|) ==
            if current == [] then before else before + e(service, current)
  {
    assert samples[|samples|..] == [];
    if current == [] {
      assert before + [] == before;
    } else {
      LastRun(e, service, current, before);
    }
  }

  /** `_canonical_segments` of the database harness. */
  method CanonicalSegments(raw: Raw, diagnosticOnly: bool) returns (segments: seq<Segment>)
    ensures segments == EmitServices(if diagnosticOnly then DIAGNOSTIC else DATABASE, raw)
  {
    ghost var e := if diagnosticOnly then DIAGNOSTIC else DATABASE;
    segments := [];
    for k := 0 to |raw|
      invariant segments == EmitServices(e, raw[..k])
    {
      EmitNext(e, raw, k);
      segments := CanonicalService(raw[k].0, raw[k].1, diagnosticOnly, segments);
    }
    assert raw[..|raw|] == raw;
  }

  method CanonicalService(service: nat, samples: seq<Sample>, diagnosticOnly: bool, before: seq<Segment>) returns (segments: seq<Segment>)
    ensures segments == before + EmitAll(if diagnosticOnly then DIAGNOSTIC else DATABASE, service, Runs(samples))
  {
    ghost var e := if diagnosticOnly then DIAGNOSTIC else DATABASE;
    WholeService(e, service, samples);
    segments := before;
    var current: seq<Sample> := [];
    for i := 0 to |samples|
      invariant before + EmitAll(e, service, Runs(samples)) == segments + Remaining(e, service, current, samples, i)
    {
      var sample := samples[i];
      if current == [] {
        FirstSample(e, service, samples, i);
        current := [sample];
        continue;
      }
      NextSample(e, service, current, samples, i, segments);
      var previous := current[|current| - 1];
      if Joined(previous, sample) {
        current := current + [sample];
      } else {
        segments := CloseRun(service, current, diagnosticOnly, segments);
        current := [sample];
      }
    }
    ServiceDone(e, service, current, samples, segments);
    segments := CloseRun(service, current, diagnosticOnly, segments);
  }

  /** Appends the segment of a run of two or more samples. */
  method CloseRun(service: nat, current: seq<Sample>, diagnosticOnly: bool, before: seq<Segment>) returns (segments: seq<Segment>)
    ensures segments == before + DatabaseSegment(service, current, diagnosticOnly)
  {
    segments := before;
    if |current| >= 2 {
      segments := segments + DatabaseSegment(service, current, diagnosticOnly);
    }
  }

  lemma EmitFirst(e: Emitter, service: nat, run: seq<Sample>, runs: seq<seq<Sample>>, before: seq<Segment>)
    ensures before + EmitAll(e, service, [run] + runs) == before + e(service, run) + EmitAll(e, service, runs)
    ensures runs == [] ==> before + EmitAll(e, service, [run]) == before + e(service, run)
  {
    assert ([run] + runs)[1..] == runs;
    if runs == [] {
      assert [run] + runs == [run];
    }
  }

  /** `_coverage_segments` of the queue harness. */
  method CoverageSegments(raw: Raw) returns (segments: seq<Segment>)
    ensures segments == EmitServices(QUEUE, raw)
  {
    segments := [];
    for k := 0 to |raw|
      invariant segments == EmitServices(QUEUE, raw[..k])
    {
      EmitNext(QUEUE, raw, k);
      if |raw[k].1| < 2 {
        ShortServiceEarnsNothing(raw[k].0, raw[k].1);
        assert segments + [] == segments;
      } else {
        segments := CoverageService(raw[k].0, raw[k].1, segments);
      }
    }
    assert raw[..|raw|] == raw;
  }

  method CoverageService(service: nat, rows: seq<Sample>, before: seq<Segment>) returns (segments: seq<Segment>)
    requires |rows| >= 2
    ensures segments == before + EmitAll(QUEUE, service, Runs(rows))
  {
    WholeService(QUEUE, service, rows);
    FirstSample(QUEUE, service, rows, 0);
    segments := before;
    var current := [rows[0]];
    for i := 1 to |rows|
      invariant current != [] && current[|current| - 1] == rows[i - 1]
      invariant before + EmitAll(QUEUE, service, Runs(rows)) == segments + Remaining(QUEUE, service, current, rows, i)
    {
      NextSample(QUEUE, service, current, rows, i, segments);
      if Joined(rows[i - 1], rows[i]) {
        current := current + [rows[i]];
      } else {
        segments := segments + QueueSegment(service, current);
        current := [rows[i]];
      }
    }
    ServiceDone(QUEUE, service, current, rows, segments);
    segments := segments + QueueSegment(service, current);
  }

  lemma ShortServiceEarnsNothing(service: nat, rows: seq<Sample>)
    requires |rows| < 2
    ensures EmitAll(QUEUE, service, Runs(rows)) == []
  {
  }

  // ---------------------------------------------------------------- grouping in the deploy harness

  type Telemetry = seq<(nat, Sample)>

  /** The rows of one service, in the order they were recorded. */
  function Group(telemetry: Telemetry, service: nat): seq<Sample> {
    if telemetry == [] then []
    else
      var row := telemetry[|telemetry| - 1];
      Group(telemetry[..|telemetry| - 1], service) + if row.0 == service then [row.1] else []
  }

  /** `sorted(by_service)`: each service once, in order. */
  function Services(telemetry: Telemetry): seq<nat> {
    if telemetry == [] then []
    else InsertService(telemetry[|telemetry| - 1].0, Services(telemetry[..|telemetry| - 1]))
  }

  function InsertService(x: nat, s: seq<nat>): seq<nat> {
    if s == [] || x < s[0] then [x] + s
    else if x == s[0] then s
    else [s[0]] + InsertService(x, s[1..])
  }

  /** The stable sort by ordinal. */
  function SortByOrdinal(rows: seq<Sample>): seq<Sample> {
    if rows == [] then [] else InsertRow(rows[|rows| - 1], SortByOrdinal(rows[..|rows| - 1]))
  }

  function InsertRow(x: Sample, s: seq<Sample>): seq<Sample> {
    if s == [] || s[|s| - 1].ordinal <= x.ordinal then s + [x]
    else InsertRow(x, s[..|s| - 1]) + [s[|s| - 1]]
  }

  predicate InOrder(rows: seq<Sample>) {
    forall i, j | 0 <= i < j < |rows| :: rows[i].ordinal <= rows[j].ordinal
  }

  predicate NotAfter(rows: seq<Sample>, ordinal: int) {
    forall i | 0 <= i < |rows| :: rows[i].ordinal <= ordinal
  }

  lemma AppendInOrder(s: seq<Sample>, x: Sample)
    requires InOrder(s) && NotAfter(s, x.ordinal)
    ensures InOrder(s + [x])
  {
  }

  lemma {:induction false} InsertRowBound(x: Sample, s: seq<Sample>, ordinal: int)
    requires NotAfter(s, ordinal) && x.ordinal <= ordinal
    ensures NotAfter(InsertRow(x, s), ordinal)
  {
    if s != [] {
      InsertRowBound(x, s[..|s| - 1], ordinal);
    }
  }

  lemma {:induction false} InsertRowInOrder(x: Sample, s: seq<Sample>)
    requires InOrder(s)
    ensures InOrder(InsertRow(x, s))
  {
    if s == [] || s[|s| - 1].ordinal <= x.ordinal {
      AppendInOrder(s, x);
    } else {
      var n := |s| - 1;
      InsertRowInOrder(x, s[..n]);
      InsertRowBound(x, s[..n], s[n].ordinal);
      AppendInOrder(InsertRow(x, s[..n]), s[n]);
    }
  }

  lemma {:induction false} InsertRowKeeps(x: Sample, s: seq<Sample>)
    ensures multiset(InsertRow(x, s)) == multiset(s) + multiset{x}
  {
    if s != [] && s[|s| - 1].ordinal > x.ordinal {
      InsertRowKeeps(x, s[..|s| - 1]);
      assert s == s[..|s| - 1] + [s[|s| - 1]];
    }
  }

  /** Sorting orders the rows and keeps every one of them. */
  lemma {:induction false} SortKeepsRows(rows: seq<Sample>)
    ensures InOrder(SortByOrdinal(rows)) && multiset(SortByOrdinal(rows)) == multiset(rows)
  {
    if rows != [] {
      var n := |rows| - 1;
      SortKeepsRows(rows[..n]);
      InsertRowInOrder(rows[n], SortByOrdinal(rows[..n]));
      InsertRowKeeps(rows[n], SortByOrdinal(rows[..n]));
      assert rows == rows[..n] + [rows[n]];
    }
  }

  /** Rows that are in order stay as they are. */
  lemma {:induction false} SortKeepsOrder(rows: seq<Sample>)
    requires InOrder(rows)
    ensures SortByOrdinal(rows) == rows
  {
    if rows != [] {
      var n := |rows| - 1;
      SortKeepsOrder(rows[..n]);
      assert rows == rows[..n] + [rows[n]];
      assert n > 0 ==> rows[n - 1].ordinal <= rows[n].ordinal;
    }
  }

  predicate Increasing(s: seq<nat>) {
    forall i, j | 0 <= i < j < |s| :: s[i] < s[j]
  }

  lemma {:induction false} InsertServiceKeeps(x: nat, s: seq<nat>)
    requires Increasing(s)
    ensures Increasing(InsertService(x, s))
    ensures forall y: nat :: y in InsertService(x, s) <==> y == x || y in s
  {
    if s != [] && x > s[0] {
      InsertServiceKeeps(x, s[1..]);
      assert s == [s[0]] + s[1..];
      forall y | y in InsertService(x, s[1..]) ensures y > s[0] {
      }
    }
  }

  /** Every service that sent a row is visited once, in order. */
  lemma {:induction false} ServicesAre(telemetry: Telemetry)
    ensures Increasing(Services(telemetry))
    ensures forall y: nat :: y in Services(telemetry) <==> Group(telemetry, y) != []
  {
    if telemetry != [] {
      var n := |telemetry| - 1;
      ServicesAre(telemetry[..n]);
      InsertServiceKeeps(telemetry[n].0, Services(telemetry[..n]));
    }
  }

  /** What the deploy harness segments: every service with its sorted rows. */
  function Sorted(telemetry: Telemetry, services: seq<nat>): (raw: Raw)
    ensures |raw| == |services|
  {
    seq(|services|, k requires 0 <= k < |services| => (services[k], SortByOrdinal(Group(telemetry, services[k]))))
  }

  function Grouped(telemetry: Telemetry, services: seq<nat>): (raw: Raw)
    ensures |raw| == |services|
  {
    seq(|services|, k requires 0 <= k < |services| => (services[k], Group(telemetry, services[k])))
  }

  /** `_observed_coverage_segments` */
  method ObservedCoverageSegments(telemetry: Telemetry) returns (segments: seq<Segment>, totalNs: int)
    ensures segments == EmitServices(DEPLOY, Sorted(telemetry, Services(telemetry)))
    ensures totalNs == Total(segments) * SECOND_NS
  {
    segments, totalNs := [], 0;
    var raw := Sorted(telemetry, Services(telemetry));
    for k := 0 to |raw|
      invariant segments == EmitServices(DEPLOY, raw[..k]) && totalNs == Total(segments) * SECOND_NS
    {
      EmitNext(DEPLOY, raw, k);
      segments, totalNs := ObservedService(raw[k].0, raw[k].1, segments, totalNs);
    }
    assert raw[..|raw|] == raw;
  }

  method ObservedService(service: nat, rows: seq<Sample>, before: seq<Segment>, beforeNs: int) returns (segments: seq<Segment>, totalNs: int)
    requires beforeNs == Total(before) * SECOND_NS
    ensures segments == before + EmitAll(DEPLOY, service, Runs(rows))
    ensures totalNs == Total(segments) * SECOND_NS
  {
    WholeService(DEPLOY, service, rows);
    segments, totalNs := before, beforeNs;
    var current: seq<Sample> := [];
    for i := 0 to |rows|
      invariant totalNs == Total(segments) * SECOND_NS
      invariant before + EmitAll(DEPLOY, service, Runs(rows)) == segments + Remaining(DEPLOY, service, current, rows, i)
    {
      var row := rows[i];
      if current == [] {
        FirstSample(DEPLOY, service, rows, i);
        current := [row];
        continue;
      }
      NextSample(DEPLOY, service, current, rows, i, segments);
      if Joined(current[|current| - 1], row) {
        current := current + [row];
        continue;
      }
      segments, totalNs := AddSegment(segments, totalNs, DeploySegment(service, current));
      current := [row];
    }
    ServiceDone(DEPLOY, service, current, rows, segments);
    segments, totalNs := AddSegment(segments, totalNs, DeploySegment(service, current));
  }

  method AddSegment(segments: seq<Segment>, totalNs: int, segment: seq<Segment>) returns (r: seq<Segment>, t: int)
    requires |segment| <= 1 && totalNs == Total(segments) * SECOND_NS
    ensures r == segments + segment && t == Total(r) * SECOND_NS
  {
    r, t := segments, totalNs;
    if segment != [] {
      r := r + segment;
      t := t + segment[0].credit * SECOND_NS;
      assert r[..|r| - 1] == segments;
    }
  }

  // ---------------------------------------------------------------- the three agree

  /** The two-sample segments the queue and deploy harnesses leave out. */
  predicate TooShort(s: Segment) {
    s.count == 2 && s.last.ns - s.first.ns < CADENCE_NS
  }

  function LongEnough(segments: seq<Segment>): seq<Segment> {
    if segments == [] then []
    else LongEnough(segments[..|segments| - 1]) + if TooShort(segments[|segments| - 1]) then [] else [segments[|segments| - 1]]
  }

  lemma {:induction false} TotalAppend(a: seq<Segment>, b: seq<Segment>)
    ensures Total(a + b) == Total(a) + Total(b)
    ensures LongEnough(a + b) == LongEnough(a) + LongEnough(b)
    decreases |b|
  {
    if b == [] {
      assert a + b == a;
    } else {
      assert (a + b)[..|a + b| - 1] == a + b[..|b| - 1];
      TotalAppend(a, b[..|b| - 1]);
    }
  }

  lemma OneRunAgrees(service: nat, run: seq<Sample>)
    requires Unbroken(run)
    ensures var d := DatabaseSegment(service, run, false);
            && QueueSegment(service, run) == DeploySegment(service, run) == LongEnough(d)
            && Total(LongEnough(d)) == Total(d)
  {
    CreditBounds(run);
    UnbrokenElapsed(run);
    var d := DatabaseSegment(service, run, false);
    if |run| >= 2 {
      assert d[..0] == [];
    }
  }

  lemma {:induction false} ServiceAgrees(service: nat, runs: seq<seq<Sample>>)
    requires forall k | 0 <= k < |runs| :: Unbroken(runs[k])
    ensures var d := EmitAll(DATABASE, service, runs);
            && EmitAll(QUEUE, service, runs) == EmitAll(DEPLOY, service, runs) == LongEnough(d)
            && Total(LongEnough(d)) == Total(d)
  {
    if runs != [] {
      OneRunAgrees(service, runs[0]);
      ServiceAgrees(service, runs[1..]);
      var d := DatabaseSegment(service, runs[0], false);
      TotalAppend(d, EmitAll(DATABASE, service, runs[1..]));
      TotalAppend(LongEnough(d), LongEnough(EmitAll(DATABASE, service, runs[1..])));
    }
  }

  /** On the same samples the three credit the same total, and the queue and deploy
      lists are the database list without the two-sample segments under 5 s. */
  lemma {:induction false} ThreeAgree(raw: Raw)
    ensures var d := EmitServices(DATABASE, raw);
            && EmitServices(QUEUE, raw) == EmitServices(DEPLOY, raw) == LongEnough(d)
            && Total(EmitServices(QUEUE, raw)) == Total(EmitServices(DEPLOY, raw)) == Total(d)
  {
    if raw != [] {
      var n := |raw| - 1;
      ThreeAgree(raw[..n]);
      RunsAreMaximal(raw[n].1);
      ServiceAgrees(raw[n].0, Runs(raw[n].1));
      var d := EmitAll(DATABASE, raw[n].0, Runs(raw[n].1));
      TotalAppend(EmitServices(DATABASE, raw[..n]), d);
      TotalAppend(LongEnough(EmitServices(DATABASE, raw[..n])), LongEnough(d));
    }
  }

  /** The deploy harness sees the same samples as the others when every service's rows
      were recorded in ordinal order. */
  lemma DeployAgrees(telemetry: Telemetry)
    requires forall s <- Services(telemetry) :: InOrder(Group(telemetry, s))
    ensures var raw := Grouped(telemetry, Services(telemetry));
            && EmitServices(DEPLOY, Sorted(telemetry, Services(telemetry))) == EmitServices(QUEUE, raw)
            && Total(EmitServices(DEPLOY, Sorted(telemetry, Services(telemetry)))) == Total(EmitServices(DATABASE, raw))
  {
    var services := Services(telemetry);
    var sorted, raw := Sorted(telemetry, services), Grouped(telemetry, services);
    forall k | 0 <= k < |raw| ensures sorted[k] == raw[k] {
      assert services[k] in services;
      SortKeepsOrder(Group(telemetry, services[k]));
    }
    assert sorted == raw;
    ThreeAgree(raw);
  }

  // ---------------------------------------------------------------- losing samples

  /** What a service earns from a run of n samples, begun at `start` and now at
      `last`, and the samples that follow. */
  function Earned(n: nat, start: int, last: Sample, rest: seq<Sample>): int
    requires n > 0
    decreases |rest|
  {
    if rest == [] then Credit(n, last.ns - start)
    else if Joined(last, rest[0]) then Earned(n + 1, start, rest[0], rest[1..])
    else Credit(n, last.ns - start) + Earned(1, rest[0].ns, rest[0], rest[1..])
  }

  function ServiceEarned(samples: seq<Sample>): int {
    if samples == [] then 0 else Earned(1, samples[0].ns, samples[0], samples[1..])
  }

  lemma OneRunTotal(service: nat, run: seq<Sample>)
    requires run != []
    ensures Total(DatabaseSegment(service, run, false)) == Credit(|run|, run[|run| - 1].ns - run[0].ns)
  {
    var d := DatabaseSegment(service, run, false);
    if |run| >= 2 {
      assert d[..0] == [];
    }
  }

  /** What the runs from a current one on earn. */
  function RunsTotal(service: nat, current: seq<Sample>, rest: seq<Sample>): int
    requires current != []
  {
    Total(EmitAll(DATABASE, service, RunsFrom(current, rest)))
  }

  lemma RunsTotalLast(service: nat, current: seq<Sample>)
    requires current != []
    ensures RunsTotal(service, current, []) == Credit(|current|, current[|current| - 1].ns - current[0].ns)
  {
    OneRunTotal(service, current);
    EmitFirst(DATABASE, service, current, [], []);
  }

  lemma RunsTotalNext(service: nat, current: seq<Sample>, rest: seq<Sample>)
    requires current != [] && rest != [] && !Joined(current[|current| - 1], rest[0])
    ensures RunsTotal(service, current, rest) ==
            Credit(|current|, current[|current| - 1].ns - current[0].ns) + RunsTotal(service, [rest[0]], rest[1..])
  {
    var later := RunsFrom([rest[0]], rest[1..]);
    OneRunTotal(service, current);
    EmitFirst(DATABASE, service, current, later, []);
    TotalAppend(DatabaseSegment(service, current, false), EmitAll(DATABASE, service, later));
  }

  lemma RunsTotalOn(service: nat, current: seq<Sample>, rest: seq<Sample>)
    requires current != [] && rest != [] && Joined(current[|current| - 1], rest[0])
    ensures RunsTotal(service, current, rest) == RunsTotal(service, current + [rest[0]], rest[1..])
  {
  }

  lemma {:induction false} EarnedFromRuns(service: nat, current: seq<Sample>, rest: seq<Sample>, n: nat, start: int, last: Sample)
    requires 0 < n == |current| && start == current[0].ns && last == current[n - 1]
    ensures RunsTotal(service, current, rest) == Earned(n, start, last, rest)
    decreases |rest|
  {
    if rest == [] {
      RunsTotalLast(service, current);
    } else if Joined(last, rest[0]) {
      RunsTotalOn(service, current, rest);
      EarnedFromRuns(service, current + [rest[0]], rest[1..], n + 1, start, rest[0]);
    } else {
      RunsTotalNext(service, current, rest);
      EarnedFromRuns(service, [rest[0]], rest[1..], 1, rest[0].ns, rest[0]);
    }
  }

  /** The seconds a service is credited, one pass over its samples. */
  lemma EarnedIsTotal(service: nat, samples: seq<Sample>)
    ensures Total(EmitAll(DATABASE, service, Runs(samples))) == ServiceEarned(samples)
  {
    if samples != [] {
      EarnedFromRuns(service, [samples[0]], samples[1..], 1, samples[0].ns, samples[0]);
    }
  }

  /** One long run earns at least what its two parts earn. */
  lemma CreditSuperadditive(n: nat, m: nat, e: int, x: int, y: int)
    requires n > 0 && m > 0 && x + y <= e
    ensures Credit(n, x) + Credit(m, y) <= Credit(n + m, e)
  {
  }

  lemma {:induction false} LongerRunEarnsMore(n: nat, m: nat, start: int, middle: int, e: int, last: Sample, rest: seq<Sample>)
    requires n > 0 && m > 0 && e <= middle - start
    ensures Credit(n, e) + Earned(m, middle, last, rest) <= Earned(n + m, start, last, rest)
    decreases |rest|
  {
    if rest == [] || !Joined(last, rest[0]) {
      CreditSuperadditive(n, m, last.ns - start, e, last.ns - middle);
    } else {
      LongerRunEarnsMore(n, m + 1, start, middle, e, rest[0], rest[1..]);
    }
  }

  predicate MayJoin(a: seq<Sample>, b: seq<Sample>) {
    a != [] && b != [] && Joined(a[|a| - 1], b[0])
  }

  lemma {:induction false} EarnedAppend(n: nat, start: int, last: Sample, a: seq<Sample>, b: seq<Sample>)
    requires n > 0
    ensures Earned(n, start, last, a) + ServiceEarned(b) <= Earned(n, start, last, a + b)
    ensures !MayJoin([last] + a, b) ==> Earned(n, start, last, a) + ServiceEarned(b) == Earned(n, start, last, a + b)
    decreases |a|
  {
    if a == [] {
      assert a + b == b;
      if b != [] && Joined(last, b[0]) {
        LongerRunEarnsMore(n, 1, start, b[0].ns, last.ns - start, b[0], b[1..]);
      }
    } else {
      assert (a + b)[1..] == a[1..] + b;
      assert MayJoin([last] + a, b) == MayJoin([a[0]] + a[1..], b);
      EarnedAppend(if Joined(last, a[0]) then n + 1 else 1, if Joined(last, a[0]) then start else a[0].ns, a[0], a[1..], b);
    }
  }

  /** Samples put end to end earn at least what they earn apart, and no more unless
      the two in the middle join. */
  lemma ServiceEarnedAppend(a: seq<Sample>, b: seq<Sample>)
    ensures ServiceEarned(a) + ServiceEarned(b) <= ServiceEarned(a + b)
    ensures !MayJoin(a, b) ==> ServiceEarned(a) + ServiceEarned(b) == ServiceEarned(a + b)
  {
    if a == [] {
      assert a + b == b;
    } else {
      assert (a + b)[1..] == a[1..] + b;
      assert [a[0]] + a[1..] == a;
      EarnedAppend(1, a[0].ns, a[0], a[1..], b);
    }
  }

  /** What is left of the samples when only the marked ones are kept. */
  function Keep(samples: seq<Sample>, kept: seq<bool>): seq<Sample>
    requires |samples| == |kept|
  {
    if samples == [] then []
    else (if kept[0] then [samples[0]] else []) + Keep(samples[1..], kept[1..])
  }

  /** Two kept samples that join only because everything between them is lost. */
  predicate NewlyJoined(samples: seq<Sample>, kept: seq<bool>, i: nat, j: nat)
    requires |samples| == |kept|
  {
    && i + 1 < j < |samples| && Joined(samples[i], samples[j])
    && kept[i] && kept[j] && forall k | i < k < j :: !kept[k]
  }

  predicate NoneNewlyJoined(samples: seq<Sample>, kept: seq<bool>)
    requires |samples| == |kept|
  {
    forall i, j | 0 <= i < j < |samples| :: !NewlyJoined(samples, kept, i, j)
  }

  lemma NoneWithoutFirst(samples: seq<Sample>, kept: seq<bool>)
    requires |samples| == |kept| && samples != [] && NoneNewlyJoined(samples, kept)
    ensures NoneNewlyJoined(samples[1..], kept[1..])
  {
    forall i, j | 0 <= i < j < |samples| - 1 ensures !NewlyJoined(samples[1..], kept[1..], i, j) {
      if NewlyJoined(samples[1..], kept[1..], i, j) {
        forall k | i + 1 < k < j + 1 ensures !kept[k] {
          assert !kept[1..][k - 1];
        }
        assert NewlyJoined(samples, kept, i + 1, j + 1);
      }
    }
  }

  /** Where the first sample is kept and the next ones are lost, the next kept one does
      not join the first. */
  lemma {:induction false} NextKeptIsApart(samples: seq<Sample>, kept: seq<bool>, n: nat)
    requires 1 < n <= |samples| == |kept| && kept[0]
    requires NoneNewlyJoined(samples, kept) && forall k | 1 <= k < n :: !kept[k]
    ensures Keep(samples[n..], kept[n..]) != [] ==> !Joined(samples[0], Keep(samples[n..], kept[n..])[0])
    decreases |samples| - n
  {
    if n < |samples| {
      if kept[n] {
        assert !NewlyJoined(samples, kept, 0, n);
      } else {
        assert samples[n..][1..] == samples[n + 1..] && kept[n..][1..] == kept[n + 1..];
        NextKeptIsApart(samples, kept, n + 1);
      }
    }
  }

  /** A run goes on at least as long in the samples as in what is kept of them. */
  lemma {:induction false} KeptEarns(n: nat, start: int, samples: seq<Sample>, kept: seq<bool>)
    requires n > 0 && samples != [] && |samples| == |kept| && kept[0]
    requires NoneNewlyJoined(samples, kept)
    ensures Earned(n, start, samples[0], Keep(samples[1..], kept[1..])) <= Earned(n, start, samples[0], samples[1..])
    decreases |samples|, 0
  {
    var last, rest, kept' := samples[0], samples[1..], kept[1..];
    NoneWithoutFirst(samples, kept);
    if rest != [] {
      if kept'[0] {
        assert Keep(rest, kept') == [rest[0]] + Keep(rest[1..], kept'[1..]);
        KeptEarns(if Joined(last, rest[0]) then n + 1 else 1, if Joined(last, rest[0]) then start else rest[0].ns, rest, kept');
      } else {
        assert Keep(rest, kept') == Keep(rest[1..], kept'[1..]);
        assert rest[1..] == samples[2..] && kept'[1..] == kept[2..];
        NextKeptIsApart(samples, kept, 2);
        KeptServiceEarns(rest, kept');
        EarnedAppend(n, start, last, [], rest);
        assert [] + rest == rest;
      }
    }
  }

  lemma {:induction false} KeptServiceEarns(samples: seq<Sample>, kept: seq<bool>)
    requires |samples| == |kept| && NoneNewlyJoined(samples, kept)
    ensures ServiceEarned(Keep(samples, kept)) <= ServiceEarned(samples)
    decreases |samples|, 1
  {
    if samples != [] {
      var x, rest := samples[0], samples[1..];
      if kept[0] {
        assert Keep(samples, kept) == [x] + Keep(rest, kept[1..]);
        KeptEarns(1, x.ns, samples, kept);
      } else {
        NoneWithoutFirst(samples, kept);
        KeptServiceEarns(rest, kept[1..]);
        assert [] + Keep(rest, kept[1..]) == Keep(rest, kept[1..]);
        ServiceEarnedAppend([x], rest);
        assert [x] + rest == samples;
        assert ServiceEarned([x]) == 0;
      }
    }
  }

  function ServiceTotal(service: nat, samples: seq<Sample>): int {
    Total(EmitAll(DATABASE, service, Runs(samples)))
  }

  /** Losing samples never earns credit unless two kept ones join by it. */
  lemma LosingSamplesEarnsNothing(service: nat, samples: seq<Sample>, kept: seq<bool>)
    requires |samples| == |kept| && NoneNewlyJoined(samples, kept)
    ensures ServiceTotal(service, Keep(samples, kept)) <= ServiceTotal(service, samples)
  {
    EarnedIsTotal(service, samples);
    EarnedIsTotal(service, Keep(samples, kept));
    KeptServiceEarns(samples, kept);
  }

  // ---------------------------------------------------------------- losses that earn

  function Ordinals(samples: seq<Sample>): (ordinals: seq<int>)
    ensures |ordinals| == |samples|
  {
    seq(|samples|, k requires 0 <= k < |samples| => samples[k].ordinal)
  }

  /** Two kept samples that are consecutive only because everything between them is lost. */
  predicate NewNeighbours(ordinals: seq<int>, kept: seq<bool>, i: nat, j: nat)
    requires |ordinals| == |kept|
  {
    && i + 1 < j < |ordinals| && ordinals[j] == ordinals[i] + 1
    && kept[i] && kept[j] && forall k | i < k < j :: !kept[k]
  }

  predicate NoNewNeighbours(ordinals: seq<int>, kept: seq<bool>)
    requires |ordinals| == |kept|
  {
    forall i, j | 0 <= i < j < |ordinals| :: !NewNeighbours(ordinals, kept, i, j)
  }

  lemma NoneConsecutiveNoneJoined(samples: seq<Sample>, kept: seq<bool>)
    requires |samples| == |kept| && NoNewNeighbours(Ordinals(samples), kept)
    ensures NoneNewlyJoined(samples, kept)
  {
    forall i, j | 0 <= i < j < |samples| ensures !NewlyJoined(samples, kept, i, j) {
      assert !NewNeighbours(Ordinals(samples), kept, i, j);
    }
  }

  /** A clock that shows 0 up to sample i, 5 s from sample j on and 2 s between. */
  function Clock(i: nat, j: nat, k: int): int {
    if k <= i then 0 else if k < j then 2 * SECOND_NS else CADENCE_NS
  }

  function Timed(ordinals: seq<int>, i: nat, j: nat): (samples: seq<Sample>)
    ensures |samples| == |ordinals| && forall k | 0 <= k < |ordinals| :: samples[k] == Sample(ordinals[k], Clock(i, j, k))
  {
    seq(|ordinals|, k requires 0 <= k < |ordinals| => Sample(ordinals[k], Clock(i, j, k)))
  }

  predicate NothingJoins(samples: seq<Sample>) {
    forall k | 0 <= k < |samples| - 1 :: !Joined(samples[k], samples[k + 1])
  }

  lemma {:induction false} NothingJoinsNothingEarned(samples: seq<Sample>)
    requires NothingJoins(samples)
    ensures ServiceEarned(samples) == 0
  {
    if |samples| > 1 {
      var rest := samples[1..];
      forall k | 0 <= k < |rest| - 1 ensures !Joined(rest[k], rest[k + 1]) {
        assert !Joined(samples[k + 1], samples[k + 2]);
      }
      assert !Joined(samples[0], samples[1]);
      NothingJoinsNothingEarned(rest);
    }
  }

  lemma Regroup<T>(a: seq<T>, b: seq<T>, c: seq<T>)
    ensures a + (b + c) == a + b + c
  {
  }

  lemma TailOfBoth<T>(a: seq<T>, b: seq<T>)
    requires a != []
    ensures (a + b)[0] == a[0] && (a + b)[1..] == a[1..] + b
  {
  }

  lemma {:induction false} KeepAppend(a: seq<Sample>, b: seq<Sample>, ka: seq<bool>, kb: seq<bool>)
    requires |a| == |ka| && |b| == |kb|
    ensures Keep(a + b, ka + kb) == Keep(a, ka) + Keep(b, kb)
    decreases |a|
  {
    if a == [] {
      assert a + b == b && ka + kb == kb;
    } else {
      TailOfBoth(a, b);
      TailOfBoth(ka, kb);
      KeepAppend(a[1..], b, ka[1..], kb);
      var first: seq<Sample> := if ka[0] then [a[0]] else [];
      Regroup(first, Keep(a[1..], ka[1..]), Keep(b, kb));
      assert Keep(a, ka) == first + Keep(a[1..], ka[1..]);
      assert Keep(a + b, ka + kb) == first + Keep(a[1..] + b, ka[1..] + kb);
    }
  }

  lemma {:induction false} KeepNone(samples: seq<Sample>, kept: seq<bool>)
    requires |samples| == |kept| && forall k | 0 <= k < |kept| :: !kept[k]
    ensures Keep(samples, kept) == []
  {
    if samples != [] {
      KeepNone(samples[1..], kept[1..]);
    }
  }

  /** What is kept has samples i and j side by side. */
  lemma KeptSideBySide(samples: seq<Sample>, kept: seq<bool>, i: nat, j: nat) returns (a: seq<Sample>, c: seq<Sample>)
    requires |samples| == |kept| && NewNeighbours(Ordinals(samples), kept, i, j)
    ensures Keep(samples, kept) == a + [samples[i], samples[j]] + c
  {
    a, c := Keep(samples[..i], kept[..i]), Keep(samples[j + 1..], kept[j + 1..]);
    KeepSplit(samples, kept, i + 1);
    KeepUpTo(samples, kept, i);
    var rest, kept' := samples[i + 1..], kept[i + 1..];
    KeepSplit(rest, kept', j - i - 1);
    KeepNone(rest[..j - i - 1], kept'[..j - i - 1]);
    assert rest[j - i - 1..] == samples[j..] && kept'[j - i - 1..] == kept[j..];
    assert samples[j..][1..] == samples[j + 1..] && kept[j..][1..] == kept[j + 1..];
  }

  lemma Halves<T>(s: seq<T>, n: nat)
    requires n <= |s|
    ensures s[..n] + s[n..] == s
  {
  }

  lemma OneFurther<T>(s: seq<T>, i: nat)
    requires i < |s|
    ensures s[..i + 1] == s[..i] + [s[i]]
  {
  }

  lemma KeepSplit(samples: seq<Sample>, kept: seq<bool>, n: nat)
    requires |samples| == |kept| && n <= |samples|
    ensures Keep(samples, kept) == Keep(samples[..n], kept[..n]) + Keep(samples[n..], kept[n..])
  {
    Halves(samples, n);
    Halves(kept, n);
    KeepAppend(samples[..n], samples[n..], kept[..n], kept[n..]);
  }

  lemma KeepUpTo(samples: seq<Sample>, kept: seq<bool>, i: nat)
    requires |samples| == |kept| && i < |samples| && kept[i]
    ensures Keep(samples[..i + 1], kept[..i + 1]) == Keep(samples[..i], kept[..i]) + [samples[i]]
  {
    OneFurther(samples, i);
    OneFurther(kept, i);
    KeepAppend(samples[..i], [samples[i]], kept[..i], [kept[i]]);
  }

  predicate ClockOrdered(samples: seq<Sample>) {
    forall i, j | 0 <= i < j < |samples| :: samples[i].ns <= samples[j].ns
  }

  /** Some clock that never runs backwards makes a service with these ordinals earn
      more when all but the marked samples are lost. */
  ghost predicate LossCanEarn(service: nat, ordinals: seq<int>, kept: seq<bool>)
    requires |ordinals| == |kept|
  {
    exists samples | Ordinals(samples) == ordinals ::
      ClockOrdered(samples) && ServiceTotal(service, Keep(samples, kept)) > ServiceTotal(service, samples)
  }

  lemma {:induction false} EarnedNotNegative(n: nat, start: int, last: Sample, rest: seq<Sample>)
    requires n > 0 && start <= last.ns
    ensures Earned(n, start, last, rest) >= 0
    decreases |rest|
  {
    if rest != [] {
      if Joined(last, rest[0]) {
        EarnedNotNegative(n + 1, start, rest[0], rest[1..]);
      } else {
        EarnedNotNegative(1, rest[0].ns, rest[0], rest[1..]);
      }
    }
  }

  lemma PairEarns(a: seq<Sample>, p: Sample, q: Sample, c: seq<Sample>)
    requires Joined(p, q) && q.ns - p.ns == CADENCE_NS
    ensures ServiceEarned(a + [p, q] + c) > 0
  {
    assert [p, q][1..] == [q] && [q][1..] == [];
    assert Earned(2, p.ns, q, []) == 5;
    ServiceEarnedAppend(a, [p, q]);
    ServiceEarnedAppend(a + [p, q], c);
    if a != [] {
      EarnedNotNegative(1, a[0].ns, a[0], a[1..]);
    }
    if c != [] {
      EarnedNotNegative(1, c[0].ns, c[0], c[1..]);
    }
  }

  lemma TimedLossEarns(service: nat, ordinals: seq<int>, kept: seq<bool>, i: nat, j: nat)
    requires |ordinals| == |kept| && NewNeighbours(ordinals, kept, i, j)
    ensures var s := Timed(ordinals, i, j); ServiceTotal(service, Keep(s, kept)) > ServiceTotal(service, s)
  {
    var s := Timed(ordinals, i, j);
    assert Ordinals(s) == ordinals;
    assert NothingJoins(s);
    NothingJoinsNothingEarned(s);
    var a, c := KeptSideBySide(s, kept, i, j);
    PairEarns(a, s[i], s[j], c);
    EarnedIsTotal(service, s);
    EarnedIsTotal(service, Keep(s, kept));
  }

  /** Losing all but the marked samples can raise a service's total exactly when two
      kept samples become consecutive by it. */
  lemma LossEarnsExactly(service: nat, ordinals: seq<int>, kept: seq<bool>)
    requires |ordinals| == |kept|
    ensures LossCanEarn(service, ordinals, kept) <==> !NoNewNeighbours(ordinals, kept)
  {
    if NoNewNeighbours(ordinals, kept) {
      forall samples | Ordinals(samples) == ordinals
        ensures ServiceTotal(service, Keep(samples, kept)) <= ServiceTotal(service, samples)
      {
        NoneConsecutiveNoneJoined(samples, kept);
        LosingSamplesEarnsNothing(service, samples, kept);
      }
    } else {
      var i, j :| 0 <= i < j < |ordinals| && NewNeighbours(ordinals, kept, i, j);
      TimedLossEarns(service, ordinals, kept, i, j);
      assert Ordinals(Timed(ordinals, i, j)) == ordinals;
    }
  }

  /** Only neighbours have consecutive ordinals, as in a service that never repeats or
      goes back. */
  predicate ConsecutiveOnlyInPlace(ordinals: seq<int>) {
    forall i, j | 0 <= i < j < |ordinals| :: ordinals[j] == ordinals[i] + 1 ==> j == i + 1
  }

  /** All but samples i and j are lost. */
  function KeepTwo(n: nat, i: nat, j: nat): (kept: seq<bool>)
    ensures |kept| == n && forall k | 0 <= k < n :: kept[k] == (k == i || k == j)
  {
    seq(n, k requires 0 <= k => k == i || k == j)
  }

  /** No loss at all can raise the total exactly when only neighbours have consecutive
      ordinals; strictly increasing ordinals are of that kind. */
  lemma NoLossEarnsExactly(service: nat, ordinals: seq<int>)
    ensures ConsecutiveOnlyInPlace(ordinals) <==>
            forall kept: seq<bool> | |kept| == |ordinals| :: !LossCanEarn(service, ordinals, kept)
    ensures (forall i, j | 0 <= i < j < |ordinals| :: ordinals[i] < ordinals[j]) ==> ConsecutiveOnlyInPlace(ordinals)
  {
    if ConsecutiveOnlyInPlace(ordinals) {
      forall kept: seq<bool> | |kept| == |ordinals| ensures !LossCanEarn(service, ordinals, kept) {
        LossEarnsExactly(service, ordinals, kept);
      }
    } else {
      var i, j :| 0 <= i < j < |ordinals| && ordinals[j] == ordinals[i] + 1 && j != i + 1;
      var kept := KeepTwo(|ordinals|, i, j);
      assert NewNeighbours(ordinals, kept, i, j);
      LossEarnsExactly(service, ordinals, kept);
    }
    forall i, j | 0 <= i < j < |ordinals| && (forall k, l | 0 <= k < l < |ordinals| :: ordinals[k] < ordinals[l])
      ensures ordinals[j] == ordinals[i] + 1 ==> j == i + 1
    {
      if j > i + 1 {
        assert ordinals[i] < ordinals[i + 1] < ordinals[j];
      }
    }
  }

  // ---------------------------------------------------------------- bounds of a service

  predicate ClockKept(last: Sample, rest: seq<Sample>) {
    (rest != [] ==> last.ns <= rest[0].ns) && forall i | 0 <= i < |rest| - 1 :: rest[i].ns <= rest[i + 1].ns
  }

  lemma CreditOfRun(n: nat, elapsed: int)
    requires n > 0 && elapsed >= 0
    ensures var c := Credit(n, elapsed); 0 <= c <= 5 * (n - 1) && c % 5 == 0 && c * SECOND_NS <= elapsed
  {
  }

  lemma BothMultiples(a: int, b: int)
    requires a % 5 == 0 && b % 5 == 0
    ensures (a + b) % 5 == 0
  {
  }

  lemma {:induction false} EarnedBounds(n: nat, start: int, last: Sample, rest: seq<Sample>)
    requires n > 0 && start <= last.ns && ClockKept(last, rest)
    ensures var e := Earned(n, start, last, rest);
            && 0 <= e <= 5 * (n - 1 + |rest|) && e % 5 == 0
            && e * SECOND_NS <= (if rest == [] then last else rest[|rest| - 1]).ns - start
    decreases |rest|
  {
    if rest == [] {
      CreditOfRun(n, last.ns - start);
    } else if Joined(last, rest[0]) {
      EarnedBounds(n + 1, start, rest[0], rest[1..]);
    } else {
      CreditOfRun(n, last.ns - start);
      EarnedBounds(1, rest[0].ns, rest[0], rest[1..]);
      BothMultiples(Credit(n, last.ns - start), Earned(1, rest[0].ns, rest[0], rest[1..]));
    }
  }

  /** A service's total is a multiple of 5 s, at most 5 s per interval and at most
      the time from its first to its last sample. */
  lemma ServiceBounds(service: nat, samples: seq<Sample>)
    requires samples != [] && ClockKept(samples[0], samples[1..])
    ensures var total := Total(EmitAll(DATABASE, service, Runs(samples)));
            && 0 <= total <= 5 * (|samples| - 1) && total % 5 == 0
            && total * SECOND_NS <= samples[|samples| - 1].ns - samples[0].ns
  {
    EarnedIsTotal(service, samples);
    EarnedBounds(1, samples[0].ns, samples[0], samples[1..]);
  }
}
