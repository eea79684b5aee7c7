/** The tick loop of the canary harness around the rollback controller: the shared
    configuration, the emitted rows, the private ledger and the verdict. */
module CanaryHarness {
  import opened Numbers
  import opened Outcomes
  import opened Ranks
  import opened CanaryRollback

  const SLOTS: nat := 10
  const BASELINE_SLOTS: nat := 8
  const ROLLING: nat := 140

  datatype Version = Control | Healthy | Faulted

  datatype Stage = NotTriggered | Triggered | RolledBack

  datatype Row = Row(tick: nat, slot: nat, version: Version, status: nat, stage: Stage)

  /** Errors among a number of responses; the harness reports the rounded quotient. */
  datatype Rate = Rate(errors: nat, of: nat)

  /** The running numbers a row shows of its cohort: all its responses and errors, the
      errors of a rolling window, and how often each latency bucket occurs in the last
      100. They are a column of their own here. */
  datatype Counts = Counts(requests: nat, errors: nat, rolling: Rate, latencies: multiset<nat>)

  datatype Request = Request(tick: nat, slot: nat)

  datatype Args = Args(
    seed: int, ticks: int, tickSeconds: int, requestsPerTick: int, faultTick: int, fast: bool,
    expectTrigger: Option<int>, expectObserved: Option<int>)

  datatype Artifacts = Artifacts(
    rows: seq<Row>, counts: seq<Counts>, windows: seq<Window>, endTicks: seq<nat>,
    injected: seq<Request>, triggers: seq<Request>, firstHealthy: Request)

  datatype Refusal = BadArguments | NoRollbackSeen

  /** `_validate_args` and the two expected ticks. */
  predicate Accepted(a: Args) {
    && a.requestsPerTick == 10 && a.faultTick >= 0
    && (!a.fast ==> a.seed == 105027 && a.ticks == 1200 && a.tickSeconds == 1 && a.faultTick == 300)
    && (a.expectTrigger.Some? ==> a.expectTrigger.value == a.faultTick + 69)
    && (a.expectObserved.Some? ==> a.expectObserved.value == a.faultTick + 70)
  }

  function LogicalTicks(a: Args): (n: nat)
    requires Accepted(a)
    ensures n >= a.faultTick + 71
  {
    if a.fast then Max(a.ticks, a.faultTick + 71) else a.ticks
  }

  // ---------------------------------------------------------------- what a run emits

  function StageOf(triggered: bool, tick: nat, faultTick: nat): Stage {
    if triggered && tick < faultTick + OBSERVE_AFTER then Triggered
    else if tick >= faultTick + OBSERVE_AFTER then RolledBack
    else NotTriggered
  }

  /** Number of canary responses before the given slot of a tick. */
  function ResponsesBefore(tick: nat, slot: nat): nat {
    2 * tick + if slot <= BASELINE_SLOTS then 0 else slot - BASELINE_SLOTS
  }

  function RowAt(h: seq<Controller>, faultTick: nat, tick: nat, slot: nat): Row
    requires ResponsesBefore(tick, slot + 1) < |h|
  {
    var j := ResponsesBefore(tick, slot);
    var stage := StageOf(h[ResponsesBefore(tick, slot + 1)].latch.Some?, tick, faultTick);
    if slot < BASELINE_SLOTS then Row(tick, slot, Control, 200, stage)
    else
      var on := FaultOn(faultTick, h[j].latch, j);
      Row(tick, slot, if on then Faulted else Healthy, Status(j, on), stage)
  }

  /** Rows of the first `slots` slots of a tick. */
  function TickRows(h: seq<Controller>, faultTick: nat, tick: nat, slots: nat): (rows: seq<Row>)
    requires ResponsesBefore(tick, slots) < |h|
    ensures |rows| == slots
    decreases slots, tick
  {
    if slots == 0 then []
    else TickRows(h, faultTick, tick, slots - 1) + [RowAt(h, faultTick, tick, slots - 1)]
  }

  function Rows(h: seq<Controller>, faultTick: nat, ticks: nat): (rows: seq<Row>)
    requires 2 * ticks < |h|
    ensures |rows| == 10 * ticks
  {
    if ticks == 0 then []
    else Rows(h, faultTick, ticks - 1) + TickRows(h, faultTick, ticks - 1, SLOTS)
  }

  /** Number of control responses before the given slot of a tick. */
  function ControlsBefore(tick: nat, slot: nat): nat {
    8 * tick + if slot <= BASELINE_SLOTS then slot else BASELINE_SLOTS
  }

  function ControlStatuses(count: nat): (statuses: seq<nat>)
    ensures |statuses| == count && forall k | 0 <= k < count :: statuses[k] == 200
  {
    seq<nat>(count, k requires 0 <= k => 200)
  }

  /** `_rolling_error_rate`, before rounding. */
  function RollingRate(statuses: seq<nat>, size: nat): Rate {
    Rate(CountAtLeast(LastOf(statuses, size), 500), |LastOf(statuses, size)|)
  }

  function CountsOf(statuses: seq<nat>, size: nat, buckets: seq<nat>): Counts {
    Counts(|statuses|, CountAtLeast(statuses, 500), RollingRate(statuses, size), multiset(LastOf(buckets, WINDOW)))
  }

  /** The running numbers shown in the row of a slot. */
  function CountsAt(h: seq<Controller>, tick: nat, slot: nat): Counts
    requires ResponsesBefore(tick, slot + 1) < |h|
  {
    if slot < BASELINE_SLOTS then CountsOf(ControlStatuses(ControlsBefore(tick, slot + 1)), 4 * ROLLING, [])
    else
      var after := h[ResponsesBefore(tick, slot + 1)];
      CountsOf(after.statuses, ROLLING, after.buckets)
  }

  /** A column of entries of the first slots of a tick, and of the first ticks of a run. */
  function TickColumn(f: (nat, nat) -> Counts, tick: nat, slots: nat): (column: seq<Counts>)
    ensures |column| == slots
    decreases slots, tick
  {
    if slots == 0 then [] else TickColumn(f, tick, slots - 1) + [f(tick, slots - 1)]
  }

  function RunColumn(f: (nat, nat) -> Counts, ticks: nat): (column: seq<Counts>)
    ensures |column| == 10 * ticks
  {
    if ticks == 0 then [] else RunColumn(f, ticks - 1) + TickColumn(f, ticks - 1, SLOTS)
  }

  function Shown(h: seq<Controller>): (nat, nat) -> Counts {
    (tick: nat, slot: nat) =>
      if ResponsesBefore(tick, slot + 1) < |h| then CountsAt(h, tick, slot) else Counts(0, 0, Rate(0, 0), multiset{})
  }

  /** `f` gives the running numbers of every request of the stream. */
  ghost predicate Shows(f: (nat, nat) -> Counts, h: seq<Controller>) {
    forall tick: nat, slot: nat {:trigger CountsAt(h, tick, slot)} ::
      ResponsesBefore(tick, slot + 1) < |h| ==> f(tick, slot) == CountsAt(h, tick, slot)
  }

  lemma ShownShows(h: seq<Controller>)
    ensures Shows(Shown(h), h)
  {
  }

  predicate IsCanary(slot: nat) {
    slot >= BASELINE_SLOTS
  }

  predicate InFaultWindow(row: Row, faultTick: nat) {
    IsCanary(row.slot) && faultTick <= row.tick < faultTick + OBSERVE_AFTER
  }

  /** The requests the private ledger binds to the injection. */
  function Injected(rows: seq<Row>, faultTick: nat): seq<Request> {
    if rows == [] then []
    else
      var row := rows[|rows| - 1];
      Injected(rows[..|rows| - 1], faultTick) +
      if InFaultWindow(row, faultTick) then [Request(row.tick, row.slot)] else []
  }

  predicate ObservedHealthy(row: Row, faultTick: nat) {
    IsCanary(row.slot) && row.tick >= faultTick + OBSERVE_AFTER && row.status == 200 && row.version == Healthy
  }

  function FirstHealthy(rows: seq<Row>, faultTick: nat): Option<Request> {
    if rows == [] then None
    else
      var row := rows[|rows| - 1];
      var earlier := FirstHealthy(rows[..|rows| - 1], faultTick);
      if earlier.Some? then earlier
      else if ObservedHealthy(row, faultTick) then Some(Request(row.tick, row.slot))
      else None
  }

  function TriggerRequests(latch: Option<nat>): seq<Request> {
    if latch.None? then [] else [Request(TickOf(latch.value), 9)]
  }

  // ---------------------------------------------------------------- the run itself

  /** The configuration shared by the two servers. */
  class LocalConfig {
    var canaryVersion: Version
    var faultEnabled: bool

    predicate Is(on: bool) reads this {
      faultEnabled == on && canaryVersion == if on then Faulted else Healthy
    }

    constructor ()
      ensures Is(false)
    {
      canaryVersion, faultEnabled := Healthy, false;
    }

    method InjectFault()
      modifies this
      ensures Is(true)
    {
      canaryVersion := Faulted;
      faultEnabled := true;
    }

    method Rollback()
      modifies this
      ensures Is(false)
    {
      canaryVersion := Healthy;
      faultEnabled := false;
    }

    method SnapshotFor(slot: nat) returns (version: Version, fault: bool)
      ensures IsCanary(slot) ==> version == canaryVersion && fault == faultEnabled
      ensures !IsCanary(slot) ==> version == Control && !fault
    {
      if IsCanary(slot) {
        version, fault := canaryVersion, faultEnabled;
      } else {
        version, fault := Control, false;
      }
    }
  }

  /** The variables of the tick loop that follow the canary responses. */
  datatype Loop = Loop(
    statuses: seq<nat>, buckets: seq<nat>, windows: seq<Window>, consecutive: nat,
    triggered: bool, endTicks: seq<nat>, triggers: seq<Request>, controls: seq<nat>)

  /** The loop variables of the harness hold the state of the controller. */
  predicate Holds(c: Controller, v: Loop) {
    && c.statuses == v.statuses && c.buckets == v.buckets && c.windows == v.windows
    && c.consecutive == v.consecutive && c.latch.Some? == v.triggered
    && EndTicks(v.endTicks, v.windows) && v.triggers == TriggerRequests(c.latch)
  }

  predicate EndTicks(endTicks: seq<nat>, windows: seq<Window>) {
    |endTicks| == |windows| && forall i | 0 <= i < |endTicks| :: endTicks[i] == TickOf(i)
  }

  /** The configuration a request of the given tick meets. */
  predicate FaultNow(faultTick: nat, latch: Option<nat>, tick: nat) {
    tick >= faultTick && !(latch.Some? && 2 * faultTick < ResponsesAt(latch.value))
  }

  /** What the harness knows of the state before a response. */
  predicate Sound(c: Controller, n: nat) {
    && |c.statuses| == |c.buckets| == n && Due(|c.windows|, n)
    && (c.latch.Some? ==> c.latch.value < |c.windows|)
  }

  lemma StreamSound(h: seq<Controller>, faultTick: nat, latency: Latency, j: nat)
    requires IsStream(h, faultTick, latency) && j < |h|
    ensures Sound(h[j], j)
  {
    StreamDescribed(h, faultTick, latency, j);
  }

  lemma WindowEnd(count: nat, n: nat, tick: nat, slot: nat)
    requires BASELINE_SLOTS <= slot < SLOTS && n == ResponsesBefore(tick, slot)
    requires n + 1 == ResponsesAt(count)
    ensures slot == 9 && tick == TickOf(count)
  {
    TickOfResponses(count);
  }

  /** One canary response: its status and latency extend the stream, and every
      twentieth is evaluated. A first trigger is latched. */
  method ObserveCanary(faultTick: nat, latency: Latency, tick: nat, slot: nat, fault: bool, was: Loop, ghost c: Controller, ghost d: Controller)
    returns (status: nat, now: Loop)
    requires BASELINE_SLOTS <= slot < SLOTS
    requires Holds(c, was) && Sound(c, ResponsesBefore(tick, slot)) && d == Respond(c, faultTick, latency)
    requires fault == FaultOn(faultTick, c.latch, ResponsesBefore(tick, slot))
    ensures status == Status(ResponsesBefore(tick, slot), fault)
    ensures Holds(d, now) && now.controls == was.controls
    ensures d.latch != c.latch ==> d.latch.Some? && c.latch.None? && ResponsesAt(d.latch.value) == ResponsesBefore(tick, slot + 1)
  {
    ghost var n := ResponsesBefore(tick, slot);
    RespondNext(c, faultTick, latency, n);
    if n + 1 == ResponsesAt(|c.windows|) {
      WindowEnd(|c.windows|, n, tick, slot);
    }
    now := was;
    status := Status(|now.statuses|, fault);
    now := now.(statuses := now.statuses + [status],
                buckets := now.buckets + [LatencyBucket(latency(|now.statuses|, fault))]);
    var (shouldTrigger, window) := EvaluateRollback(now.statuses, now.buckets, |now.statuses|, now.consecutive);
    if window.Some? {
      now := now.(consecutive := window.value.consecutive, windows := now.windows + [window.value],
                  endTicks := now.endTicks + [tick]);
    }
    if shouldTrigger && !now.triggered {
      now := now.(triggered := true, triggers := now.triggers + [Request(tick, slot)]);
    }
  }

  /** What a run has collected from its rows. */
  datatype Evidence = Evidence(rows: seq<Row>, counts: seq<Counts>, injected: seq<Request>, firstHealthy: Option<Request>)

  predicate Collected(e: Evidence, faultTick: nat) {
    e.injected == Injected(e.rows, faultTick) && e.firstHealthy == FirstHealthy(e.rows, faultTick)
  }

  /** One row is emitted and bound to the ledger, or found to be the first healthy one. */
  method Emit(was: Evidence, row: Row, counts: Counts, faultTick: nat) returns (e: Evidence)
    requires Collected(was, faultTick)
    ensures e.rows == was.rows + [row] && e.counts == was.counts + [counts] && Collected(e, faultTick)
  {
    e := was.(rows := was.rows + [row], counts := was.counts + [counts]);
    if InFaultWindow(row, faultTick) {
      e := e.(injected := e.injected + [Request(row.tick, row.slot)]);
    }
    if ObservedHealthy(row, faultTick) && e.firstHealthy.None? {
      e := e.(firstHealthy := Some(Request(row.tick, row.slot)));
    }
    assert e.rows[..|e.rows| - 1] == was.rows;
  }

  /** One request: a canary request meets the configuration and may roll it back. */
  method Serve(config: LocalConfig, tick: nat, slot: nat, faultTick: nat, latency: Latency, was: Loop, ghost h: seq<Controller>)
    returns (row: Row, state: Loop)
    requires IsStream(h, faultTick, latency) && slot < SLOTS && ResponsesBefore(tick, slot + 1) < |h|
    requires Holds(h[ResponsesBefore(tick, slot)], was) && was.controls == ControlStatuses(ControlsBefore(tick, slot))
    requires config.Is(FaultNow(faultTick, h[ResponsesBefore(tick, slot)].latch, tick))
    modifies config
    ensures Holds(h[ResponsesBefore(tick, slot + 1)], state) && state.controls == ControlStatuses(ControlsBefore(tick, slot + 1))
    ensures config.Is(FaultNow(faultTick, h[ResponsesBefore(tick, slot + 1)].latch, tick))
    ensures row == RowAt(h, faultTick, tick, slot)
  {
    ghost var j := ResponsesBefore(tick, slot);
    var version, fault := config.SnapshotFor(slot);
    var status := 200;
    state := was;
    if IsCanary(slot) {
      StreamSound(h, faultTick, latency, j);
      assert IsStep(h, j, faultTick, latency);
      FaultAtSlot(h[j], faultTick, tick, slot);
      status, state := ObserveCanary(faultTick, latency, tick, slot, fault, was, h[j], h[j + 1]);
      if state.triggered && !was.triggered {
        config.Rollback();
      }
    } else {
      state := state.(controls := state.controls + [status]);
    }
    row := Row(tick, slot, version, status, StageOf(state.triggered, tick, faultTick));
  }

  lemma NextRow(h: seq<Controller>, faultTick: nat, tick: nat, slot: nat, before: seq<Row>, rows: seq<Row>, row: Row)
    requires ResponsesBefore(tick, slot + 1) < |h| && row == RowAt(h, faultTick, tick, slot)
    requires rows == before + TickRows(h, faultTick, tick, slot)
    ensures rows + [row] == before + TickRows(h, faultTick, tick, slot + 1)
  {
  }

  /** What the loop variables say after a request. */
  function RunningCounts(v: Loop, slot: nat): Counts {
    if IsCanary(slot) then CountsOf(v.statuses, ROLLING, v.buckets) else CountsOf(v.controls, 4 * ROLLING, [])
  }

  lemma CountsShown(f: (nat, nat) -> Counts, h: seq<Controller>, tick: nat, slot: nat, v: Loop)
    requires Shows(f, h)
    requires ResponsesBefore(tick, slot + 1) < |h| && Holds(h[ResponsesBefore(tick, slot + 1)], v)
    requires v.controls == ControlStatuses(ControlsBefore(tick, slot + 1))
    ensures RunningCounts(v, slot) == f(tick, slot)
  {
    assert RunningCounts(v, slot) == CountsAt(h, tick, slot);
  }

  lemma NextCounts(f: (nat, nat) -> Counts, tick: nat, slot: nat, before: seq<Counts>, all: seq<Counts>)
    requires all == before + TickColumn(f, tick, slot)
    ensures all + [f(tick, slot)] == before + TickColumn(f, tick, slot + 1)
  {
  }

  /** The run stands before a slot of a tick: the rows of the slots before it are
      emitted, and the configuration is what the slot will meet. */
  ghost predicate AtSlot(config: LocalConfig, f: (nat, nat) -> Counts, h: seq<Controller>, faultTick: nat, tick: nat, slot: nat, before: Evidence, state: Loop, e: Evidence)
    requires ResponsesBefore(tick, slot) < |h|
    reads config
  {
    && e.rows == before.rows + TickRows(h, faultTick, tick, slot) && Collected(e, faultTick)
    && e.counts == before.counts + TickColumn(f, tick, slot)
    && Holds(h[ResponsesBefore(tick, slot)], state) && state.controls == ControlStatuses(ControlsBefore(tick, slot))
    && config.Is(FaultNow(faultTick, h[ResponsesBefore(tick, slot)].latch, tick))
  }

  /** One request is served and its row emitted. */
  method RunSlot(config: LocalConfig, tick: nat, slot: nat, faultTick: nat, latency: Latency, wasState: Loop, was: Evidence, ghost before: Evidence, ghost f: (nat, nat) -> Counts, ghost h: seq<Controller>)
    returns (state: Loop, e: Evidence)
    requires IsStream(h, faultTick, latency) && Shows(f, h) && slot < SLOTS && ResponsesBefore(tick, slot + 1) < |h|
    requires AtSlot(config, f, h, faultTick, tick, slot, before, wasState, was)
    modifies config
    ensures AtSlot(config, f, h, faultTick, tick, slot + 1, before, state, e)
  {
    var row;
    row, state := Serve(config, tick, slot, faultTick, latency, wasState, h);
    NextRow(h, faultTick, tick, slot, before.rows, was.rows, row);
    var counts := RunningCounts(state, slot);
    CountsShown(f, h, tick, slot, state);
    NextCounts(f, tick, slot, before.counts, was.counts);
    e := Emit(was, row, counts, faultTick);
  }

  /** The ten requests of one tick. */
  method RunTick(config: LocalConfig, requestsPerTick: nat, tick: nat, faultTick: nat, latency: Latency, wasState: Loop, was: Evidence, ghost f: (nat, nat) -> Counts, ghost h: seq<Controller>)
    returns (state: Loop, e: Evidence)
    requires IsStream(h, faultTick, latency) && Shows(f, h) && requestsPerTick <= SLOTS && ResponsesBefore(tick, requestsPerTick) < |h|
    requires AtSlot(config, f, h, faultTick, tick, 0, was, wasState, was)
    modifies config
    ensures AtSlot(config, f, h, faultTick, tick, requestsPerTick, was, state, e)
  {
    state, e := wasState, was;
    for slot := 0 to requestsPerTick
      invariant AtSlot(config, f, h, faultTick, tick, slot, was, state, e)
    {
      state, e := RunSlot(config, tick, slot, faultTick, latency, state, e, was, f, h);
    }
  }

  /** The fault is injected as its tick begins. */
  method BeginTick(config: LocalConfig, tick: nat, faultTick: nat, ghost c: Controller)
    requires Sound(c, 2 * tick) && config.Is(tick > 0 && FaultNow(faultTick, c.latch, tick - 1))
    modifies config
    ensures config.Is(FaultNow(faultTick, c.latch, tick))
  {
    if tick == faultTick {
      config.InjectFault();
    }
  }

  /** The run stands before a tick. */
  ghost predicate AtTick(config: LocalConfig, f: (nat, nat) -> Counts, h: seq<Controller>, faultTick: nat, tick: nat, state: Loop, e: Evidence)
    requires 2 * tick < |h|
    reads config
  {
    && e.rows == Rows(h, faultTick, tick) && e.counts == RunColumn(f, tick) && Collected(e, faultTick)
    && Holds(h[2 * tick], state) && state.controls == ControlStatuses(8 * tick)
    && config.Is(tick > 0 && FaultNow(faultTick, h[2 * tick].latch, tick - 1))
  }

  /** A tick begins with the fault, where it is due. */
  method StartTick(config: LocalConfig, tick: nat, faultTick: nat, latency: Latency, ghost state: Loop, ghost e: Evidence, ghost f: (nat, nat) -> Counts, ghost h: seq<Controller>)
    requires IsStream(h, faultTick, latency) && 2 * tick < |h|
    requires AtTick(config, f, h, faultTick, tick, state, e)
    modifies config
    ensures AtSlot(config, f, h, faultTick, tick, 0, e, state, e)
  {
    StreamSound(h, faultTick, latency, 2 * tick);
    BeginTick(config, tick, faultTick, h[2 * tick]);
    TickStarts(f, h, faultTick, tick, e);
  }

  lemma EndTick(config: LocalConfig, slots: nat, tick: nat, faultTick: nat, before: Evidence, state: Loop, e: Evidence, f: (nat, nat) -> Counts, h: seq<Controller>)
    requires 2 * tick + 2 < |h| && slots == SLOTS
    requires before.rows == Rows(h, faultTick, tick) && before.counts == RunColumn(f, tick)
    requires AtSlot(config, f, h, faultTick, tick, slots, before, state, e)
    ensures AtTick(config, f, h, faultTick, tick + 1, state, e)
  {
    TickEnds(f, h, faultTick, tick, slots);
  }

  /** The ten requests of a tick, after the fault where it is due. */
  method RunWholeTick(config: LocalConfig, requestsPerTick: nat, tick: nat, faultTick: nat, latency: Latency, wasState: Loop, was: Evidence, ghost f: (nat, nat) -> Counts, ghost h: seq<Controller>)
    returns (state: Loop, e: Evidence)
    requires IsStream(h, faultTick, latency) && Shows(f, h) && 2 * tick + 2 < |h| && requestsPerTick == SLOTS
    requires AtTick(config, f, h, faultTick, tick, wasState, was)
    modifies config
    ensures AtTick(config, f, h, faultTick, tick + 1, state, e)
  {
    StartTick(config, tick, faultTick, latency, wasState, was, f, h);
    state, e := RunTick(config, requestsPerTick, tick, faultTick, latency, wasState, was, f, h);
    EndTick(config, requestsPerTick, tick, faultTick, was, state, e, f, h);
  }

  lemma TickStarts(f: (nat, nat) -> Counts, h: seq<Controller>, faultTick: nat, tick: nat, e: Evidence)
    requires 2 * tick < |h|
    ensures e.rows + TickRows(h, faultTick, tick, 0) == e.rows && e.counts + TickColumn(f, tick, 0) == e.counts
  {
  }

  lemma TickEnds(f: (nat, nat) -> Counts, h: seq<Controller>, faultTick: nat, tick: nat, slots: nat)
    requires 2 * tick + 2 < |h| && slots == SLOTS
    ensures ResponsesBefore(tick, slots) == 2 * tick + 2 && ControlsBefore(tick, slots) == 8 * (tick + 1)
    ensures Rows(h, faultTick, tick + 1) == Rows(h, faultTick, tick) + TickRows(h, faultTick, tick, slots)
    ensures RunColumn(f, tick + 1) == RunColumn(f, tick) + TickColumn(f, tick, slots)
  {
  }

  /** The tick loop of `_build_artifacts`. */
  method RunTicks(ticks: nat, requestsPerTick: nat, faultTick: nat, latency: Latency, ghost f: (nat, nat) -> Counts, ghost h: seq<Controller>)
    returns (state: Loop, e: Evidence)
    requires IsStream(h, faultTick, latency) && Shows(f, h) && |h| == 2 * ticks + 1 && requestsPerTick == SLOTS
    ensures e.rows == Rows(h, faultTick, ticks) && Collected(e, faultTick) && e.counts == RunColumn(f, ticks)
    ensures Holds(h[2 * ticks], state)
  {
    var config := new LocalConfig();
    state, e := Loop([], [], [], 0, false, [], [], []), Evidence([], [], [], None);
    for tick := 0 to ticks
      invariant AtTick(config, f, h, faultTick, tick, state, e)
    {
      state, e := RunWholeTick(config, requestsPerTick, tick, faultTick, latency, state, e, f, h);
    }
  }

  lemma FaultAtSlot(c: Controller, faultTick: nat, tick: nat, slot: nat)
    requires BASELINE_SLOTS <= slot < SLOTS && Sound(c, ResponsesBefore(tick, slot))
    ensures FaultNow(faultTick, c.latch, tick) == FaultOn(faultTick, c.latch, ResponsesBefore(tick, slot))
  {
  }

  /** The run saw a rollback and a healthy response after it. */
  predicate Succeeds(h: seq<Controller>, faultTick: nat, n: nat)
    requires |h| == 2 * n + 1
  {
    h[2 * n].latch.Some? && FirstHealthy(Rows(h, faultTick, n), faultTick).Some?
  }

  /** `_build_artifacts`: the run emits exactly the rows, ledger and history of the
      controller's stream, and refuses exactly when no rollback or no healthy
      response after it was seen. */
  method BuildArtifacts(a: Args, latency: Latency) returns (r: Result<Artifacts, Refusal>)
    ensures r == Err(BadArguments) <==> !Accepted(a)
    ensures Accepted(a) ==>
              var n := LogicalTicks(a);
              var h := Stream(a.faultTick, latency, 2 * n);
              var rows := Rows(h, a.faultTick, n);
              var c := h[2 * n];
              var healthy := FirstHealthy(rows, a.faultTick);
              && (r.Ok? <==> Succeeds(h, a.faultTick, n))
              && (r.Ok? ==>
                    && r.value.rows == rows && r.value.counts == RunColumn(Shown(h), n) && r.value.windows == c.windows && EndTicks(r.value.endTicks, c.windows)
                    && r.value.injected == Injected(rows, a.faultTick)
                    && r.value.triggers == TriggerRequests(c.latch)
                    && r.value.firstHealthy == healthy.value)
  {
    if !Accepted(a) {
      return Err(BadArguments);
    }
    var n := LogicalTicks(a);
    ghost var h := Stream(a.faultTick, latency, 2 * n);
    StreamIsStream(a.faultTick, latency, 2 * n);
    ShownShows(h);
    var state, e := RunTicks(n, a.requestsPerTick, a.faultTick, latency, Shown(h), h);
    if !state.triggered || e.firstHealthy.None? {
      return Err(NoRollbackSeen);
    }
    return Ok(Artifacts(e.rows, e.counts, state.windows, state.endTicks, e.injected, state.triggers, e.firstHealthy.value));
  }

  // ---------------------------------------------------------------- what the evidence says

  lemma {:induction false} TickRowIs(h: seq<Controller>, faultTick: nat, tick: nat, slots: nat, slot: nat)
    requires slot < slots && ResponsesBefore(tick, slots) < |h|
    ensures TickRows(h, faultTick, tick, slots)[slot] == RowAt(h, faultTick, tick, slot)
  {
    if slot < slots - 1 {
      TickRowIs(h, faultTick, tick, slots - 1, slot);
    }
  }

  /** Row 10 t + s is the one of slot s of tick t. */
  lemma {:induction false} RowIs(h: seq<Controller>, faultTick: nat, n: nat, tick: nat, slot: nat)
    requires tick < n && slot < SLOTS && 2 * n < |h|
    ensures Rows(h, faultTick, n)[10 * tick + slot] == RowAt(h, faultTick, tick, slot)
  {
    if tick < n - 1 {
      RowIs(h, faultTick, n - 1, tick, slot);
    } else {
      TickRowIs(h, faultTick, tick, SLOTS, slot);
    }
  }

  /** The rollback fired at window l of the stream. */
  predicate LatchedAt(h: seq<Controller>, l: nat) {
    forall j | 0 <= j < |h| :: h[j].latch == if ResponsesAt(l) <= j then Some(l) else None
  }

  lemma StreamLatch(h: seq<Controller>, faultTick: nat, latency: Latency, l: nat)
    requires IsStream(h, faultTick, latency) && h[|h| - 1].latch == Some(l)
    ensures LatchedAt(h, l) && ResponsesAt(l) < |h|
  {
    var m := |h| - 1;
    StreamSound(h, faultTick, latency, m);
    forall j | 0 <= j < |h| ensures h[j].latch == if ResponsesAt(l) <= j then Some(l) else None {
      StreamSound(h, faultTick, latency, j);
      LatchesOnce(h, faultTick, latency, j, m);
    }
  }

  /** Every row from the latch alone. */
  lemma RowFromLatch(h: seq<Controller>, faultTick: nat, tick: nat, slot: nat, l: nat)
    requires LatchedAt(h, l) && slot < SLOTS && ResponsesBefore(tick, SLOTS) < |h|
    requires TickOf(l) < faultTick + OBSERVE_AFTER
    ensures var row := RowAt(h, faultTick, tick, slot);
            && row.stage == (if tick >= faultTick + OBSERVE_AFTER then RolledBack
                             else if 10 * tick + slot >= 10 * TickOf(l) + 9 then Triggered
                             else NotTriggered)
            && (IsCanary(slot) ==> (row.version == Faulted <==> tick >= faultTick && (tick <= TickOf(l) || TickOf(l) < faultTick)))
            && (IsCanary(slot) && row.version != Faulted ==> row.version == Healthy && row.status == 200)
  {
    TickOfResponses(l);
    var j := ResponsesBefore(tick, slot);
    assert h[j].latch == if ResponsesAt(l) <= j then Some(l) else None;
    var e := ResponsesBefore(tick, slot + 1);
    assert h[e].latch == if ResponsesAt(l) <= e then Some(l) else None;
  }

  function Stages(rows: seq<Row>): (stages: seq<Stage>)
    ensures |stages| == |rows|
  {
    seq(|rows|, i requires 0 <= i < |rows| => rows[i].stage)
  }

  /** A column without its adjacent repeats. */
  function Collapse(s: seq<Stage>): seq<Stage> {
    if s == [] then []
    else
      var n := |s| - 1;
      if n > 0 && s[n] == s[n - 1] then Collapse(s[..n]) else Collapse(s[..n]) + [s[n]]
  }

  lemma {:induction false} CollapseStages(s: seq<Stage>, p: nat, q: nat)
    requires s != [] && 0 < p < q
    requires forall i | 0 <= i < |s| :: s[i] == if i < p then NotTriggered else if i < q then Triggered else RolledBack
    ensures Collapse(s) == [NotTriggered] + (if |s| > p then [Triggered] else []) + (if |s| > q then [RolledBack] else [])
  {
    var n := |s| - 1;
    if n > 0 {
      CollapseStages(s[..n], p, q);
    }
  }

  /** The run has latched by the time the harness looks for it, whatever the latencies. */
  lemma RunLatches(h: seq<Controller>, faultTick: nat, latency: Latency) returns (l: nat)
    requires IsStream(h, faultTick, latency) && |h| > 2 * (faultTick + 71)
    ensures LatchedAt(h, l) && TickOf(l) <= Deadline(faultTick)
  {
    var m := |h| - 1;
    var k := FirstSureExists(faultTick);
    SureArithmetic(faultTick, k);
    LatchedByDeadline(h, faultTick, latency, m, k);
    l := h[m].latch.value;
    StreamLatch(h, faultTick, latency, l);
    TickOfResponses(l);
  }

  /** The emitted column reads not triggered, triggered, rolled back: for every fault
      tick and every latency, even when the run is refused. */
  lemma HistoryColumn(h: seq<Controller>, faultTick: nat, latency: Latency, n: nat)
    requires IsStream(h, faultTick, latency) && |h| == 2 * n + 1 && n >= faultTick + 71
    ensures Collapse(Stages(Rows(h, faultTick, n))) == [NotTriggered, Triggered, RolledBack]
  {
    var l := RunLatches(h, faultTick, latency);
    var stages := Stages(Rows(h, faultTick, n));
    var p, q := 10 * TickOf(l) + 9, 10 * (faultTick + OBSERVE_AFTER);
    forall i | 0 <= i < |stages| ensures stages[i] == if i < p then NotTriggered else if i < q then Triggered else RolledBack {
      RowIs(h, faultTick, n, i / 10, i % 10);
      RowFromLatch(h, faultTick, i / 10, i % 10, l);
      assert i == 10 * (i / 10) + i % 10;
    }
    CollapseStages(stages, p, q);
  }

  lemma {:induction false} FirstHealthyFound(rows: seq<Row>, faultTick: nat, k: nat)
    requires k <= |rows|
    requires forall i | 0 <= i < k :: !ObservedHealthy(rows[i], faultTick)
    requires k < |rows| ==> ObservedHealthy(rows[k], faultTick)
    ensures FirstHealthy(rows, faultTick) == if k < |rows| then Some(Request(rows[k].tick, rows[k].slot)) else None
  {
    if rows != [] {
      var n := |rows| - 1;
      FirstHealthyFound(rows[..n], faultTick, if k <= n then k else n);
    }
  }

  /** The run finds a healthy response after the rollback exactly when the rollback
      came after the fault, and then it is slot 8 of tick fault + 70. */
  lemma FirstHealthyIs(h: seq<Controller>, faultTick: nat, latency: Latency, n: nat, l: nat)
    requires IsStream(h, faultTick, latency) && |h| == 2 * n + 1 && n >= faultTick + 71 && h[2 * n].latch == Some(l)
    ensures FirstHealthy(Rows(h, faultTick, n), faultTick) ==
            if TickOf(l) >= faultTick then Some(Request(faultTick + OBSERVE_AFTER, 8)) else None
  {
    var l' := RunLatches(h, faultTick, latency);
    assert h[2 * n].latch == if ResponsesAt(l') <= 2 * n then Some(l') else None;
    var rows := Rows(h, faultTick, n);
    var k := if TickOf(l) >= faultTick then 10 * (faultTick + OBSERVE_AFTER) + 8 else |rows|;
    forall i | 0 <= i < |rows| && i <= k ensures ObservedHealthy(rows[i], faultTick) <==> i == k {
      HealthyRowAt(h, faultTick, n, i / 10, i % 10, l);
      assert i == 10 * (i / 10) + i % 10;
    }
    FirstHealthyFound(rows, faultTick, k);
    if k < |rows| {
      RowIs(h, faultTick, n, faultTick + OBSERVE_AFTER, 8);
    }
  }

  lemma HealthyRowAt(h: seq<Controller>, faultTick: nat, n: nat, tick: nat, slot: nat, l: nat)
    requires LatchedAt(h, l) && tick < n && slot < SLOTS && 2 * n < |h|
    requires TickOf(l) < faultTick + OBSERVE_AFTER
    ensures ObservedHealthy(Rows(h, faultTick, n)[10 * tick + slot], faultTick) <==>
            IsCanary(slot) && tick >= faultTick + OBSERVE_AFTER && TickOf(l) >= faultTick
  {
    RowIs(h, faultTick, n, tick, slot);
    HealthyRow(h, faultTick, tick, slot, l);
  }

  lemma HealthyRow(h: seq<Controller>, faultTick: nat, tick: nat, slot: nat, l: nat)
    requires LatchedAt(h, l) && slot < SLOTS && ResponsesBefore(tick, SLOTS) < |h|
    requires TickOf(l) < faultTick + OBSERVE_AFTER
    ensures ObservedHealthy(RowAt(h, faultTick, tick, slot), faultTick) <==>
            IsCanary(slot) && tick >= faultTick + OBSERVE_AFTER && TickOf(l) >= faultTick
  {
    RowFromLatch(h, faultTick, tick, slot, l);
  }

  /** With enough ticks a run succeeds exactly when its rollback did not come before
      the fault: a rollback spent too early leaves the fault on for good. */
  lemma SucceedsUnlessEarly(h: seq<Controller>, faultTick: nat, latency: Latency, n: nat)
    requires IsStream(h, faultTick, latency) && |h| == 2 * n + 1 && n >= faultTick + 71
    ensures Succeeds(h, faultTick, n) <==> !(h[2 * n].latch.Some? && ResponsesAt(h[2 * n].latch.value) <= 2 * faultTick)
    ensures Succeeds(h, faultTick, n) ==> FirstHealthy(Rows(h, faultTick, n), faultTick) == Some(Request(faultTick + OBSERVE_AFTER, 8))
  {
    var l := RunLatches(h, faultTick, latency);
    assert h[2 * n].latch == if ResponsesAt(l) <= 2 * n then Some(l) else None;
    TickOfResponses(l);
    FirstHealthyIs(h, faultTick, latency, n, l);
  }

  /** A run with accepted arguments is refused exactly when the canary is slow, while it
      is still healthy, in three evaluated windows in a row before the fault tick. */
  lemma RunSucceedsExactlyWhen(a: Args, latency: Latency)
    requires Accepted(a)
    ensures Succeeds(Stream(a.faultTick, latency, 2 * LogicalTicks(a)), a.faultTick, LogicalTicks(a))
            <==> !exists i: nat :: EarlyTriple(a.faultTick, latency, i)
  {
    var n := LogicalTicks(a);
    var h := Stream(a.faultTick, latency, 2 * n);
    StreamIsStream(a.faultTick, latency, 2 * n);
    SucceedsUnlessEarly(h, a.faultTick, latency, n);
    EarlyLatchExactly(h, a.faultTick, latency, 2 * n);
  }

  /** A canary that is fast while healthy always makes the run succeed, and slot 8 of
      tick fault + 70 is the first healthy request. */
  lemma HealthyRunSucceeds(h: seq<Controller>, faultTick: nat, latency: Latency, n: nat)
    requires IsStream(h, faultTick, latency) && |h| == 2 * n + 1 && n >= faultTick + 71
    requires FastWhenHealthy(latency)
    ensures Succeeds(h, faultTick, n)
    ensures FirstHealthy(Rows(h, faultTick, n), faultTick) == Some(Request(faultTick + OBSERVE_AFTER, 8))
  {
    RollbackDeadline(h, faultTick, latency, 2 * n);
    TickOfResponses(h[2 * n].latch.value);
    SucceedsUnlessEarly(h, faultTick, latency, n);
  }

  /** From fault tick 70 on a canary that takes 50 ms or more while healthy makes the
      run fail: its rollback fires at once, in tick 69, and is spent. */
  lemma SlowRunIsRefused(a: Args, latency: Latency)
    requires Accepted(a) && a.faultTick >= 70 && forall j: nat :: latency(j, false) >= 50_000_000
    ensures !Succeeds(Stream(a.faultTick, latency, 2 * LogicalTicks(a)), a.faultTick, LogicalTicks(a))
  {
    AlwaysSlow(latency, 5);
    AlwaysSlow(latency, 6);
    AlwaysSlow(latency, 7);
    assert EarlyTriple(a.faultTick, latency, 0);
    RunSucceedsExactlyWhen(a, latency);
  }

  /** Every response after the rollback is healthy, for a canary that is fast while healthy. */
  lemma HealthyAfterRollback(h: seq<Controller>, faultTick: nat, latency: Latency, n: nat, l: nat, tick: nat, slot: nat)
    requires IsStream(h, faultTick, latency) && |h| == 2 * n + 1 && n >= faultTick + 71 && h[2 * n].latch == Some(l)
    requires FastWhenHealthy(latency) && tick < n && BASELINE_SLOTS <= slot < SLOTS
    ensures var row := Rows(h, faultTick, n)[10 * tick + slot];
            && (row.version == Faulted <==> faultTick <= tick <= TickOf(l))
            && (row.version != Faulted ==> row.version == Healthy && row.status == 200)
  {
    StreamLatch(h, faultTick, latency, l);
    RollbackDeadline(h, faultTick, latency, 2 * n);
    RowIs(h, faultTick, n, tick, slot);
    RowFromLatch(h, faultTick, tick, slot, l);
  }

  // ---------------------------------------------------------------- the private ledger

  /** Both canary requests of each tick of the assumed fault window. */
  function WindowRequests(faultTick: nat, n: nat): seq<Request> {
    if n == 0 then []
    else
      WindowRequests(faultTick, n - 1) +
      if faultTick <= n - 1 < faultTick + OBSERVE_AFTER then [Request(n - 1, 8), Request(n - 1, 9)] else []
  }

  lemma {:induction false} InjectedTick(before: seq<Row>, h: seq<Controller>, faultTick: nat, tick: nat, slots: nat)
    requires slots <= SLOTS && ResponsesBefore(tick, slots) < |h|
    ensures Injected(before + TickRows(h, faultTick, tick, slots), faultTick) ==
            Injected(before, faultTick) +
            (if faultTick <= tick < faultTick + OBSERVE_AFTER then [Request(tick, 8), Request(tick, 9)][..ResponsesBefore(tick, slots) - 2 * tick] else [])
  {
    var rows := before + TickRows(h, faultTick, tick, slots);
    if slots == 0 {
      assert rows == before;
    } else {
      InjectedTick(before, h, faultTick, tick, slots - 1);
      assert rows[..|rows| - 1] == before + TickRows(h, faultTick, tick, slots - 1);
    }
  }

  /** The ledger binds exactly the canary requests of ticks fault to fault + 69. */
  lemma InjectedIs(h: seq<Controller>, faultTick: nat, n: nat)
    requires 2 * n < |h|
    ensures Injected(Rows(h, faultTick, n), faultTick) == WindowRequests(faultTick, n)
  {
    for k := 0 to n
      invariant InjectedFits(h, faultTick, k)
    {
      InjectedNext(h, faultTick, k);
    }
  }

  predicate InjectedFits(h: seq<Controller>, faultTick: nat, n: nat)
    requires 2 * n < |h|
  {
    Injected(Rows(h, faultTick, n), faultTick) == WindowRequests(faultTick, n)
  }

  lemma InjectedNext(h: seq<Controller>, faultTick: nat, k: nat)
    requires 2 * k + 2 < |h| && InjectedFits(h, faultTick, k)
    ensures InjectedFits(h, faultTick, k + 1)
  {
    InjectedWholeTick(Rows(h, faultTick, k), h, faultTick, k, Rows(h, faultTick, k + 1));
  }

  lemma InjectedWholeTick(before: seq<Row>, h: seq<Controller>, faultTick: nat, tick: nat, rows: seq<Row>)
    requires 2 * tick + 2 < |h| && rows == before + TickRows(h, faultTick, tick, SLOTS)
    ensures Injected(rows, faultTick) == Injected(before, faultTick) +
            (if faultTick <= tick < faultTick + OBSERVE_AFTER then [Request(tick, 8), Request(tick, 9)] else [])
  {
    InjectedTick(before, h, faultTick, tick, SLOTS);
    assert [Request(tick, 8), Request(tick, 9)][..2] == [Request(tick, 8), Request(tick, 9)];
  }

  lemma {:induction false} WindowRequestsLength(faultTick: nat, n: nat)
    ensures |WindowRequests(faultTick, n)| == 2 * Max(0, Min(n, faultTick + OBSERVE_AFTER) - faultTick)
  {
    if n > 0 {
      WindowRequestsLength(faultTick, n - 1);
    }
  }

  lemma {:induction false} WindowRequestsMember(faultTick: nat, n: nat, tick: nat, slot: nat)
    ensures Request(tick, slot) in WindowRequests(faultTick, n) <==>
            faultTick <= tick < faultTick + OBSERVE_AFTER && tick < n && (slot == 8 || slot == 9)
  {
    if n > 0 {
      WindowRequestsMember(faultTick, n - 1, tick, slot);
    }
  }

  /** The ledger always counts 140 injected requests, but from fault tick 1 on the
      last ones of them were answered by the healthy configuration, because the
      rollback really comes earlier than the program assumes. */
  lemma LedgerOvercounts(h: seq<Controller>, faultTick: nat, latency: Latency, n: nat, slot: nat)
    requires IsStream(h, faultTick, latency) && |h| == 2 * n + 1 && n >= faultTick + 71
    requires FastWhenHealthy(latency) && faultTick >= 1 && BASELINE_SLOTS <= slot < SLOTS
    ensures var rows := Rows(h, faultTick, n);
            && |Injected(rows, faultTick)| == 140
            && Request(faultTick + 69, slot) in Injected(rows, faultTick)
            && rows[10 * (faultTick + 69) + slot].version == Healthy
  {
    LedgerCount(h, faultTick, n, slot);
    LastTickIsHealthy(h, faultTick, latency, n, slot);
  }

  lemma LedgerCount(h: seq<Controller>, faultTick: nat, n: nat, slot: nat)
    requires |h| == 2 * n + 1 && n >= faultTick + 71 && BASELINE_SLOTS <= slot < SLOTS
    ensures |Injected(Rows(h, faultTick, n), faultTick)| == 140
    ensures Request(faultTick + 69, slot) in Injected(Rows(h, faultTick, n), faultTick)
  {
    InjectedIs(h, faultTick, n);
    WindowRequestsLength(faultTick, n);
    WindowRequestsMember(faultTick, n, faultTick + 69, slot);
  }

  lemma LastTickIsHealthy(h: seq<Controller>, faultTick: nat, latency: Latency, n: nat, slot: nat)
    requires IsStream(h, faultTick, latency) && |h| == 2 * n + 1 && n >= faultTick + 71
    requires FastWhenHealthy(latency) && faultTick >= 1 && BASELINE_SLOTS <= slot < SLOTS
    ensures Rows(h, faultTick, n)[10 * (faultTick + 69) + slot].version == Healthy
  {
    RollbackDeadline(h, faultTick, latency, 2 * n);
    HealthyAfterRollback(h, faultTick, latency, n, h[2 * n].latch.value, faultTick + 69, slot);
  }

  // ---------------------------------------------------------------- the public counters

  lemma {:induction false} TickColumnAt(f: (nat, nat) -> Counts, tick: nat, slots: nat, slot: nat)
    requires slot < slots
    ensures TickColumn(f, tick, slots)[slot] == f(tick, slot)
  {
    if slot < slots - 1 {
      TickColumnAt(f, tick, slots - 1, slot);
    }
  }

  lemma {:induction false} RunColumnAt(f: (nat, nat) -> Counts, n: nat, tick: nat, slot: nat)
    requires tick < n && slot < SLOTS
    ensures RunColumn(f, n)[10 * tick + slot] == f(tick, slot)
  {
    if tick < n - 1 {
      RunColumnAt(f, n - 1, tick, slot);
    } else {
      TickColumnAt(f, tick, SLOTS, slot);
    }
  }

  /** Row 10 t + s shows the running numbers of slot s of tick t. */
  lemma CountsIs(f: (nat, nat) -> Counts, h: seq<Controller>, n: nat, tick: nat, slot: nat)
    requires Shows(f, h) && tick < n && slot < SLOTS && 2 * n < |h|
    ensures RunColumn(f, n)[10 * tick + slot] == CountsAt(h, tick, slot)
  {
    RunColumnAt(f, n, tick, slot);
    FromShows(f, h, tick, slot);
  }

  lemma FromShows(f: (nat, nat) -> Counts, h: seq<Controller>, tick: nat, slot: nat)
    requires Shows(f, h) && ResponsesBefore(tick, slot + 1) < |h|
    ensures f(tick, slot) == CountsAt(h, tick, slot)
  {
    var shown := CountsAt(h, tick, slot);
  }

  /** Errors among the first c responses when the fault is on from response `on` to
      response `off`. */
  function ErrorsBefore(on: nat, off: nat, c: nat): int {
    if c <= on then 0 else Min(c, off) / 4 - on / 4
  }

  lemma {:induction false} ErrorsAre(statuses: seq<nat>, on: nat, off: nat)
    requires on <= off && forall j | 0 <= j < |statuses| :: statuses[j] == Status(j, on <= j < off)
    ensures CountAtLeast(statuses, 500) == ErrorsBefore(on, off, |statuses|)
  {
    if statuses != [] {
      var n := |statuses| - 1;
      ErrorsAre(statuses[..n], on, off);
      assert statuses[n] == Status(n, on <= n < off);
    }
  }

  lemma LastErrorsAre(statuses: seq<nat>, on: nat, off: nat, size: nat)
    requires on <= off && forall j | 0 <= j < |statuses| :: statuses[j] == Status(j, on <= j < off)
    ensures var n, r := |statuses|, RollingRate(statuses, size);
            r.of == Min(n, size) && r.errors == ErrorsBefore(on, off, n) - ErrorsBefore(on, off, Max(0, n - size))
  {
    ErrorsAre(statuses, on, off);
    if |statuses| >= size {
      var k := |statuses| - size;
      ErrorsAre(statuses[..k], on, off);
      CountAppend(statuses[..k], statuses[k..], 500);
      assert statuses[..k] + statuses[k..] == statuses;
    }
  }

  lemma FaultedStretch(h: seq<Controller>, faultTick: nat, latency: Latency, l: nat, n: nat)
    requires IsStream(h, faultTick, latency) && LatchedAt(h, l) && n < |h| && ResponsesAt(l) > 2 * faultTick
    ensures |h[n].statuses| == n
    ensures forall j | 0 <= j < n :: h[n].statuses[j] == Status(j, 2 * faultTick <= j < ResponsesAt(l))
  {
    StreamDescribed(h, faultTick, latency, n);
  }

  /** The running numbers in every canary row, for a rollback that follows the fault:
      the errors grow by one every fourth response from the fault to the rollback, and
      the rolling rate counts those of the last 140 responses. */
  lemma CanaryCounts(h: seq<Controller>, faultTick: nat, latency: Latency, l: nat, tick: nat, slot: nat)
    requires IsStream(h, faultTick, latency) && LatchedAt(h, l) && ResponsesAt(l) > 2 * faultTick
    requires BASELINE_SLOTS <= slot < SLOTS && ResponsesBefore(tick, SLOTS) < |h|
    ensures var counts, n := CountsAt(h, tick, slot), 2 * tick + slot - 7;
            && counts.requests == n
            && counts.errors == ErrorsBefore(2 * faultTick, ResponsesAt(l), n)
            && counts.rolling.of == Min(n, ROLLING)
            && counts.rolling.errors ==
               ErrorsBefore(2 * faultTick, ResponsesAt(l), n) - ErrorsBefore(2 * faultTick, ResponsesAt(l), Max(0, n - ROLLING))
  {
    var n := ResponsesBefore(tick, slot + 1);
    FaultedStretch(h, faultTick, latency, l, n);
    ErrorsAre(h[n].statuses, 2 * faultTick, ResponsesAt(l));
    LastErrorsAre(h[n].statuses, 2 * faultTick, ResponsesAt(l), ROLLING);
  }

  /** The public rate is back to zero 70 ticks after the rollback and stays there. */
  lemma RateRecovers(h: seq<Controller>, faultTick: nat, latency: Latency, l: nat, tick: nat, slot: nat)
    requires IsStream(h, faultTick, latency) && LatchedAt(h, l) && ResponsesAt(l) > 2 * faultTick
    requires BASELINE_SLOTS <= slot < SLOTS && ResponsesBefore(tick, SLOTS) < |h|
    requires tick > TickOf(l) + 70
    ensures CountsAt(h, tick, slot).rolling == Rate(0, ROLLING)
  {
    TickOfResponses(l);
    CanaryCounts(h, faultTick, latency, l, tick, slot);
  }

  /** The control rows never show an error. */
  lemma ControlCounts(h: seq<Controller>, tick: nat, slot: nat)
    requires slot < BASELINE_SLOTS && ResponsesBefore(tick, SLOTS) < |h|
    ensures var counts := CountsAt(h, tick, slot);
            && counts.requests == 8 * tick + slot + 1 && counts.errors == 0
            && counts.rolling == Rate(0, Min(counts.requests, 4 * ROLLING)) && counts.latencies == multiset{}
  {
    var statuses := ControlStatuses(ControlsBefore(tick, slot + 1));
    NoneAtLeast(statuses, 500);
    NoneAtLeast(LastOf(statuses, 4 * ROLLING), 500);
  }
}
