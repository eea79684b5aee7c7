/** The sampling loop of the queue fleet over an ideal broker: one publish batch, one
    consume plan and one observation of all services per sample. */
module FleetHarness {
  import opened Numbers
  import opened Outcomes
  import opened QueueMirror
  import opened FleetSignal

  const MAX_MESSAGES: nat := 35_872
  const MAX_MANAGEMENT_CALLS: nat := 80_000

  type Batch = seq<(nat, Message)>

  type Plan = seq<(nat, Drain)>

  /** What each service publishes, has rejected and consumes in each sample. */
  datatype Load = Load(messages: (nat, nat) -> seq<Message>, poison: (nat, nat) -> nat, drains: (nat, nat) -> seq<Drain>)

  datatype Row = Row(service: nat, ordinal: nat, ready: nat, dlq: nat, published: nat, rejected: nat)

  datatype Refusal = MessageBoundBreach | ManagementCallBoundBreach

  predicate BatchFits(batch: Batch, services: nat) {
    forall k | 0 <= k < |batch| :: batch[k].0 < services
  }

  predicate PlanFits(plan: Plan, services: nat) {
    forall k | 0 <= k < |plan| :: plan[k].0 < services
  }

  // ---------------------------------------------------------------- the broker of all services

  function ApplyBatch(brokers: seq<Broker>, batch: Batch): (r: seq<Broker>)
    requires BatchFits(batch, |brokers|)
    ensures |r| == |brokers|
  {
    if batch == [] then brokers
    else
      var n := |batch| - 1;
      var before := ApplyBatch(brokers, batch[..n]);
      var (s, m) := batch[n];
      before[s := before[s].(ready := before[s].ready + [m])]
  }

  function ApplyPlan(brokers: seq<Broker>, plan: Plan): (r: seq<Broker>)
    requires PlanFits(plan, |brokers|)
    ensures |r| == |brokers|
  {
    if plan == [] then brokers
    else
      var n := |plan| - 1;
      var before := ApplyPlan(brokers, plan[..n]);
      var (s, d) := plan[n];
      before[s := DrainQueue(before[s], d)]
  }

  /** Entries for one service. */
  function Addressed<T>(service: nat, xs: seq<T>): (entries: seq<(nat, T)>)
    ensures |entries| == |xs|
  {
    seq(|xs|, k requires 0 <= k < |xs| => (service, xs[k]))
  }

  lemma OneMoreMessage(brokers: seq<Broker>, batch: Batch, service: nat, m: Message)
    requires BatchFits(batch, |brokers|) && service < |brokers|
    ensures BatchFits(batch + [(service, m)], |brokers|)
    ensures var before := ApplyBatch(brokers, batch);
            ApplyBatch(brokers, batch + [(service, m)]) == before[service := before[service].(ready := before[service].ready + [m])]
  {
    assert (batch + [(service, m)])[..|batch|] == batch;
  }

  function Extended(brokers: seq<Broker>, service: nat, ms: seq<Message>): (r: seq<Broker>)
    requires service < |brokers|
    ensures |r| == |brokers|
  {
    brokers[service := brokers[service].(ready := brokers[service].ready + ms)]
  }

  lemma ExtendedTwice(brokers: seq<Broker>, service: nat, ms: seq<Message>, m: Message)
    requires service < |brokers|
    ensures Extended(Extended(brokers, service, ms), service, [m]) == Extended(brokers, service, ms + [m])
  {
    assert brokers[service].ready + ms + [m] == brokers[service].ready + (ms + [m]);
  }

  /** A batch for one service, sent after others, only extends its queue. */
  lemma {:induction false} ApplyForQueue(brokers: seq<Broker>, batch: Batch, service: nat, ms: seq<Message>)
    requires BatchFits(batch, |brokers|) && service < |brokers|
    ensures BatchFits(batch + Addressed(service, ms), |brokers|)
    ensures ApplyBatch(brokers, batch + Addressed(service, ms)) == Extended(ApplyBatch(brokers, batch), service, ms)
    decreases |ms|
  {
    if ms == [] {
      assert batch + Addressed(service, ms) == batch;
      var before := ApplyBatch(brokers, batch);
      assert before[service].ready + [] == before[service].ready;
    } else {
      var n := |ms| - 1;
      ApplyForQueue(brokers, batch, service, ms[..n]);
      OneMoreMessage(brokers, batch + Addressed(service, ms[..n]), service, ms[n]);
      ExtendedTwice(ApplyBatch(brokers, batch), service, ms[..n], ms[n]);
      LastMessageApart(batch, service, ms);
    }
  }

  lemma LastMessageApart(batch: Batch, service: nat, ms: seq<Message>)
    requires ms != []
    ensures var n := |ms| - 1;
            && batch + Addressed(service, ms[..n]) + [(service, ms[n])] == batch + Addressed(service, ms)
            && ms[..n] + [ms[n]] == ms
  {
  }

  lemma OneMoreDrained(brokers: seq<Broker>, plan: Plan, service: nat, d: Drain)
    requires PlanFits(plan, |brokers|) && service < |brokers|
    ensures PlanFits(plan + [(service, d)], |brokers|)
    ensures var before := ApplyPlan(brokers, plan);
            ApplyPlan(brokers, plan + [(service, d)]) == before[service := DrainQueue(before[service], d)]
  {
    assert (plan + [(service, d)])[..|plan|] == plan;
  }

  function Drained(brokers: seq<Broker>, service: nat, drains: seq<Drain>): (r: seq<Broker>)
    requires service < |brokers|
    ensures |r| == |brokers|
  {
    brokers[service := RunPlan(brokers[service], drains)]
  }

  lemma DrainedTwice(brokers: seq<Broker>, service: nat, drains: seq<Drain>, d: Drain)
    requires service < |brokers|
    ensures var before := Drained(brokers, service, drains);
            before[service := DrainQueue(before[service], d)] == Drained(brokers, service, drains + [d])
  {
    OneMoreDrain(brokers[service], drains, d);
  }

  /** The entries of one service, after others, only drain its own queues. */
  lemma {:induction false} ApplyForPlan(brokers: seq<Broker>, plan: Plan, service: nat, drains: seq<Drain>)
    requires PlanFits(plan, |brokers|) && service < |brokers|
    ensures PlanFits(plan + Addressed(service, drains), |brokers|)
    ensures ApplyPlan(brokers, plan + Addressed(service, drains)) == Drained(ApplyPlan(brokers, plan), service, drains)
    decreases |drains|
  {
    if drains == [] {
      assert plan + Addressed(service, drains) == plan;
    } else {
      var n := |drains| - 1;
      ApplyForPlan(brokers, plan, service, drains[..n]);
      OneMoreDrained(brokers, plan + Addressed(service, drains[..n]), service, drains[n]);
      DrainedTwice(ApplyPlan(brokers, plan), service, drains[..n], drains[n]);
      LastApart(plan, service, drains);
    }
  }

  lemma LastApart(plan: Plan, service: nat, drains: seq<Drain>)
    requires drains != []
    ensures var n := |drains| - 1;
            && plan + Addressed(service, drains[..n]) + [(service, drains[n])] == plan + Addressed(service, drains)
            && drains[..n] + [drains[n]] == drains
  {
  }

  // ---------------------------------------------------------------- one sample of the fleet

  function FleetBatch(load: Load, services: nat, ordinal: nat): (batch: Batch)
    ensures BatchFits(batch, services)
  {
    if services == 0 then []
    else FleetBatch(load, services - 1, ordinal) + Addressed(services - 1, load.messages(services - 1, ordinal))
  }

  function FleetPlan(load: Load, services: nat, ordinal: nat): (plan: Plan)
    ensures PlanFits(plan, services)
  {
    if services == 0 then []
    else FleetPlan(load, services - 1, ordinal) + Addressed(services - 1, load.drains(services - 1, ordinal))
  }

  predicate ExtendedUpTo(before: seq<Broker>, after: seq<Broker>, load: Load, services: nat, ordinal: nat)
    requires |before| == |after|
  {
    forall s | 0 <= s < |before| ::
      after[s] == if s < services then before[s].(ready := before[s].ready + load.messages(s, ordinal)) else before[s]
  }

  lemma {:induction false} BatchServesAll(brokers: seq<Broker>, load: Load, services: nat, ordinal: nat)
    requires services <= |brokers|
    ensures ExtendedUpTo(brokers, ApplyBatch(brokers, FleetBatch(load, services, ordinal)), load, services, ordinal)
  {
    if services > 0 {
      BatchServesAll(brokers, load, services - 1, ordinal);
      ApplyForQueue(brokers, FleetBatch(load, services - 1, ordinal), services - 1, load.messages(services - 1, ordinal));
    }
  }

  predicate DrainedUpTo(before: seq<Broker>, after: seq<Broker>, load: Load, services: nat, ordinal: nat)
    requires |before| == |after|
  {
    forall s | 0 <= s < |before| ::
      after[s] == if s < services then RunPlan(before[s], load.drains(s, ordinal)) else before[s]
  }

  lemma OneMorePlanned(brokers: seq<Broker>, load: Load, service: nat, ordinal: nat)
    requires service < |brokers|
    ensures ApplyPlan(brokers, FleetPlan(load, service + 1, ordinal)) ==
            Drained(ApplyPlan(brokers, FleetPlan(load, service, ordinal)), service, load.drains(service, ordinal))
  {
    var plan := FleetPlan(load, service, ordinal);
    ApplyForPlan(brokers, plan, service, load.drains(service, ordinal));
    assert FleetPlan(load, service + 1, ordinal) == plan + Addressed(service, load.drains(service, ordinal));
  }

  /** The brokers after the plans of the first `services` services, one after the other. */
  function Served(brokers: seq<Broker>, load: Load, services: nat, ordinal: nat): (r: seq<Broker>)
    requires services <= |brokers|
    ensures |r| == |brokers|
  {
    if services == 0 then brokers
    else Drained(Served(brokers, load, services - 1, ordinal), services - 1, load.drains(services - 1, ordinal))
  }

  lemma {:induction false} ServedAt(brokers: seq<Broker>, load: Load, services: nat, ordinal: nat, k: nat)
    requires services <= |brokers| && k < |brokers|
    ensures Served(brokers, load, services, ordinal)[k] == if k < services then RunPlan(brokers[k], load.drains(k, ordinal)) else brokers[k]
  {
    if services > 0 {
      ServedAt(brokers, load, services - 1, ordinal, k);
    }
  }

  predicate PlanIsServed(brokers: seq<Broker>, load: Load, services: nat, ordinal: nat)
    requires services <= |brokers|
  {
    ApplyPlan(brokers, FleetPlan(load, services, ordinal)) == Served(brokers, load, services, ordinal)
  }

  lemma OneMoreServed(brokers: seq<Broker>, load: Load, service: nat, ordinal: nat)
    requires service < |brokers| && PlanIsServed(brokers, load, service, ordinal)
    ensures PlanIsServed(brokers, load, service + 1, ordinal)
  {
    OneMorePlanned(brokers, load, service, ordinal);
  }

  lemma PlanServes(brokers: seq<Broker>, load: Load, services: nat, ordinal: nat)
    requires services <= |brokers|
    ensures PlanIsServed(brokers, load, services, ordinal)
  {
    for s := 0 to services
      invariant PlanIsServed(brokers, load, s, ordinal)
    {
      OneMoreServed(brokers, load, s, ordinal);
    }
  }

  lemma PlanServesAll(brokers: seq<Broker>, load: Load, services: nat, ordinal: nat)
    requires services <= |brokers|
    ensures DrainedUpTo(brokers, ApplyPlan(brokers, FleetPlan(load, services, ordinal)), load, services, ordinal)
  {
    PlanServes(brokers, load, services, ordinal);
    forall k | 0 <= k < |brokers|
      ensures Served(brokers, load, services, ordinal)[k] == if k < services then RunPlan(brokers[k], load.drains(k, ordinal)) else brokers[k]
    {
      ServedAt(brokers, load, services, ordinal, k);
    }
  }

  /** The broker queues of a service after its first `samples` samples. */
  function QueuesOf(load: Load, service: nat, samples: nat): Broker {
    if samples == 0 then Broker([], [])
    else
      var b := QueuesOf(load, service, samples - 1);
      RunPlan(b.(ready := b.ready + load.messages(service, samples - 1)), load.drains(service, samples - 1))
  }

  function Fleet(load: Load, services: nat, samples: nat): (brokers: seq<Broker>)
    ensures |brokers| == services
  {
    seq(services, s requires 0 <= s => QueuesOf(load, s, samples))
  }

  /** A batch and then a plan for the whole fleet take every service one sample on,
      independently of the others. */
  lemma SampleStep(load: Load, services: nat, ordinal: nat)
    ensures var published := ApplyBatch(Fleet(load, services, ordinal), FleetBatch(load, services, ordinal));
            ApplyPlan(published, FleetPlan(load, services, ordinal)) == Fleet(load, services, ordinal + 1)
  {
    var brokers := Fleet(load, services, ordinal);
    BatchServesAll(brokers, load, services, ordinal);
    PlanServesAll(ApplyBatch(brokers, FleetBatch(load, services, ordinal)), load, services, ordinal);
  }

  // ---------------------------------------------------------------- counters and rows

  /** Messages a service has published, or had rejected, in the first samples. */
  function Sent(load: Load, service: nat, samples: nat): nat {
    if samples == 0 then 0 else Sent(load, service, samples - 1) + |load.messages(service, samples - 1)|
  }

  function Rejected(load: Load, service: nat, samples: nat): nat {
    if samples == 0 then 0 else Rejected(load, service, samples - 1) + load.poison(service, samples - 1)
  }

  function RowAt(load: Load, service: nat, ordinal: nat): Row {
    var b := QueuesOf(load, service, ordinal + 1);
    Row(service, ordinal, |b.ready|, |b.dlq|, Sent(load, service, ordinal + 1), Rejected(load, service, ordinal + 1))
  }

  function SampleRows(load: Load, services: nat, ordinal: nat): seq<Row> {
    if services == 0 then [] else SampleRows(load, services - 1, ordinal) + [RowAt(load, services - 1, ordinal)]
  }

  function Telemetry(load: Load, services: nat, samples: nat): seq<Row> {
    if samples == 0 then [] else Telemetry(load, services, samples - 1) + SampleRows(load, services, samples - 1)
  }

  function PlannedCount(plan: Plan): nat {
    if plan == [] then 0 else PlannedCount(plan[..|plan| - 1]) + plan[|plan| - 1].1.count
  }

  lemma {:induction false} PlannedAppend(p: Plan, q: Plan)
    ensures PlannedCount(p + q) == PlannedCount(p) + PlannedCount(q)
    decreases |q|
  {
    if q == [] {
      assert p + q == p;
    } else {
      assert (p + q)[..|p + q| - 1] == p + q[..|q| - 1];
      PlannedAppend(p, q[..|q| - 1]);
    }
  }

  function PublishedTotal(load: Load, services: nat, samples: nat): nat {
    if samples == 0 then 0
    else PublishedTotal(load, services, samples - 1) + |FleetBatch(load, services, samples - 1)|
  }

  function ConsumedTotal(load: Load, services: nat, samples: nat): nat {
    if samples == 0 then 0
    else ConsumedTotal(load, services, samples - 1) + PlannedCount(FleetPlan(load, services, samples - 1))
  }

  predicate WithinBounds(load: Load, services: nat, samples: nat) {
    PublishedTotal(load, services, samples) <= MAX_MESSAGES && ConsumedTotal(load, services, samples) <= MAX_MESSAGES
  }

  /** Calls that declare the exchange and the queues of all services. */
  function DeclareCalls(services: nat): nat {
    1 + 3 * services
  }

  /** The sample whose observation exceeds the bound on management calls. */
  function OverrunAt(services: nat): nat {
    Max(1, MAX_MANAGEMENT_CALLS - DeclareCalls(services) + 1)
  }

  lemma OverrunsFrom(services: nat, sample: nat)
    ensures OverrunAt(services) <= sample <==> sample > 0 && DeclareCalls(services) + sample > MAX_MANAGEMENT_CALLS
  {
  }

  // ---------------------------------------------------------------- the loop

  method PublishRows(brokers: array<Broker>, batch: Batch)
    requires BatchFits(batch, brokers.Length)
    modifies brokers
    ensures brokers[..] == ApplyBatch(old(brokers[..]), batch)
  {
    for k := 0 to |batch|
      invariant brokers[..] == ApplyBatch(old(brokers[..]), batch[..k])
    {
      assert batch[..k + 1][..k] == batch[..k];
      var (s, m) := batch[k];
      brokers[s] := brokers[s].(ready := brokers[s].ready + [m]);
    }
    assert batch[..|batch|] == batch;
  }

  method ConsumeRows(brokers: array<Broker>, plan: Plan)
    requires PlanFits(plan, brokers.Length)
    modifies brokers
    ensures brokers[..] == ApplyPlan(old(brokers[..]), plan)
  {
    for k := 0 to |plan|
      invariant brokers[..] == ApplyPlan(old(brokers[..]), plan[..k])
    {
      assert plan[..k + 1][..k] == plan[..k];
      var (s, d) := plan[k];
      brokers[s] := DrainQueue(brokers[s], d);
    }
    assert plan[..|plan|] == plan;
  }

  predicate CountedAt(load: Load, published: nat, rejected: nat, service: nat, samples: nat) {
    published == Sent(load, service, samples) && rejected == Rejected(load, service, samples)
  }

  /** The first `done` services have counted the sample, the others not yet. */
  predicate CountersAre(load: Load, published: seq<nat>, rejected: seq<nat>, ordinal: nat, done: nat) {
    && |published| == |rejected|
    && forall k | 0 <= k < |published| :: CountedAt(load, published[k], rejected[k], k, if k < done then ordinal + 1 else ordinal)
  }

  lemma CountersNext(load: Load, published: seq<nat>, rejected: seq<nat>, ordinal: nat)
    requires CountersAre(load, published, rejected, ordinal, |published|)
    ensures CountersAre(load, published, rejected, ordinal + 1, 0)
  {
    forall k | 0 <= k < |published| ensures CountedAt(load, published[k], rejected[k], k, ordinal + 1) {
    }
  }

  lemma CountService(load: Load, published: seq<nat>, rejected: seq<nat>, ordinal: nat, s: nat, sent: nat, poison: nat)
    requires CountersAre(load, published, rejected, ordinal, s) && s < |published|
    requires sent == |load.messages(s, ordinal)|
    requires poison == load.poison(s, ordinal)
    ensures CountersAre(load, published[s := published[s] + sent], rejected[s := rejected[s] + poison], ordinal, s + 1)
  {
    assert CountedAt(load, published[s], rejected[s], s, ordinal);
    assert CountedAt(load, published[s] + sent, rejected[s] + poison, s, ordinal + 1);
  }

  method CountMessages(published: array<nat>, rejected: array<nat>, s: nat, sent: nat, poison: nat)
    requires s < published.Length == rejected.Length && published != rejected
    modifies published, rejected
    ensures published[..] == old(published[..])[s := old(published[s]) + sent]
    ensures rejected[..] == old(rejected[..])[s := old(rejected[s]) + poison]
  {
    published[s] := published[s] + sent;
    rejected[s] := rejected[s] + poison;
  }

  /** Adds a service to the counters, and says what it publishes and consumes. */
  method PlanService(load: Load, ordinal: nat, s: nat, published: array<nat>, rejected: array<nat>)
    returns (batch: Batch, plan: Plan)
    requires s < published.Length == rejected.Length && published != rejected
    requires CountersAre(load, published[..], rejected[..], ordinal, s)
    modifies published, rejected
    ensures batch == Addressed(s, load.messages(s, ordinal)) && plan == Addressed(s, load.drains(s, ordinal))
    ensures CountersAre(load, published[..], rejected[..], ordinal, s + 1)
  {
    var ms := load.messages(s, ordinal);
    var poison := load.poison(s, ordinal);
    batch, plan := Addressed(s, ms), Addressed(s, load.drains(s, ordinal));
    CountService(load, published[..], rejected[..], ordinal, s, |ms|, poison);
    CountMessages(published, rejected, s, |ms|, poison);
  }

  /** Builds the batch and the plan of a sample, service by service, and counts them. */
  method PlanSample(load: Load, ordinal: nat, published: array<nat>, rejected: array<nat>)
    returns (batch: Batch, plan: Plan, sent: nat, planned: nat)
    requires published.Length == rejected.Length && published != rejected
    requires CountersAre(load, published[..], rejected[..], ordinal, 0)
    modifies published, rejected
    ensures batch == FleetBatch(load, published.Length, ordinal) && sent == |batch|
    ensures plan == FleetPlan(load, published.Length, ordinal) && planned == PlannedCount(plan)
    ensures CountersAre(load, published[..], rejected[..], ordinal + 1, 0)
  {
    batch, plan, sent, planned := [], [], 0, 0;
    for s := 0 to published.Length
      invariant batch == FleetBatch(load, s, ordinal) && sent == |batch|
      invariant plan == FleetPlan(load, s, ordinal) && planned == PlannedCount(plan)
      invariant CountersAre(load, published[..], rejected[..], ordinal, s)
    {
      var serviceBatch, servicePlan := PlanService(load, ordinal, s, published, rejected);
      batch := batch + serviceBatch;
      sent := sent + |serviceBatch|;
      PlannedAppend(plan, servicePlan);
      plan := plan + servicePlan;
      planned := planned + PlannedCount(servicePlan);
    }
    assert |published[..]| == published.Length;
    CountersNext(load, published[..], rejected[..], ordinal);
  }

  method ObserveSample(load: Load, ordinal: nat, brokers: array<Broker>, published: array<nat>, rejected: array<nat>)
    returns (rows: seq<Row>)
    requires brokers.Length == published.Length == rejected.Length
    requires brokers[..] == Fleet(load, brokers.Length, ordinal + 1)
    requires CountersAre(load, published[..], rejected[..], ordinal + 1, 0)
    ensures rows == SampleRows(load, brokers.Length, ordinal)
  {
    rows := [];
    for s := 0 to brokers.Length
      invariant rows == SampleRows(load, s, ordinal)
    {
      assert brokers[s] == brokers[..][s] == Fleet(load, brokers.Length, ordinal + 1)[s];
      assert CountedAt(load, published[..][s], rejected[..][s], s, ordinal + 1);
      rows := rows + [Row(s, ordinal, |brokers[s].ready|, |brokers[s].dlq|, published[s], rejected[s])];
    }
  }

  /** Publishes, consumes and observes one sample. */
  method RunSample(load: Load, ordinal: nat, brokers: array<Broker>, batch: Batch, plan: Plan, published: array<nat>, rejected: array<nat>)
    returns (rows: seq<Row>)
    requires brokers.Length == published.Length == rejected.Length
    requires brokers[..] == Fleet(load, brokers.Length, ordinal)
    requires batch == FleetBatch(load, brokers.Length, ordinal) && plan == FleetPlan(load, brokers.Length, ordinal)
    requires CountersAre(load, published[..], rejected[..], ordinal + 1, 0)
    modifies brokers
    ensures brokers[..] == Fleet(load, brokers.Length, ordinal + 1)
    ensures rows == SampleRows(load, brokers.Length, ordinal)
  {
    PublishRows(brokers, batch);
    ConsumeRows(brokers, plan);
    SampleStep(load, brokers.Length, ordinal);
    rows := ObserveSample(load, ordinal, brokers, published, rejected);
  }

  /** A breach at some sample is a breach at every later one. */
  lemma {:induction false} BreachIsFinal(load: Load, services: nat, samples: nat, more: nat)
    requires samples <= more && !WithinBounds(load, services, samples)
    ensures !WithinBounds(load, services, more)
  {
    if samples < more {
      BreachIsFinal(load, services, samples, more - 1);
    }
  }

  predicate Refuses(load: Load, services: nat, samples: nat) {
    !WithinBounds(load, services, samples) || OverrunAt(services) <= samples
  }

  /** A run that refuses after a sample names the message bound first. */
  function RefusalAt(load: Load, services: nat, samples: nat): Refusal {
    if WithinBounds(load, services, samples) then ManagementCallBoundBreach else MessageBoundBreach
  }

  lemma NothingRefused(load: Load, services: nat)
    ensures !Refuses(load, services, 0)
  {
  }

  /** What is refused first decides the whole run. */
  lemma FirstRefusal(load: Load, services: nat, ordinal: nat, samples: nat)
    requires ordinal < samples && !Refuses(load, services, ordinal) && Refuses(load, services, ordinal + 1)
    ensures Refuses(load, services, samples)
    ensures RefusalAt(load, services, ordinal + 1) == ManagementCallBoundBreach <==>
            OverrunAt(services) <= samples && WithinBounds(load, services, OverrunAt(services))
  {
    if !WithinBounds(load, services, ordinal + 1) {
      BreachIsFinal(load, services, ordinal + 1, samples);
      BreachIsFinal(load, services, ordinal + 1, OverrunAt(services));
    }
  }

  lemma NothingYet(load: Load, brokers: seq<Broker>, published: seq<nat>, rejected: seq<nat>)
    requires |brokers| == |published| == |rejected|
    requires forall k | 0 <= k < |brokers| :: brokers[k] == Broker([], []) && published[k] == rejected[k] == 0
    ensures brokers == Fleet(load, |brokers|, 0) && CountersAre(load, published, rejected, 0, 0)
  {
  }

  /** The totals of a run, checked before anything is sent. */
  datatype Totals = Totals(published: nat, consumed: nat)

  function TotalsAt(load: Load, services: nat, samples: nat): Totals {
    Totals(PublishedTotal(load, services, samples), ConsumedTotal(load, services, samples))
  }

  lemma TotalsNext(load: Load, services: nat, ordinal: nat, sent: nat, planned: nat)
    requires sent == |FleetBatch(load, services, ordinal)| && planned == PlannedCount(FleetPlan(load, services, ordinal))
    ensures var t := TotalsAt(load, services, ordinal);
            TotalsAt(load, services, ordinal + 1) == Totals(t.published + sent, t.consumed + planned)
  {
  }

  /** The state of a run before a sample. */
  predicate At(load: Load, brokers: seq<Broker>, published: seq<nat>, rejected: seq<nat>, totals: Totals, ordinal: nat) {
    && |brokers| == |published| == |rejected|
    && brokers == Fleet(load, |brokers|, ordinal) && CountersAre(load, published, rejected, ordinal, 0)
    && totals == TotalsAt(load, |brokers|, ordinal)
  }

  /** One sample: planned, checked against the bound, sent and observed. */
  method Sample(load: Load, ordinal: nat, brokers: array<Broker>, published: array<nat>, rejected: array<nat>, before: Totals)
    returns (r: Result<seq<Row>, Refusal>, totals: Totals)
    requires published != rejected && At(load, brokers[..], published[..], rejected[..], before, ordinal)
    modifies brokers, published, rejected
    ensures r.Ok? <==> WithinBounds(load, brokers.Length, ordinal + 1)
    ensures r.Err? ==> r.error == MessageBoundBreach
    ensures r.Ok? ==> At(load, brokers[..], published[..], rejected[..], totals, ordinal + 1)
    ensures r.Ok? ==> r.value == SampleRows(load, brokers.Length, ordinal)
  {
    assert |brokers[..]| == brokers.Length && |published[..]| == published.Length && |rejected[..]| == rejected.Length;
    var batch, plan, sent, planned := PlanSample(load, ordinal, published, rejected);
    TotalsNext(load, brokers.Length, ordinal, sent, planned);
    totals := Totals(before.published + sent, before.consumed + planned);
    if totals.published > MAX_MESSAGES || totals.consumed > MAX_MESSAGES {
      return Err(MessageBoundBreach), totals;
    }
    var rows := RunSample(load, ordinal, brokers, batch, plan, published, rejected);
    return Ok(rows), totals;
  }

  /** `_declare_broker_shape` */
  method DeclareBrokerShape(services: nat) returns (calls: nat)
    ensures calls == DeclareCalls(services)
  {
    calls := 1;
    for s := 0 to services
      invariant calls == DeclareCalls(s)
    {
      calls := calls + 3;
    }
  }

  /** One sample and the check of the management calls after it. */
  method CheckedSample(load: Load, ordinal: nat, brokers: array<Broker>, published: array<nat>, rejected: array<nat>, before: Totals, wasCalls: nat)
    returns (r: Result<seq<Row>, Refusal>, totals: Totals, calls: nat)
    requires published != rejected && At(load, brokers[..], published[..], rejected[..], before, ordinal)
    requires wasCalls == DeclareCalls(brokers.Length) + ordinal
    modifies brokers, published, rejected
    ensures r.Ok? ==> At(load, brokers[..], published[..], rejected[..], totals, ordinal + 1)
    ensures r.Ok? ==> r.value == SampleRows(load, brokers.Length, ordinal) && calls == DeclareCalls(brokers.Length) + ordinal + 1
    ensures r.Err? == Refuses(load, brokers.Length, ordinal + 1)
    ensures r.Err? ==> r.error == RefusalAt(load, brokers.Length, ordinal + 1)
  {
    r, totals := Sample(load, ordinal, brokers, published, rejected, before);
    calls := wasCalls + 1;
    OverrunsFrom(brokers.Length, ordinal + 1);
    if r.Ok? && calls > MAX_MANAGEMENT_CALLS {
      r := Err(ManagementCallBoundBreach);
    }
  }

  /** `_materialize_actual`: unless a bound is breached, the telemetry has one row per
      service and sample, with the counts of the service's own queues. The bound that
      is breached at the earlier sample is reported, the message bound first. */
  method MaterializeActual(load: Load, services: nat, samples: nat) returns (r: Result<seq<Row>, Refusal>)
    ensures r.Ok? <==> WithinBounds(load, services, samples) && samples < OverrunAt(services)
    ensures r.Ok? ==> r.value == Telemetry(load, services, samples)
    ensures r == Err(ManagementCallBoundBreach) <==> OverrunAt(services) <= samples && WithinBounds(load, services, OverrunAt(services))
  {
    var calls := DeclareBrokerShape(services);
    var brokers := new Broker[services](_ => Broker([], []));
    var published := new nat[services](_ => 0);
    var rejected := new nat[services](_ => 0);
    var totals := Totals(0, 0);
    var telemetry: seq<Row> := [];
    NothingYet(load, brokers[..], published[..], rejected[..]);
    NothingRefused(load, services);
    for ordinal := 0 to samples
      invariant At(load, brokers[..], published[..], rejected[..], totals, ordinal)
      invariant !Refuses(load, services, ordinal) && calls == DeclareCalls(services) + ordinal
      invariant telemetry == Telemetry(load, services, ordinal)
    {
      var rows;
      rows, totals, calls := CheckedSample(load, ordinal, brokers, published, rejected, totals, calls);
      if rows.Err? {
        FirstRefusal(load, services, ordinal, samples);
        return Err(rows.error);
      }
      telemetry := telemetry + rows.value;
    }
    return Ok(telemetry);
  }

  lemma {:induction false} SampleHasRow(load: Load, services: nat, ordinal: nat, row: Row)
    ensures row in SampleRows(load, services, ordinal) <==>
            row.service < services && row.ordinal == ordinal && row == RowAt(load, row.service, row.ordinal)
  {
    if services > 0 {
      SampleHasRow(load, services - 1, ordinal, row);
    }
  }

  lemma OneMoreSample(load: Load, services: nat, k: nat, row: Row)
    ensures row in Telemetry(load, services, k + 1) <==>
            row in Telemetry(load, services, k) ||
            (row.service < services && row.ordinal == k && row == RowAt(load, row.service, row.ordinal))
  {
    SampleHasRow(load, services, k, row);
    InEither(Telemetry(load, services, k), SampleRows(load, services, k), row);
  }

  lemma InEither(a: seq<Row>, b: seq<Row>, row: Row)
    ensures row in a + b <==> row in a || row in b
  {
  }

  predicate HasRow(load: Load, services: nat, samples: nat, row: Row) {
    row in Telemetry(load, services, samples) <==>
    row.service < services && row.ordinal < samples && row == RowAt(load, row.service, row.ordinal)
  }

  lemma HasRowNext(load: Load, services: nat, k: nat, row: Row)
    requires HasRow(load, services, k, row)
    ensures HasRow(load, services, k + 1, row)
  {
    OneMoreSample(load, services, k, row);
  }

  /** The telemetry has exactly the rows of all services and samples. */
  lemma {:induction false} TelemetryHasRow(load: Load, services: nat, samples: nat, row: Row)
    ensures HasRow(load, services, samples, row)
  {
    if samples > 0 {
      TelemetryHasRow(load, services, samples - 1, row);
      HasRowNext(load, services, samples - 1, row);
    }
  }

  // ---------------------------------------------------------------- the scheduled load

  /** What the incidents of a schedule make each service do. */
  function LoadOf(schedule: seq<Incident>): Load {
    Load((s: nat, k: nat) => ServiceMessages(ForService(schedule, s), k),
         (s: nat, k: nat) => MessageCount(ForService(schedule, s), CADENCE * k, true),
         (s: nat, k: nat) => ServicePlan(ForService(schedule, s), k))
  }

  lemma QueuesStep(load: Load, service: nat, k: nat, ms: seq<Message>, drains: seq<Drain>)
    requires ms == load.messages(service, k) && drains == load.drains(service, k)
    ensures var b := QueuesOf(load, service, k);
            QueuesOf(load, service, k + 1) == RunPlan(b.(ready := b.ready + ms), drains)
  {
  }

  lemma {:induction false} QueuesOfSchedule(schedule: seq<Incident>, service: nat, samples: nat)
    ensures QueuesOf(LoadOf(schedule), service, samples) == After(ForService(schedule, service), samples)
  {
    if samples > 0 {
      var k, incidents := samples - 1, ForService(schedule, service);
      QueuesOfSchedule(schedule, service, k);
      QueuesStep(LoadOf(schedule), service, k, ServiceMessages(incidents, k), ServicePlan(incidents, k));
    }
  }

  lemma RowShowsSignal(schedule: seq<Incident>, service: nat, ordinal: nat)
    ensures var row := RowAt(LoadOf(schedule), service, ordinal);
            row.ready + row.dlq == Signal(schedule, service, ordinal)
  {
    QueuesOfSchedule(schedule, service, ordinal + 1);
    RowSizes(LoadOf(schedule), service, ordinal, After(ForService(schedule, service), ordinal + 1));
  }

  lemma RowSizes(load: Load, service: nat, ordinal: nat, b: Broker)
    requires b == QueuesOf(load, service, ordinal + 1)
    ensures RowAt(load, service, ordinal).ready == |b.ready| && RowAt(load, service, ordinal).dlq == |b.dlq|
  {
  }

  /** In the telemetry of any schedule of disjoint services that starts on heartbeats,
      every row shows one waiting or dead-lettered message exactly when the ledger binds it. */
  lemma TelemetryTellsLedger(schedule: seq<Incident>, services: nat, samples: nat, row: Row)
    requires Disjoint(schedule) && ServedOnHeartbeats(schedule)
    requires row in Telemetry(LoadOf(schedule), services, samples)
    ensures row.ready + row.dlq == if Labelled(schedule, row.service, row.ordinal) then 1 else 0
  {
    TelemetryHasRow(LoadOf(schedule), services, samples, row);
    RowShowsSignal(schedule, row.service, row.ordinal);
    SignalIsLabel(schedule, row.service, row.ordinal);
  }

  /** So does the telemetry of the coded schedule. */
  lemma FleetTellsItsLedger(services: nat, samples: nat, row: Row)
    requires row in Telemetry(LoadOf(FleetSchedule()), services, samples)
    ensures row.ready + row.dlq == if Labelled(FleetSchedule(), row.service, row.ordinal) then 1 else 0
  {
    FleetScheduleFits();
    TelemetryTellsLedger(FleetSchedule(), services, samples, row);
  }
}
