/** The queue fleet: scheduled incidents put messages on a service's queue or its
    dead-letter queue, and the public counts must tell exactly what the private
    ledger says. */
module FleetSignal {
  import opened Numbers
  import opened QueueMirror

  const CADENCE: nat := 5
  const HEARTBEAT: nat := 30
  const PRECURSOR: nat := 300

  datatype Kind = ConsumerSlowdown | ConsumerPause | PoisonDeadLetter | ProducerBurst

  datatype Incident = Incident(services: seq<nat>, start: nat, kind: Kind)

  /** The incidents of one service, in schedule order. */
  function ForService(schedule: seq<Incident>, service: nat): seq<Incident> {
    if schedule == [] then []
    else
      var last := schedule[|schedule| - 1];
      ForService(schedule[..|schedule| - 1], service) + if service in last.services then [last] else []
  }

  predicate IsPoison(i: Incident) {
    i.kind == PoisonDeadLetter
  }

  // ---------------------------------------------------------------- one service, one sample

  /** `_message_count_for_service`: how many of the given sort start at this offset. */
  function MessageCount(incidents: seq<Incident>, offset: nat, poison: bool): nat {
    if offset % HEARTBEAT != 0 || incidents == [] then 0
    else
      var last := incidents[|incidents| - 1];
      MessageCount(incidents[..|incidents| - 1], offset, poison) + if offset == last.start && IsPoison(last) == poison then 1 else 0
  }

  function Payloads(ordinal: nat, count: nat, valid: bool): (ms: seq<Message>)
    ensures |ms| == count
  {
    seq(count, i requires 0 <= i => Message(ordinal, i, valid))
  }

  function ServiceMessages(incidents: seq<Incident>, ordinal: nat): seq<Message> {
    Payloads(ordinal, MessageCount(incidents, CADENCE * ordinal, false), true) +
    Payloads(ordinal, MessageCount(incidents, CADENCE * ordinal, true), false)
  }

  /** One entry of the consume plan. */
  datatype Drain = Drain(count: nat, fromDlq: bool, accept: bool)

  function DrainQueue(b: Broker, d: Drain): Broker {
    if d.fromDlq then b.(dlq := b.dlq[Min(d.count, |b.dlq|)..]) else Get(b, d.count, d.accept)
  }

  /** What is consumed one sample after an incident's precursor ends. */
  function Cleanups(incidents: seq<Incident>, offset: nat): seq<Drain> {
    if incidents == [] then []
    else
      var last := incidents[|incidents| - 1];
      Cleanups(incidents[..|incidents| - 1], offset) +
      if offset == last.start + PRECURSOR + CADENCE then [Drain(1, IsPoison(last), true)] else []
  }

  function ServicePlan(incidents: seq<Incident>, ordinal: nat): seq<Drain> {
    var poison := MessageCount(incidents, CADENCE * ordinal, true);
    (if poison > 0 then [Drain(poison, false, false)] else []) + Cleanups(incidents, CADENCE * ordinal)
  }

  function RunPlan(b: Broker, plan: seq<Drain>): Broker {
    if plan == [] then b else DrainQueue(RunPlan(b, plan[..|plan| - 1]), plan[|plan| - 1])
  }

  function Tick(b: Broker, incidents: seq<Incident>, ordinal: nat): Broker {
    RunPlan(b.(ready := b.ready + ServiceMessages(incidents, ordinal)), ServicePlan(incidents, ordinal))
  }

  /** The broker queues of a service after its first `samples` samples. */
  function After(incidents: seq<Incident>, samples: nat): Broker {
    if samples == 0 then Broker([], []) else Tick(After(incidents, samples - 1), incidents, samples - 1)
  }

  // ---------------------------------------------------------------- the label

  /** The ledger binds the samples from the one the incident starts in to the one its
      precursor ends in. */
  predicate Binds(i: Incident, ordinal: nat) {
    i.start / CADENCE <= ordinal <= (i.start + PRECURSOR) / CADENCE
  }

  predicate Labelled(schedule: seq<Incident>, service: nat, ordinal: nat) {
    exists i :: i in schedule && service in i.services && Binds(i, ordinal)
  }

  predicate Aligned(incidents: seq<Incident>) {
    forall i | 0 <= i < |incidents| :: incidents[i].start % HEARTBEAT == 0
  }

  /** Every incident that has a service starts on a heartbeat. */
  predicate ServedOnHeartbeats(schedule: seq<Incident>) {
    forall i <- schedule | i.services != [] :: i.start % HEARTBEAT == 0
  }

  predicate Disjoint(schedule: seq<Incident>) {
    forall i, j | 0 <= i < j < |schedule| :: Apart(schedule[i], schedule[j])
  }

  predicate Apart(a: Incident, b: Incident) {
    forall s :: s in a.services ==> s !in b.services
  }

  /** Incidents of the given sort that bind a sample. */
  function Binding(incidents: seq<Incident>, ordinal: nat, poison: bool): nat {
    if incidents == [] then 0
    else
      var last := incidents[|incidents| - 1];
      Binding(incidents[..|incidents| - 1], ordinal, poison) + if Binds(last, ordinal) && IsPoison(last) == poison then 1 else 0
  }

  /** Incidents of the given sort that are cleaned up in a sample. */
  function Ending(incidents: seq<Incident>, offset: nat, poison: bool): nat {
    if incidents == [] then 0
    else
      var last := incidents[|incidents| - 1];
      Ending(incidents[..|incidents| - 1], offset, poison) +
      if offset == last.start + PRECURSOR + CADENCE && IsPoison(last) == poison then 1 else 0
  }

  /** An incident that starts on heartbeat h binds 61 samples from sample 6 h on. */
  lemma BindsFromHeartbeat(i: Incident, h: nat, ordinal: nat)
    requires i.start == HEARTBEAT * h
    ensures Binds(i, ordinal) <==> 6 * h <= ordinal <= 6 * h + 60
  {
    assert i.start / CADENCE == 6 * h;
    assert (i.start + PRECURSOR) / CADENCE == 6 * h + 60;
  }

  lemma StartsOnHeartbeat(h: nat, ordinal: nat)
    requires CADENCE * ordinal == HEARTBEAT * h
    ensures (CADENCE * ordinal) % HEARTBEAT == 0
  {
  }

  /** For one incident: it binds a sample if it bound the last one or starts now,
      unless it ends now. */
  lemma BindsNext(i: Incident, ordinal: nat)
    requires i.start % HEARTBEAT == 0
    ensures var starts, ends := CADENCE * ordinal == i.start, CADENCE * ordinal == i.start + PRECURSOR + CADENCE;
            && (starts ==> (CADENCE * ordinal) % HEARTBEAT == 0)
            && (ordinal == 0 ==> Binds(i, ordinal) == starts && !ends)
            && (ordinal > 0 ==>
                  && (Binds(i, ordinal) <==> (Binds(i, ordinal - 1) && !ends) || starts)
                  && (starts ==> !Binds(i, ordinal - 1) && !ends)
                  && (ends ==> Binds(i, ordinal - 1)))
  {
    var h := i.start / HEARTBEAT;
    assert i.start == HEARTBEAT * h;
    BindsFromHeartbeat(i, h, ordinal);
    if ordinal > 0 {
      BindsFromHeartbeat(i, h, ordinal - 1);
    }
    if CADENCE * ordinal == i.start {
      StartsOnHeartbeat(h, ordinal);
    }
  }

  /** A sample binds those that bound the last one or start now, less those that end. */
  lemma {:induction false} BindingNext(incidents: seq<Incident>, ordinal: nat, poison: bool)
    requires Aligned(incidents) && ordinal > 0
    ensures Binding(incidents, ordinal, poison) ==
            Binding(incidents, ordinal - 1, poison) + MessageCount(incidents, CADENCE * ordinal, poison) - Ending(incidents, CADENCE * ordinal, poison)
    ensures Ending(incidents, CADENCE * ordinal, poison) <= Binding(incidents, ordinal - 1, poison)
  {
    if incidents != [] {
      var n := |incidents| - 1;
      BindingNext(incidents[..n], ordinal, poison);
      BindsNext(incidents[n], ordinal);
    }
  }

  lemma {:induction false} BindingFirst(incidents: seq<Incident>, poison: bool)
    requires Aligned(incidents)
    ensures Binding(incidents, 0, poison) == MessageCount(incidents, 0, poison) && Ending(incidents, 0, poison) == 0
  {
    if incidents != [] {
      var n := |incidents| - 1;
      BindingFirst(incidents[..n], poison);
      BindsNext(incidents[n], 0);
    }
  }

  lemma {:induction false} RunPlanAppend(b: Broker, p: seq<Drain>, q: seq<Drain>)
    ensures RunPlan(b, p + q) == RunPlan(RunPlan(b, p), q)
    decreases |q|
  {
    if q == [] {
      assert p + q == p;
    } else {
      assert (p + q)[..|p + q| - 1] == p + q[..|q| - 1];
      RunPlanAppend(b, p, q[..|q| - 1]);
    }
  }

  predicate Sizes(b: Broker, ready: nat, dlq: nat) {
    |b.ready| == ready && |b.dlq| == dlq
  }

  lemma {:induction false} CleanupSizes(b: Broker, incidents: seq<Incident>, offset: nat)
    requires |b.ready| >= Ending(incidents, offset, false) && |b.dlq| >= Ending(incidents, offset, true)
    ensures Sizes(RunPlan(b, Cleanups(incidents, offset)),
                  |b.ready| - Ending(incidents, offset, false), |b.dlq| - Ending(incidents, offset, true))
  {
    if incidents != [] {
      var n := |incidents| - 1;
      CleanupSizes(b, incidents[..n], offset);
      if offset == incidents[n].start + PRECURSOR + CADENCE {
        OneMoreDrain(b, Cleanups(incidents[..n], offset), Drain(1, IsPoison(incidents[n]), true));
      } else {
        assert Cleanups(incidents[..n], offset) + [] == Cleanups(incidents[..n], offset);
      }
    }
  }

  lemma OneMoreDrain(b: Broker, plan: seq<Drain>, d: Drain)
    ensures RunPlan(b, plan + [d]) == DrainQueue(RunPlan(b, plan), d)
  {
    assert (plan + [d])[..|plan|] == plan;
  }

  lemma RejectSizes(b: Broker, poison: nat)
    requires |b.ready| >= poison
    ensures Sizes(RunPlan(b, if poison > 0 then [Drain(poison, false, false)] else []), |b.ready| - poison, |b.dlq| + poison)
  {
    if poison > 0 {
      assert [Drain(poison, false, false)][..0] == [];
    }
  }

  lemma TickSizes(b: Broker, incidents: seq<Incident>, ordinal: nat)
    requires var o := CADENCE * ordinal; |b.ready| >= Ending(incidents, o, false) && |b.dlq| >= Ending(incidents, o, true)
    ensures var o := CADENCE * ordinal;
            Sizes(Tick(b, incidents, ordinal),
                  |b.ready| + MessageCount(incidents, o, false) - Ending(incidents, o, false),
                  |b.dlq| + MessageCount(incidents, o, true) - Ending(incidents, o, true))
  {
    var o := CADENCE * ordinal;
    var poison := MessageCount(incidents, o, true);
    var published := b.(ready := b.ready + ServiceMessages(incidents, ordinal));
    var reject := if poison > 0 then [Drain(poison, false, false)] else [];
    RejectSizes(published, poison);
    CleanupSizes(RunPlan(published, reject), incidents, o);
    RunPlanAppend(published, reject, Cleanups(incidents, o));
  }

  /** After every sample the queue holds one message per ordinary incident that binds
      it, and the dead-letter queue one per poison incident, for any incidents that
      start on a heartbeat, overlapping or not. */
  lemma {:induction false} QueuesCountIncidents(incidents: seq<Incident>, ordinal: nat)
    requires Aligned(incidents)
    ensures Sizes(After(incidents, ordinal + 1), Binding(incidents, ordinal, false), Binding(incidents, ordinal, true))
  {
    if ordinal > 0 {
      QueuesCountIncidents(incidents, ordinal - 1);
      BindingNext(incidents, ordinal, false);
      BindingNext(incidents, ordinal, true);
    } else {
      BindingFirst(incidents, false);
      BindingFirst(incidents, true);
    }
    TickSizes(After(incidents, ordinal), incidents, ordinal);
  }

  /** The public signal of a sample. */
  function Signal(schedule: seq<Incident>, service: nat, ordinal: nat): nat {
    var b := After(ForService(schedule, service), ordinal + 1);
    |b.ready| + |b.dlq|
  }

  lemma {:induction false} ForServiceKeeps(schedule: seq<Incident>, service: nat)
    ensures ServedOnHeartbeats(schedule) ==> Aligned(ForService(schedule, service))
    ensures forall i :: i in ForService(schedule, service) <==> i in schedule && service in i.services
  {
    if schedule != [] {
      var n := |schedule| - 1;
      ForServiceKeeps(schedule[..n], service);
      assert schedule == schedule[..n] + [schedule[n]];
      assert ServedOnHeartbeats(schedule) ==> ServedOnHeartbeats(schedule[..n]);
    }
  }

  lemma {:induction false} NoneBefore(schedule: seq<Incident>, k: nat, n: nat, service: nat)
    requires Disjoint(schedule) && k <= n < |schedule| && service in schedule[n].services
    ensures ForService(schedule[..k], service) == []
  {
    if k > 0 {
      NoneBefore(schedule, k - 1, n, service);
      assert schedule[..k][..k - 1] == schedule[..k - 1];
      assert Apart(schedule[k - 1], schedule[n]);
    }
  }

  lemma {:induction false} AtMostOne(schedule: seq<Incident>, service: nat)
    requires Disjoint(schedule)
    ensures |ForService(schedule, service)| <= 1
  {
    if schedule != [] {
      var n := |schedule| - 1;
      AtMostOne(schedule[..n], service);
      if service in schedule[n].services {
        NoneBefore(schedule, n, n, service);
      }
    }
  }

  lemma BindingOfOne(incidents: seq<Incident>, ordinal: nat)
    requires |incidents| <= 1
    ensures Binding(incidents, ordinal, false) + Binding(incidents, ordinal, true) ==
            if exists i :: i in incidents && Binds(i, ordinal) then 1 else 0
  {
    if incidents != [] {
      assert incidents[..0] == [];
      assert incidents[0] in incidents;
      assert forall i :: i in incidents <==> i == incidents[0];
    }
  }

  /** The public signal is 1 exactly in the samples the ledger binds for the service,
      and 0 otherwise, for every schedule of disjoint services that starts on heartbeats. */
  lemma SignalIsLabel(schedule: seq<Incident>, service: nat, ordinal: nat)
    requires Disjoint(schedule) && ServedOnHeartbeats(schedule)
    ensures Signal(schedule, service, ordinal) == if Labelled(schedule, service, ordinal) then 1 else 0
  {
    var incidents := ForService(schedule, service);
    ForServiceKeeps(schedule, service);
    AtMostOne(schedule, service);
    QueuesCountIncidents(incidents, ordinal);
    BindingOfOne(incidents, ordinal);
    if Labelled(schedule, service, ordinal) {
      var i :| i in schedule && service in i.services && Binds(i, ordinal);
      assert i in incidents;
    }
  }

  // ---------------------------------------------------------------- off the heartbeat

  lemma NeverCounted(i: Incident, offset: nat, poison: bool)
    requires i.start % HEARTBEAT != 0
    ensures MessageCount([i], offset, poison) == 0
  {
    assert [i][..0] == [];
  }

  lemma {:induction false} NeverPublished(i: Incident, samples: nat)
    requires i.start % HEARTBEAT != 0
    ensures After([i], samples) == Broker([], [])
  {
    if samples > 0 {
      NeverPublished(i, samples - 1);
      var o := CADENCE * (samples - 1);
      assert [i][..0] == [];
      NeverCounted(i, o, false);
      NeverCounted(i, o, true);
      assert Broker([], []).(ready := [] + ServiceMessages([i], samples - 1)) == Broker([], []);
      NothingToDrain(Cleanups([i], o));
      assert [] + Cleanups([i], o) == Cleanups([i], o);
    }
  }

  lemma {:induction false} NothingToDrain(plan: seq<Drain>)
    ensures RunPlan(Broker([], []), plan) == Broker([], [])
  {
    if plan != [] {
      NothingToDrain(plan[..|plan| - 1]);
    }
  }

  predicate SignalTells(schedule: seq<Incident>, service: nat, ordinal: nat) {
    Signal(schedule, service, ordinal) == if Labelled(schedule, service, ordinal) then 1 else 0
  }

  lemma OnlyIncident(schedule: seq<Incident>, i: Incident, service: nat)
    requires Disjoint(schedule) && i in schedule && service in i.services
    ensures ForService(schedule, service) == [i]
  {
    ForServiceKeeps(schedule, service);
    AtMostOne(schedule, service);
    assert i in ForService(schedule, service);
  }

  /** An incident off the heartbeat is bound in the sample it starts in, and its message
      is never published. */
  lemma MissedIncident(schedule: seq<Incident>, i: Incident, service: nat)
    requires Disjoint(schedule) && i in schedule && service in i.services && i.start % HEARTBEAT != 0
    ensures !SignalTells(schedule, service, i.start / CADENCE)
  {
    OnlyIncident(schedule, i, service);
    NeverPublished(i, i.start / CADENCE + 1);
    assert Binds(i, i.start / CADENCE);
    assert Labelled(schedule, service, i.start / CADENCE);
  }

  /** For disjoint services all signals tell their labels in all samples exactly when
      every incident that has a service starts on a heartbeat. */
  lemma SignalsNeedHeartbeats(schedule: seq<Incident>)
    requires Disjoint(schedule)
    ensures (forall service: nat, ordinal: nat :: SignalTells(schedule, service, ordinal)) <==> ServedOnHeartbeats(schedule)
  {
    if ServedOnHeartbeats(schedule) {
      forall service: nat, ordinal: nat ensures SignalTells(schedule, service, ordinal) {
        SignalIsLabel(schedule, service, ordinal);
      }
    } else {
      var i :| i in schedule && i.services != [] && i.start % HEARTBEAT != 0;
      MissedIncident(schedule, i, i.services[0]);
    }
  }

  // ---------------------------------------------------------------- the coded schedule

  function KindOf(group: nat): Kind {
    if group % 4 == 0 then ConsumerSlowdown
    else if group % 4 == 1 then ConsumerPause
    else if group % 4 == 2 then PoisonDeadLetter
    else ProducerBurst
  }

  function GroupIncident(base: nat, group: nat): Incident {
    Incident(seq(4, k requires 0 <= k => base + 4 * group + k), 900 + 30 * group, KindOf(group))
  }

  /** `_fleet_schedule`: eight groups of four services in each split. */
  function FleetSchedule(): (schedule: seq<Incident>)
    ensures |schedule| == 16
  {
    seq(16, n requires 0 <= n => if n < 8 then GroupIncident(0, n) else GroupIncident(128, n - 8))
  }

  lemma GroupServices(base: nat, group: nat, service: nat)
    ensures service in GroupIncident(base, group).services <==> base + 4 * group <= service < base + 4 * group + 4
  {
    var s := GroupIncident(base, group).services;
    if base + 4 * group <= service < base + 4 * group + 4 {
      assert s[service - base - 4 * group] == service;
    }
  }

  lemma StartAligned(base: nat, group: nat)
    ensures GroupIncident(base, group).start % HEARTBEAT == 0
  {
    assert GroupIncident(base, group).start == 30 * (30 + group);
  }

  /** The coded schedule meets what the signal needs. */
  lemma FleetScheduleFits()
    ensures Disjoint(FleetSchedule()) && Aligned(FleetSchedule())
  {
    var schedule := FleetSchedule();
    forall i, j | 0 <= i < j < 16 ensures Apart(schedule[i], schedule[j]) {
      forall s | s in schedule[i].services ensures s !in schedule[j].services {
        GroupServices(if i < 8 then 0 else 128, if i < 8 then i else i - 8, s);
        GroupServices(if j < 8 then 0 else 128, if j < 8 then j else j - 8, s);
      }
    }
    forall i | 0 <= i < 16 ensures schedule[i].start % HEARTBEAT == 0 {
      if i < 8 {
        assert schedule[i] == GroupIncident(0, i);
        StartAligned(0, i);
      } else {
        assert schedule[i] == GroupIncident(128, i - 8);
        StartAligned(128, i - 8);
      }
    }
  }
}
