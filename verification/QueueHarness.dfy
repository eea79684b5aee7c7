/** The tick loop of the queue harness over two queues, their mirrors and the broker. */
module QueueHarness {
  import opened Numbers
  import opened Outcomes
  import opened QueueMirror
  import opened AckLags
  import opened QueueSchedule

  /** One broker queue with its dead-letter queue. */
  class BrokerQueue {
    var ready: seq<Message>
    var dlq: seq<Message>

    function State(): Broker reads this {
      Broker(ready, dlq)
    }

    constructor ()
      ensures State() == Broker([], [])
    {
      ready, dlq := [], [];
    }

    method PublishMessages(ms: seq<Message>)
      modifies this
      ensures State() == Broker(old(ready) + ms, old(dlq))
    {
      ready := ready + ms;
    }

    method GetMessages(count: nat, accept: bool) returns (payloads: seq<Message>)
      modifies this
      ensures payloads == Got(old(State()), count) && State() == Get(old(State()), count, accept)
    {
      var k := Min(count, |ready|);
      payloads := ready[..k];
      ready := ready[k..];
      if !accept {
        dlq := dlq + payloads;
      }
    }
  }

  /** The harness's own mirror of a queue. */
  class QueueRuntimeState {
    var published: seq<Message>
    var consumeCursor: nat
    var dlqCount: nat
    var publishedCount: nat
    var acknowledgedCount: nat
    var rejectedCount: nat

    function View(): Mirror reads this {
      Mirror(published, consumeCursor, publishedCount, acknowledgedCount, rejectedCount)
    }

    constructor ()
      ensures View() == Mirror([], 0, 0, 0, 0) && dlqCount == 0
    {
      published, consumeCursor, dlqCount, publishedCount, acknowledgedCount, rejectedCount := [], 0, 0, 0, 0, 0;
    }

    function ExpectedReady(): seq<Message> reads this {
      if consumeCursor <= |published| then published[consumeCursor..] else []
    }

    method ConsumeExpected(count: nat) returns (expected: seq<Message>)
      requires consumeCursor <= |published|
      modifies this`consumeCursor
      ensures expected == Expected(old(View()), count) && consumeCursor == old(consumeCursor) + |expected|
      ensures expected == old(ExpectedReady())[..|expected|]
    {
      expected := ExpectedReady()[..Min(count, |published| - consumeCursor)];
      consumeCursor := consumeCursor + |expected|;
    }
  }

  /** The outcome of a consume that had already observed some messages. */
  function Resumed(observed: seq<Message>, outcome: (Broker, Result<seq<Message>, ConsumeError>)): (Broker, Result<seq<Message>, ConsumeError>) {
    (outcome.0, if outcome.1.Ok? then Ok(observed + outcome.1.value) else outcome.1)
  }

  /** What reading the first run of `rest` leads to. */
  datatype RunRead = RunRead(state: Broker, payloads: seq<Message>, error: Option<ConsumeError>, rest: seq<Message>)

  function FirstRun(b: Broker, rest: seq<Message>): RunRead
    requires rest != []
  {
    var n := RunLength(rest);
    var payloads := Got(b, n);
    RunRead(Get(b, n, rest[0].valid), payloads,
            if |payloads| != n then Some(CountMismatch(|payloads|, n))
            else if payloads != rest[..n] then Some(PayloadMismatch)
            else None,
            rest[n..])
  }

  lemma ResumeRun(b: Broker, rest: seq<Message>, observed: seq<Message>, x: RunRead)
    requires rest != [] && x == FirstRun(b, rest)
    ensures |x.rest| < |rest|
    ensures Resumed(observed, ConsumeRuns(b, rest)) ==
            if x.error.Some? then (x.state, Err(x.error.value))
            else Resumed(observed + x.payloads, ConsumeRuns(x.state, x.rest))
  {
    if x.error.None? {
      var (end, r) := ConsumeRuns(x.state, x.rest);
      assert r.Ok? ==> observed + (x.payloads + r.value) == observed + x.payloads + r.value;
    }
  }

  /** The length of the run of equal validity that starts at `index`. */
  method NextRun(expected: seq<Message>, index: nat) returns (runLength: nat)
    requires index < |expected|
    ensures runLength == RunLength(expected[index..])
  {
    runLength := 1;
    while index + runLength < |expected| && expected[index + runLength].valid == expected[index].valid
      invariant 1 <= runLength <= |expected| - index
      invariant forall i | index <= i < index + runLength :: expected[i].valid == expected[index].valid
    {
      runLength := runLength + 1;
    }
    RunLengthIs(expected[index..], runLength);
  }

  ghost predicate Leads(b: Broker, rest: seq<Message>, outcome: (Broker, Result<seq<Message>, ConsumeError>)) {
    ConsumeRuns(b, rest) == outcome
  }

  /** Gets one run of expected messages and compares what came: either that refusal is
      the outcome, or the outcome is what the rest of the messages lead to. */
  method ReadRun(queue: BrokerQueue, expected: seq<Message>, index: nat, ghost observed: seq<Message>, ghost ahead: (Broker, Result<seq<Message>, ConsumeError>))
    returns (runLength: nat, payloads: seq<Message>, error: Option<ConsumeError>, ghost next: (Broker, Result<seq<Message>, ConsumeError>))
    requires index < |expected| && Leads(queue.State(), expected[index..], ahead)
    modifies queue
    ensures 0 < runLength <= |expected| - index && Leads(queue.State(), expected[index + runLength..], next)
    ensures Resumed(observed, ahead) ==
            if error.Some? then (queue.State(), Err(error.value)) else Resumed(observed + payloads, next)
  {
    ghost var x := FirstRun(queue.State(), expected[index..]);
    ResumeRun(queue.State(), expected[index..], observed, x);
    runLength := NextRun(expected, index);
    payloads := queue.GetMessages(runLength, expected[index].valid);
    Advance(expected, index, runLength);
    next := ConsumeRuns(queue.State(), expected[index + runLength..]);
    if |payloads| != runLength {
      error := Some(CountMismatch(|payloads|, runLength));
    } else if payloads != expected[index..][..runLength] {
      error := Some(PayloadMismatch);
    } else {
      error := None;
    }
  }

  /** `_consume_expected_messages` */
  method ConsumeExpectedMessages(queue: BrokerQueue, expected: seq<Message>) returns (r: Result<seq<Message>, ConsumeError>)
    modifies queue
    ensures (queue.State(), r) == ConsumeRuns(old(queue.State()), expected)
  {
    ghost var whole := ConsumeRuns(queue.State(), expected);
    ghost var rest, ahead := expected, whole;
    var observed: seq<Message>, index := [], 0;
    NothingObserved(whole);
    while index < |expected|
      invariant index <= |expected| && rest == expected[index..] && Leads(queue.State(), rest, ahead)
      invariant whole == Resumed(observed, ahead)
    {
      var runLength, payloads, error, next := ReadRun(queue, expected, index, observed, ahead);
      if error.Some? {
        return Err(error.value);
      }
      observed := observed + payloads;
      index := index + runLength;
      rest, ahead := expected[index..], next;
    }
    EverythingObserved(queue.State(), observed, ahead);
    return Ok(observed);
  }

  lemma NothingObserved(outcome: (Broker, Result<seq<Message>, ConsumeError>))
    ensures Resumed([], outcome) == outcome
  {
    assert outcome.1.Ok? ==> [] + outcome.1.value == outcome.1.value;
  }

  lemma EverythingObserved(b: Broker, observed: seq<Message>, ahead: (Broker, Result<seq<Message>, ConsumeError>))
    requires Leads(b, [], ahead)
    ensures Resumed(observed, ahead) == (b, Ok(observed))
  {
    assert observed + [] == observed;
  }

  lemma Advance(ms: seq<Message>, i: nat, n: nat)
    requires i + n <= |ms|
    ensures ms[i..][n..] == ms[i + n..]
  {
  }

  lemma {:induction false} RunLengthIs(ms: seq<Message>, n: nat)
    requires 1 <= n <= |ms|
    requires forall i | 0 <= i < n :: ms[i].valid == ms[0].valid
    requires n < |ms| ==> ms[n].valid != ms[0].valid
    ensures RunLength(ms) == n
  {
  }

  /** A queue that has published `produced` ticks and read `consumed` ticks of its schedule. */
  predicate FollowsSchedule(s: Schedule, m: Mirror, b: Broker, produced: nat, consumed: nat) {
    m.published == Published(s, produced) && m.cursor == Cursor(s, consumed) && Agrees(m, b)
  }

  predicate Follows(s: Schedule, state: QueueRuntimeState, queue: BrokerQueue, produced: nat, consumed: nat)
    reads state, queue
  {
    FollowsSchedule(s, state.View(), queue.State(), produced, consumed)
  }

  lemma ReadsExpected(m: Mirror, b: Broker, rate: nat, ms: seq<Message>) returns (end: Broker)
    requires Agrees(m, b) && ms == Expected(m, rate)
    ensures ConsumeRuns(b, ms) == (end, Ok(ms)) && Agrees(Consumed(m, |ms|, Ok(ms)), end)
  {
    var n := |ms|;
    end := Broker(b.ready[n..], b.dlq + OfValidity(ms, false));
    ConsumeAgrees(m, b, n, ms);
    ConsumeRunsExact(b, ms);
  }

  method Produce(s: Schedule, state: QueueRuntimeState, queue: BrokerQueue, tick: nat, was: Option<Record>) returns (record: Option<Record>)
    requires Follows(s, state, queue, tick, tick)
    modifies state, queue
    ensures Follows(s, state, queue, tick + 1, tick) && state.dlqCount == old(state.dlqCount)
    ensures record == Opened(s, was, tick)
  {
    var ms := Batch(tick, PRODUCER_RATE, true);
    record := was;
    if tick == s.poisonTick {
      var poison := Batch(tick, POISON_COUNT, false);
      ms := ms + poison;
      record := Some(Record(tick, poison, None));
    } else {
      assert ms + [] == ms;
    }
    PublishAgrees(state.View(), queue.State(), ms);
    queue.PublishMessages(ms);
    state.published := state.published + ms;
    state.publishedCount := state.publishedCount + |ms|;
  }

  /** Reads the expected messages and counts them; the lags are those of the
      acknowledged ones. */
  method ReadMirror(state: QueueRuntimeState, queue: BrokerQueue, rate: nat, tick: nat) returns (r: Result<seq<int>, ConsumeError>)
    requires Agrees(state.View(), queue.State())
    modifies state, queue
    ensures var ms := Expected(old(state.View()), rate);
            && r == Ok(Lags(ms, tick))
            && state.View() == Consumed(old(state.View()), |ms|, Ok(ms))
    ensures Agrees(state.View(), queue.State())
  {
    ghost var ms := Expected(state.View(), rate);
    ghost var end := ReadsExpected(state.View(), queue.State(), rate, ms);
    var expected := state.ConsumeExpected(rate);
    var consumed := ConsumeExpectedMessages(queue, expected);
    match consumed
    case Err(e) => return Err(e);
    case Ok(payloads) =>
      var ackLags := CountPayloads(state, payloads, tick);
      return Ok(ackLags);
  }

  method ConsumeTick(s: Schedule, state: QueueRuntimeState, queue: BrokerQueue, tick: nat) returns (r: Result<seq<int>, ConsumeError>)
    requires Follows(s, state, queue, tick + 1, tick)
    modifies state, queue
    ensures Follows(s, state, queue, tick + 1, tick + 1)
    ensures r == Ok(Lags(ReadIn(s, tick), tick))
  {
    r := ReadMirror(state, queue, ConsumerRate(s, tick), tick);
  }

  method CountPayloads(state: QueueRuntimeState, payloads: seq<Message>, tick: nat) returns (ackLags: seq<int>)
    modifies state`acknowledgedCount, state`rejectedCount
    ensures ackLags == Lags(payloads, tick)
    ensures state.acknowledgedCount == old(state.acknowledgedCount) + |OfValidity(payloads, true)|
    ensures state.rejectedCount == old(state.rejectedCount) + |OfValidity(payloads, false)|
  {
    ackLags := [];
    for i := 0 to |payloads|
      invariant ackLags == Lags(payloads[..i], tick)
      invariant state.acknowledgedCount == old(state.acknowledgedCount) + |OfValidity(payloads[..i], true)|
      invariant state.rejectedCount == old(state.rejectedCount) + |OfValidity(payloads[..i], false)|
    {
      var m := payloads[i];
      assert payloads[..i + 1][..i] == payloads[..i];
      if m.valid {
        state.acknowledgedCount := state.acknowledgedCount + 1;
        ackLags := ackLags + [tick - m.tick];
      } else {
        state.rejectedCount := state.rejectedCount + 1;
      }
    }
    assert payloads[..|payloads|] == payloads;
  }

  /** The settled observation: the broker's counts are the ones the mirrors expect. */
  predicate CountsMatch(state: QueueRuntimeState, queue: BrokerQueue)
    reads state, queue
  {
    |queue.ready| == |state.ExpectedReady()| && |queue.dlq| == state.rejectedCount
  }

  method Observe(s: Schedule, state: QueueRuntimeState, queue: BrokerQueue, tick: nat, ackLags: seq<int>, was: Option<Record>)
    returns (o: Observation, record: Option<Record>)
    requires Follows(s, state, queue, tick + 1, tick + 1) && ackLags == Lags(ReadIn(s, tick), tick)
    modifies state`dlqCount
    ensures o == ObservationAt(s, tick)
    ensures record == Settled(was, |DeadLetters(s, tick + 1)|, tick)
  {
    state.dlqCount := |queue.dlq|;
    record := was;
    if record.Some? && record.value.observedTick.None? && state.dlqCount >= |record.value.injected| {
      record := Some(record.value.(observedTick := Some(tick)));
    }
    var ready := state.ExpectedReady();
    var age := if ready != [] then tick - ready[0].tick else 0;
    o := Observation(tick, |queue.ready|, state.dlqCount, state.publishedCount, state.acknowledgedCount, state.rejectedCount,
                     Largest(ackLags), Percentile(ackLags, 0.5), Percentile(ackLags, 0.95), age);
  }

  /** Two observations per tick, one of each queue. */
  function Alternating(f: nat -> Observation, g: nat -> Observation, ticks: nat): (rows: seq<Observation>)
    ensures |rows| == 2 * ticks
  {
    if ticks == 0 then [] else Alternating(f, g, ticks - 1) + [f(ticks - 1), g(ticks - 1)]
  }

  lemma {:induction false} AlternatingAt(f: nat -> Observation, g: nat -> Observation, ticks: nat, tick: nat)
    requires tick < ticks
    ensures Alternating(f, g, ticks)[2 * tick] == f(tick) && Alternating(f, g, ticks)[2 * tick + 1] == g(tick)
  {
    if tick < ticks - 1 {
      AlternatingAt(f, g, ticks - 1, tick);
    }
  }

  function Seen(s: Schedule): nat -> Observation {
    (tick: nat) => ObservationAt(s, tick)
  }

  /** What a run over two queues emits. */
  function Telemetry(a: Schedule, b: Schedule, ticks: nat): seq<Observation> {
    Alternating(Seen(a), Seen(b), ticks)
  }

  /** Rows 2 t and 2 t + 1 of a run are what tick t shows of the two queues. */
  lemma TelemetryAt(a: Schedule, b: Schedule, ticks: nat, tick: nat)
    requires tick < ticks
    ensures Telemetry(a, b, ticks)[2 * tick] == ObservationAt(a, tick)
    ensures Telemetry(a, b, ticks)[2 * tick + 1] == ObservationAt(b, tick)
  {
    AlternatingAt(Seen(a), Seen(b), ticks, tick);
  }

  datatype Evidence = Evidence(telemetry: seq<Observation>, first: Option<Record>, second: Option<Record>)

  /** Reads one queue in a tick and observes both of them. */
  method ConsumeAndObserve(s: Schedule, state: QueueRuntimeState, queue: BrokerQueue, tick: nat, was: Option<Record>,
                           otherState: QueueRuntimeState, otherQueue: BrokerQueue)
    returns (r: Result<(Observation, Option<Record>), ConsumeError>)
    requires state != otherState && queue != otherQueue
    requires Follows(s, state, queue, tick + 1, tick) && Agrees(otherState.View(), otherQueue.State())
    modifies state, queue
    ensures Follows(s, state, queue, tick + 1, tick + 1)
    ensures r == Ok((ObservationAt(s, tick), Settled(was, |DeadLetters(s, tick + 1)|, tick)))
  {
    var consumed := ConsumeTick(s, state, queue, tick);
    match consumed
    case Err(e) => return Err(e);
    case Ok(ackLags) =>
      if !CountsMatch(state, queue) || !CountsMatch(otherState, otherQueue) {
        return Err(NeverSettled);
      }
      var o, record := Observe(s, state, queue, tick, ackLags, was);
      return Ok((o, record));
  }

  /** The loop of `_materialize_with_rabbitmq` on an ideal broker, for the schedules of
      the two queues: it never refuses, and its telemetry and ledger are the scheduled ones. */
  method Materialize(a: Schedule, b: Schedule, ticks: nat) returns (r: Result<Evidence, ConsumeError>)
    ensures r == Ok(Evidence(Telemetry(a, b, ticks), Ledger(a, ticks), Ledger(b, ticks)))
  {
    var q1 := new BrokerQueue();
    var q2 := new BrokerQueue();
    var s1 := new QueueRuntimeState();
    var s2 := new QueueRuntimeState();
    var telemetry: seq<Observation> := [];
    var first: Option<Record>, second: Option<Record> := None, None;
    for tick := 0 to ticks
      invariant Follows(a, s1, q1, tick, tick) && Follows(b, s2, q2, tick, tick)
      invariant telemetry == Telemetry(a, b, tick)
      invariant first == Ledger(a, tick) && second == Ledger(b, tick)
    {
      var tickRows: Result<(seq<Observation>, Option<Record>, Option<Record>), ConsumeError> :=
        RunTick(a, s1, q1, first, b, s2, q2, second, tick);
      match tickRows
      case Err(e) => return Err(e);
      case Ok(rows) =>
        telemetry := telemetry + rows.0;
        first, second := rows.1, rows.2;
    }
    return Ok(Evidence(telemetry, first, second));
  }

  /** One tick: both queues are fed before either is read. */
  method RunTick(a: Schedule, s1: QueueRuntimeState, q1: BrokerQueue, wasA: Option<Record>,
                 b: Schedule, s2: QueueRuntimeState, q2: BrokerQueue, wasB: Option<Record>, tick: nat)
    returns (r: Result<(seq<Observation>, Option<Record>, Option<Record>), ConsumeError>)
    requires s1 != s2 && q1 != q2
    requires Follows(a, s1, q1, tick, tick) && Follows(b, s2, q2, tick, tick)
    requires wasA == Ledger(a, tick) && wasB == Ledger(b, tick)
    modifies s1, q1, s2, q2
    ensures Follows(a, s1, q1, tick + 1, tick + 1) && Follows(b, s2, q2, tick + 1, tick + 1)
    ensures r == Ok(([ObservationAt(a, tick), ObservationAt(b, tick)], Ledger(a, tick + 1), Ledger(b, tick + 1)))
  {
    var recordA := Produce(a, s1, q1, tick, wasA);
    var recordB := Produce(b, s2, q2, tick, wasB);
    var first := ConsumeAndObserve(a, s1, q1, tick, recordA, s2, q2);
    match first
    case Err(e) => return Err(e);
    case Ok(seenA) =>
      var second := ConsumeAndObserve(b, s2, q2, tick, recordB, s1, q1);
      match second
      case Err(e) => return Err(e);
      case Ok(seenB) => return Ok(([seenA.0, seenB.0], seenA.1, seenB.1));
  }
}
