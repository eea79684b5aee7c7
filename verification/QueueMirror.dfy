/** The queue harness keeps a local mirror of each broker queue: a list of published
    messages and a cursor. An ideal first-in first-out broker with a dead-letter
    queue and the mirror agree at every step of every run. */
module QueueMirror {
  import opened Numbers
  import opened Outcomes

  /** A message is identified by its producer tick, its validity and its index. */
  datatype Message = Message(tick: nat, index: nat, valid: bool)

  datatype ConsumeError = CountMismatch(got: nat, expected: nat) | PayloadMismatch | NeverSettled

  function OfValidity(ms: seq<Message>, valid: bool): (r: seq<Message>)
    ensures |r| <= |ms|
  {
    if ms == [] then []
    else OfValidity(ms[..|ms| - 1], valid) + if ms[|ms| - 1].valid == valid then [ms[|ms| - 1]] else []
  }

  // ---------------------------------------------------------------- the broker

  datatype Broker = Broker(ready: seq<Message>, dlq: seq<Message>)

  /** `rabbitmqadmin get`: pops from the front; a reject without requeue moves the
      messages to the dead-letter queue. */
  function Get(b: Broker, count: nat, accept: bool): Broker {
    var k := Min(count, |b.ready|);
    Broker(b.ready[k..], if accept then b.dlq else b.dlq + b.ready[..k])
  }

  function Got(b: Broker, count: nat): seq<Message> {
    b.ready[..Min(count, |b.ready|)]
  }

  /** Length of the first run of messages of equal validity. */
  function RunLength(ms: seq<Message>): (n: nat)
    requires ms != []
    ensures 1 <= n <= |ms|
    ensures forall i | 0 <= i < n :: ms[i].valid == ms[0].valid
    ensures n < |ms| ==> ms[n].valid != ms[0].valid
  {
    if |ms| == 1 || ms[1].valid != ms[0].valid then 1 else 1 + RunLength(ms[1..])
  }

  /** `_consume_expected_messages`: one get per run of equal validity, checked
      against the mirror. */
  function ConsumeRuns(b: Broker, expected: seq<Message>): (Broker, Result<seq<Message>, ConsumeError>)
    decreases |expected|
  {
    if expected == [] then (b, Ok([]))
    else
      var n := RunLength(expected);
      var payloads := Got(b, n);
      var b' := Get(b, n, expected[0].valid);
      if |payloads| != n then (b', Err(CountMismatch(|payloads|, n)))
      else if payloads != expected[..n] then (b', Err(PayloadMismatch))
      else
        var (b'', rest) := ConsumeRuns(b', expected[n..]);
        (b'', if rest.Ok? then Ok(payloads + rest.value) else rest)
  }

  lemma {:induction false} OfValidityAppend(a: seq<Message>, b: seq<Message>, valid: bool)
    ensures OfValidity(a + b, valid) == OfValidity(a, valid) + OfValidity(b, valid)
    decreases |b|
  {
    if b == [] {
      assert a + b == a;
    } else {
      assert (a + b)[..|a + b| - 1] == a + b[..|b| - 1];
      OfValidityAppend(a, b[..|b| - 1], valid);
    }
  }

  lemma {:induction false} OfValidityUniform(ms: seq<Message>, valid: bool)
    requires forall i | 0 <= i < |ms| :: ms[i].valid == valid
    ensures OfValidity(ms, valid) == ms && OfValidity(ms, !valid) == []
  {
    if ms != [] {
      OfValidityUniform(ms[..|ms| - 1], valid);
    }
  }

  lemma {:induction false} ValiditiesPartition(ms: seq<Message>)
    ensures |OfValidity(ms, true)| + |OfValidity(ms, false)| == |ms|
  {
    if ms != [] {
      ValiditiesPartition(ms[..|ms| - 1]);
    }
  }

  lemma FrontSplits(ready: seq<Message>, expected: seq<Message>, n: nat)
    requires n <= |expected|
    ensures expected <= ready <==> n <= |ready| && ready[..n] == expected[..n] && expected[n..] <= ready[n..]
    ensures expected <= ready ==> ready[n..][|expected| - n..] == ready[|expected|..]
  {
    if expected <= ready {
      assert forall i | 0 <= i < n :: ready[i] == expected[i];
      assert forall i | 0 <= i < |expected| - n :: ready[n..][i] == ready[n + i] == expected[n + i];
    }
    if n <= |ready| && ready[..n] == expected[..n] && expected[n..] <= ready[n..] {
      forall i | 0 <= i < |expected| ensures expected[i] == ready[i] {
        if i < n {
          assert ready[..n][i] == expected[..n][i];
        } else {
          assert ready[n..][i - n] == expected[n..][i - n];
        }
      }
    }
  }

  lemma DeadLettersSplit(expected: seq<Message>, n: nat)
    requires expected != [] && n == RunLength(expected)
    ensures OfValidity(expected, false) ==
            (if expected[0].valid then [] else expected[..n]) + OfValidity(expected[n..], false)
  {
    Whole(expected, n);
    OfValidityUniform(expected[..n], expected[0].valid);
    OfValidityAppend(expected[..n], expected[n..], false);
  }

  /** Reading run by run succeeds exactly when the expected messages are at the front
      of the queue; then it reads them in order, acknowledges the valid ones and
      dead-letters the others. Splitting into runs is invisible. */
  lemma {:induction false} ConsumeRunsExact(b: Broker, expected: seq<Message>)
    ensures var (b', r) := ConsumeRuns(b, expected);
            && (r.Ok? <==> expected <= b.ready)
            && (r.Ok? ==> r.value == expected && b' == Broker(b.ready[|expected|..], b.dlq + OfValidity(expected, false)))
    decreases |expected|
  {
    if expected == [] {
      assert b.dlq + OfValidity([], false) == b.dlq;
    } else {
      var n := RunLength(expected);
      FrontSplits(b.ready, expected, n);
      if n <= |b.ready| && b.ready[..n] == expected[..n] {
        var b' := Get(b, n, expected[0].valid);
        ConsumeRunsExact(b', expected[n..]);
        RunThenRest(b, b', expected, n);
        RunTaken(b, expected, n);
        Whole(expected, n);
        DeadLettersSplit(expected, n);
        Joined(b.dlq, if expected[0].valid then [] else expected[..n], OfValidity(expected[n..], false));
      } else {
        RunRefused(b, expected, n);
      }
    }
  }

  lemma Whole(ms: seq<Message>, n: nat)
    requires n <= |ms|
    ensures ms[..n] + ms[n..] == ms
  {
  }

  lemma Joined(a: seq<Message>, b: seq<Message>, c: seq<Message>)
    ensures a + b + c == a + (b + c)
  {
  }

  lemma RunRefused(b: Broker, expected: seq<Message>, n: nat)
    requires expected != [] && n == RunLength(expected)
    requires !(n <= |b.ready| && b.ready[..n] == expected[..n])
    ensures ConsumeRuns(b, expected).1.Err?
  {
  }

  lemma RunThenRest(b: Broker, b': Broker, expected: seq<Message>, n: nat)
    requires expected != [] && n == RunLength(expected) <= |b.ready| && b.ready[..n] == expected[..n]
    requires b' == Get(b, n, expected[0].valid)
    ensures var (end, r) := ConsumeRuns(b, expected);
            var (end', r') := ConsumeRuns(b', expected[n..]);
            end == end' && r == if r'.Ok? then Ok(expected[..n] + r'.value) else r'
  {
    assert Got(b, n) == expected[..n];
  }

  lemma RunTaken(b: Broker, expected: seq<Message>, n: nat)
    requires 0 < n <= |expected| && n <= |b.ready| && b.ready[..n] == expected[..n]
    ensures Get(b, n, expected[0].valid) == Broker(b.ready[n..], b.dlq + if expected[0].valid then [] else expected[..n])
  {
    assert b.dlq + [] == b.dlq;
  }

  // ---------------------------------------------------------------- the mirror

  datatype Mirror = Mirror(published: seq<Message>, cursor: nat, publishedCount: nat, acknowledged: nat, rejected: nat)

  /** The broker holds exactly what the mirror says, and the counters count. */
  predicate Agrees(m: Mirror, b: Broker) {
    && m.cursor <= |m.published|
    && b.ready == m.published[m.cursor..]
    && b.dlq == OfValidity(m.published[..m.cursor], false)
    && m.publishedCount == |m.published|
    && m.acknowledged == |OfValidity(m.published[..m.cursor], true)|
    && m.rejected == |b.dlq|
  }

  /** Every message is ready, acknowledged or rejected, and nothing is lost. */
  lemma AgreementConserves(m: Mirror, b: Broker)
    requires Agrees(m, b)
    ensures m.publishedCount == m.acknowledged + m.rejected + |b.ready|
    ensures multiset(m.published) == multiset(b.ready) + multiset(b.dlq) + multiset(OfValidity(m.published[..m.cursor], true))
  {
    ValiditiesPartition(m.published[..m.cursor]);
    ValiditiesMultiset(m.published[..m.cursor]);
    assert m.published == m.published[..m.cursor] + m.published[m.cursor..];
  }

  lemma OneMoreOfValidity(ms: seq<Message>, valid: bool)
    requires ms != [] && ms[|ms| - 1].valid == valid
    ensures multiset(OfValidity(ms, valid)) == multiset(OfValidity(ms[..|ms| - 1], valid)) + multiset{ms[|ms| - 1]}
    ensures OfValidity(ms, !valid) == OfValidity(ms[..|ms| - 1], !valid)
  {
  }

  lemma {:induction false} ValiditiesMultiset(ms: seq<Message>)
    ensures multiset(ms) == multiset(OfValidity(ms, true)) + multiset(OfValidity(ms, false))
  {
    if ms != [] {
      var n := |ms| - 1;
      ValiditiesMultiset(ms[..n]);
      assert ms == ms[..n] + [ms[n]];
      OneMoreOfValidity(ms, ms[n].valid);
    }
  }

  datatype Op = Publish(messages: seq<Message>) | Consume(rate: nat)

  /** One harness operation on the mirror: the messages it expects to read, and its new state. */
  function Expected(m: Mirror, rate: nat): seq<Message>
    requires m.cursor <= |m.published|
  {
    m.published[m.cursor..m.cursor + Min(rate, |m.published| - m.cursor)]
  }

  function Step(m: Mirror, b: Broker, op: Op): (Mirror, Broker, Result<seq<Message>, ConsumeError>)
    requires m.cursor <= |m.published|
  {
    match op
    case Publish(ms) =>
      (m.(published := m.published + ms, publishedCount := m.publishedCount + |ms|), b.(ready := b.ready + ms), Ok([]))
    case Consume(rate) =>
      var expected := Expected(m, rate);
      var (b', r) := ConsumeRuns(b, expected);
      (Consumed(m, |expected|, r), b', r)
  }

  /** The cursor moves before the broker is asked; the counters follow what it answers. */
  function Consumed(m: Mirror, count: nat, r: Result<seq<Message>, ConsumeError>): Mirror {
    var moved := m.(cursor := m.cursor + count);
    if r.Ok? then
      moved.(acknowledged := m.acknowledged + |OfValidity(r.value, true)|, rejected := m.rejected + |OfValidity(r.value, false)|)
    else moved
  }

  lemma PublishAgrees(m: Mirror, b: Broker, ms: seq<Message>)
    requires Agrees(m, b)
    ensures Agrees(m.(published := m.published + ms, publishedCount := m.publishedCount + |ms|), b.(ready := b.ready + ms))
  {
    assert (m.published + ms)[..m.cursor] == m.published[..m.cursor];
    assert (m.published + ms)[m.cursor..] == m.published[m.cursor..] + ms;
  }

  lemma ReadFront(published: seq<Message>, cursor: nat, n: nat)
    requires cursor + n <= |published|
    ensures published[cursor..cursor + n] <= published[cursor..]
    ensures published[..cursor] + published[cursor..cursor + n] + published[cursor..][n..] == published
  {
  }

  lemma AgreesFrom(m: Mirror, b: Broker, done: seq<Message>)
    requires m.published == done + b.ready && m.cursor == |done| && m.publishedCount == |m.published|
    requires b.dlq == OfValidity(done, false) && m.acknowledged == |OfValidity(done, true)| && m.rejected == |b.dlq|
    ensures Agrees(m, b)
  {
    assert m.published[..m.cursor] == done;
    assert m.published[m.cursor..] == b.ready;
  }

  lemma ConsumeAgrees(m: Mirror, b: Broker, n: nat, expected: seq<Message>)
    requires Agrees(m, b) && m.cursor + n <= |m.published|
    requires expected == m.published[m.cursor..m.cursor + n]
    ensures expected <= b.ready
    ensures Agrees(Consumed(m, n, Ok(expected)), Broker(b.ready[n..], b.dlq + OfValidity(expected, false)))
  {
    var done := m.published[..m.cursor];
    ReadFront(m.published, m.cursor, n);
    OfValidityAppend(done, expected, false);
    OfValidityAppend(done, expected, true);
    AgreesFrom(Consumed(m, n, Ok(expected)), Broker(b.ready[n..], b.dlq + OfValidity(expected, false)), done + expected);
  }

  /** Agreement is kept by every publish and every consume, whatever the messages and
      the rate, and the harness never sees a mismatch. */
  lemma StepAgrees(m: Mirror, b: Broker, op: Op)
    requires Agrees(m, b)
    ensures var (m', b', r) := Step(m, b, op);
            Agrees(m', b') && r.Ok? && (op.Consume? ==> r.value == Expected(m, op.rate))
  {
    match op
    case Publish(ms) =>
      PublishAgrees(m, b, ms);
    case Consume(rate) =>
      ConsumeAgrees(m, b, |Expected(m, rate)|, Expected(m, rate));
      ConsumeRunsExact(b, Expected(m, rate));
  }

  /** A run: the points it passes through, its operations and the answers it gets. */
  datatype Point = Point(mirror: Mirror, broker: Broker, answer: Result<seq<Message>, ConsumeError>)

  predicate IsRun(h: seq<Point>, ops: seq<Op>) {
    && |h| == |ops| + 1
    && forall i: nat | i < |ops| :: IsMove(h, ops, i)
  }

  predicate IsMove(h: seq<Point>, ops: seq<Op>, i: nat)
    requires |h| == |ops| + 1 && i < |ops|
  {
    && h[i].mirror.cursor <= |h[i].mirror.published|
    && Step(h[i].mirror, h[i].broker, ops[i]) == (h[i + 1].mirror, h[i + 1].broker, h[i + 1].answer)
  }

  /** The answer to operation i: the messages the mirror expected, in its order. */
  predicate AnswersAsExpected(h: seq<Point>, ops: seq<Op>, i: nat)
    requires |h| == |ops| + 1 && i < |ops|
  {
    var m := h[i].mirror;
    m.cursor <= |m.published| && h[i + 1].answer == Ok(if ops[i].Publish? then [] else Expected(m, ops[i].rate))
  }

  lemma MoveAgrees(p: Point, q: Point, op: Op)
    requires Agrees(p.mirror, p.broker)
    requires Step(p.mirror, p.broker, op) == (q.mirror, q.broker, q.answer)
    ensures Agrees(q.mirror, q.broker)
    ensures q.answer == Ok(if op.Publish? then [] else Expected(p.mirror, op.rate))
  {
    StepAgrees(p.mirror, p.broker, op);
  }

  /** The mirror refines the broker: at every point of every run they agree, and the
      operation that led to it was answered as expected, never refused. */
  lemma {:induction false} RunRefines(h: seq<Point>, ops: seq<Op>, i: nat)
    requires IsRun(h, ops) && Agrees(h[0].mirror, h[0].broker) && i <= |ops|
    ensures Agrees(h[i].mirror, h[i].broker)
    ensures i > 0 ==> AnswersAsExpected(h, ops, i - 1)
  {
    if i > 0 {
      RunRefines(h, ops, i - 1);
      assert IsMove(h, ops, i - 1);
      MoveAgrees(h[i - 1], h[i], ops[i - 1]);
    }
  }
}
