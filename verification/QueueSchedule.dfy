/** What the queue harness publishes and consumes in each tick, and what its public
    observations therefore say. */
module QueueSchedule {
  import opened Numbers
  import opened Outcomes
  import opened QueueMirror
  import opened AckLags

  const PRODUCER_RATE: nat := 20
  const NORMAL_RATE: nat := 20
  const RECOVERY_RATE: nat := 40
  const RECOVERY_TICKS: nat := 60
  const POISON_COUNT: nat := 5

  datatype Schedule = Schedule(pauseStart: nat, pauseEnd: nat, poisonTick: nat)

  const HELDOUT := Schedule(120, 179, 420)
  const SHADOW := Schedule(240, 299, 600)

  /** A pause as long as the recovery, and a poison tick after both. */
  predicate Usual(s: Schedule) {
    s.pauseEnd == s.pauseStart + 59 && s.poisonTick > s.pauseEnd + RECOVERY_TICKS
  }

  predicate IsPaused(s: Schedule, tick: nat) {
    s.pauseStart <= tick <= s.pauseEnd
  }

  predicate Recovering(s: Schedule, tick: nat) {
    s.pauseEnd < tick <= s.pauseEnd + RECOVERY_TICKS
  }

  function ConsumerRate(s: Schedule, tick: nat): nat {
    if IsPaused(s, tick) then 0 else if Recovering(s, tick) then RECOVERY_RATE else NORMAL_RATE
  }

  function Batch(tick: nat, count: nat, valid: bool): (ms: seq<Message>)
    ensures |ms| == count && forall i | 0 <= i < count :: ms[i] == Message(tick, i, valid)
  {
    seq(count, i requires 0 <= i => Message(tick, i, valid))
  }

  function TickMessages(s: Schedule, tick: nat): seq<Message> {
    Batch(tick, PRODUCER_RATE, true) + if tick == s.poisonTick then Batch(tick, POISON_COUNT, false) else []
  }

  /** Everything published in the first `ticks` ticks. */
  function Published(s: Schedule, ticks: nat): (ms: seq<Message>)
    ensures |ms| == 20 * ticks + if ticks > s.poisonTick then 5 else 0
  {
    if ticks == 0 then [] else Published(s, ticks - 1) + TickMessages(s, ticks - 1)
  }

  /** How far the consumer is after the first `ticks` ticks. */
  function Cursor(s: Schedule, ticks: nat): (c: nat)
    ensures c <= |Published(s, ticks)|
  {
    if ticks == 0 then 0
    else
      var c := Cursor(s, ticks - 1);
      c + Min(ConsumerRate(s, ticks - 1), |Published(s, ticks)| - c)
  }

  /** What the consumer reads in a tick. */
  function ReadIn(s: Schedule, tick: nat): seq<Message>
  {
    Published(s, tick + 1)[Cursor(s, tick)..Cursor(s, tick) + Min(ConsumerRate(s, tick), |Published(s, tick + 1)| - Cursor(s, tick))]
  }

  function DeadLetters(s: Schedule, ticks: nat): seq<Message> {
    OfValidity(Published(s, ticks)[..Cursor(s, ticks)], false)
  }

  datatype Observation = Observation(
    tick: nat, ready: nat, dlq: nat, published: nat, acknowledged: nat, rejected: nat,
    ackLagMax: int, ackLagP50: int, ackLagP95: int, oldestAge: int)

  function ObservationAt(s: Schedule, tick: nat): Observation {
    var ms := Published(s, tick + 1);
    var c := Cursor(s, tick + 1);
    var lags := Lags(ReadIn(s, tick), tick);
    Observation(tick, |ms| - c, |DeadLetters(s, tick + 1)|, |ms|, |OfValidity(ms[..c], true)|, |DeadLetters(s, tick + 1)|,
                Largest(lags), Percentile(lags, 0.5), Percentile(lags, 0.95), if c < |ms| then tick - ms[c].tick else 0)
  }

  datatype Record = Record(startTick: nat, injected: seq<Message>, observedTick: Option<nat>)

  /** The ledger record of a queue after the first `ticks` ticks. */
  function Ledger(s: Schedule, ticks: nat): Option<Record> {
    if ticks == 0 then None
    else
      var tick := ticks - 1;
      Settled(Opened(s, Ledger(s, tick), tick), |DeadLetters(s, ticks)|, tick)
  }

  /** The poison tick opens a record. */
  function Opened(s: Schedule, record: Option<Record>, tick: nat): Option<Record> {
    if tick == s.poisonTick then Some(Record(tick, Batch(tick, POISON_COUNT, false), None)) else record
  }

  /** A record notes the first tick at which enough dead letters are seen. */
  function Settled(record: Option<Record>, dlqCount: nat, tick: nat): Option<Record> {
    if record.Some? && record.value.observedTick.None? && dlqCount >= |record.value.injected|
    then Some(record.value.(observedTick := Some(tick))) else record
  }

  // ---------------------------------------------------------------- closed forms

  /** The consumer's position after the first `ticks` ticks. */
  function CursorAt(s: Schedule, ticks: nat): int {
    var a := s.pauseStart;
    if ticks <= a then 20 * ticks
    else if ticks <= a + 60 then 20 * a
    else if ticks <= a + 120 then 20 * a + 40 * (ticks - a - 60)
    else 20 * ticks
  }

  lemma {:induction false} CursorIs(s: Schedule, ticks: nat)
    requires Usual(s)
    ensures Cursor(s, ticks) == CursorAt(s, ticks)
  {
    if ticks > 0 {
      CursorIs(s, ticks - 1);
    }
  }

  /** The backlog a tick ends with. */
  function BacklogAt(s: Schedule, tick: nat): int {
    var a := s.pauseStart;
    if tick < a then 0
    else if tick < a + 60 then 20 * (tick - a + 1)
    else if tick < a + 120 then 1200 - 20 * (tick - a - 59)
    else if tick < s.poisonTick then 0
    else 5
  }

  function LagAt(s: Schedule, tick: nat): nat {
    var a := s.pauseStart;
    if tick < a + 60 then 0
    else if tick < a + 120 then a + 120 - tick
    else if tick <= s.poisonTick + 1 then 0
    else 1
  }

  /** How many of the messages read in a tick have the longer lag, and the lag of the
      others, which come after them. */
  function OlderAt(s: Schedule, tick: nat): nat {
    if s.pauseStart + 60 <= tick < s.pauseStart + 120 then 20 else if tick > s.poisonTick + 1 then 5 else 0
  }

  function Newer(s: Schedule, tick: nat): nat {
    if LagAt(s, tick) == 0 then 0 else LagAt(s, tick) - 1
  }

  function AgeAt(s: Schedule, tick: nat): nat {
    var a := s.pauseStart;
    if a <= tick < a + 60 then tick - a
    else if a + 60 <= tick < a + 119 then a + 118 - tick
    else 0
  }

  /** Where a message stands in the publication order. */
  predicate InPlace(s: Schedule, m: Message, i: nat) {
    var p := s.poisonTick;
    && (m.tick <= p ==> 20 * m.tick <= i < 20 * m.tick + (if m.tick == p then 25 else 20))
    && (m.tick > p ==> 20 * m.tick + 5 <= i < 20 * m.tick + 25)
    && (m.valid <==> !(20 * p + 20 <= i < 20 * p + 25))
    && (!m.valid ==> m == Message(p, i - 20 * p - 20, false))
  }

  lemma {:induction false} MessageAt(s: Schedule, ticks: nat, i: nat)
    requires i < |Published(s, ticks)|
    ensures InPlace(s, Published(s, ticks)[i], i)
  {
    if i < |Published(s, ticks - 1)| {
      MessageAt(s, ticks - 1, i);
    }
  }

  /** The dead letters are exactly the poison messages, once the cursor is past them. */
  lemma DeadLettersBefore(s: Schedule, ticks: nat, c: nat)
    requires c <= |Published(s, ticks)|
    requires c <= 20 * s.poisonTick + 20 || c >= 20 * s.poisonTick + 25
    ensures OfValidity(Published(s, ticks)[..c], false) ==
            if c <= 20 * s.poisonTick + 20 then [] else Batch(s.poisonTick, POISON_COUNT, false)
  {
    var ms, p := Published(s, ticks), s.poisonTick;
    forall i | 0 <= i < c ensures InPlace(s, ms[i], i) {
      MessageAt(s, ticks, i);
    }
    if c <= 20 * p + 20 {
      OfValidityUniform(ms[..c], true);
    } else {
      var x, y := 20 * p + 20, 20 * p + 25;
      assert ms[..c] == ms[..x] + ms[x..y] + ms[y..c];
      assert ms[x..y] == Batch(p, POISON_COUNT, false);
      OneInvalidStretch(ms[..x], ms[x..y], ms[y..c]);
    }
  }

  predicate Uniform(ms: seq<Message>, valid: bool) {
    forall i | 0 <= i < |ms| :: ms[i].valid == valid
  }

  lemma OneInvalidStretch(a: seq<Message>, b: seq<Message>, c: seq<Message>)
    requires Uniform(a, true) && Uniform(b, false) && Uniform(c, true)
    ensures OfValidity(a + b + c, false) == b
  {
    OfValidityUniform(a, true);
    OfValidityUniform(b, false);
    OfValidityUniform(c, true);
    OnlyMiddle(a, b, c);
  }

  lemma OnlyMiddle(a: seq<Message>, b: seq<Message>, c: seq<Message>)
    requires OfValidity(a, false) == OfValidity(c, false) == []
    ensures OfValidity(a + b + c, false) == OfValidity(b, false)
  {
    OfValidityAppend(a + b, c, false);
    OfValidityAppend(a, b, false);
    assert [] + OfValidity(b, false) + [] == OfValidity(b, false);
  }

  /** No message but the poison ones is ever dead-lettered, and those are from the
      tick after their publication on. */
  lemma DeadLettersAre(s: Schedule, ticks: nat)
    requires Usual(s)
    ensures DeadLetters(s, ticks) == if ticks <= s.poisonTick + 1 then [] else Batch(s.poisonTick, POISON_COUNT, false)
  {
    CursorIs(s, ticks);
    DeadLettersBefore(s, ticks, Cursor(s, ticks));
  }

  /** The record is opened in the poison tick and settled in the next. */
  function LedgerAt(s: Schedule, ticks: nat): Option<Record> {
    if ticks <= s.poisonTick then None
    else Some(Record(s.poisonTick, Batch(s.poisonTick, POISON_COUNT, false),
                     if ticks <= s.poisonTick + 1 then None else Some(s.poisonTick + 1)))
  }

  lemma LedgerAtStep(s: Schedule, tick: nat)
    ensures LedgerAt(s, tick + 1) == Settled(Opened(s, LedgerAt(s, tick), tick), if tick <= s.poisonTick then 0 else 5, tick)
  {
  }

  lemma DeadLetterCount(s: Schedule, ticks: nat)
    requires Usual(s)
    ensures |DeadLetters(s, ticks)| == if ticks <= s.poisonTick + 1 then 0 else 5
  {
    DeadLettersAre(s, ticks);
  }

  predicate LedgerFits(s: Schedule, ticks: nat) {
    Ledger(s, ticks) == LedgerAt(s, ticks)
  }

  lemma LedgerFirst(s: Schedule)
    ensures LedgerFits(s, 0)
  {
  }

  lemma LedgerNext(s: Schedule, tick: nat)
    requires Usual(s) && LedgerFits(s, tick)
    ensures LedgerFits(s, tick + 1)
  {
    DeadLetterCount(s, tick + 1);
    LedgerAtStep(s, tick);
  }

  /** The ledger's observed transition is the tick after the poison tick. */
  lemma {:induction false} LedgerIs(s: Schedule, ticks: nat)
    requires Usual(s)
    ensures Ledger(s, ticks) == LedgerAt(s, ticks)
  {
    LedgerFirst(s);
    for tick := 0 to ticks
      invariant LedgerFits(s, tick)
    {
      LedgerNext(s, tick);
    }
  }

  /** The tick after the poison tick reads the five poison messages first, then
      fifteen of its own. */
  lemma PoisonIsReadFirst(s: Schedule)
    requires Usual(s)
    ensures ReadIn(s, s.poisonTick + 1) == Batch(s.poisonTick, POISON_COUNT, false) + Batch(s.poisonTick + 1, 15, true)
  {
    var t := s.poisonTick + 1;
    CursorIs(s, t);
    var own := TickMessages(s, t);
    assert Published(s, t + 1) == Published(s, t) + own;
    assert Published(s, t) == Published(s, t - 1) + TickMessages(s, t - 1);
  }

  /** A message read in a tick was published at most as long ago as the lag says. */
  lemma LagOf(s: Schedule, m: Message, tick: nat, i: nat)
    requires Usual(s) && InPlace(s, m, i) && CursorAt(s, tick) <= i < CursorAt(s, tick + 1)
    ensures m.tick <= tick <= m.tick + 60
    ensures tick != s.poisonTick + 1 ==>
              m.valid && tick - m.tick == if i < CursorAt(s, tick) + OlderAt(s, tick) then LagAt(s, tick) else Newer(s, tick)
  {
  }

  /** The k-th message read in a tick is message Cursor + k of all. */
  lemma ReadAt(s: Schedule, tick: nat, k: nat) returns (i: nat)
    requires Usual(s) && k < |ReadIn(s, tick)|
    ensures i == CursorAt(s, tick) + k < CursorAt(s, tick + 1)
    ensures InPlace(s, ReadIn(s, tick)[k], i)
  {
    CursorIs(s, tick);
    CursorIs(s, tick + 1);
    i := Cursor(s, tick) + k;
    assert ReadIn(s, tick)[k] == Published(s, tick + 1)[i];
    MessageAt(s, tick + 1, i);
  }

  /** How many valid messages a tick reads. */
  function ReadCount(s: Schedule, tick: nat): nat {
    if IsPaused(s, tick) then 0 else if Recovering(s, tick) then 40 else if tick == s.poisonTick + 1 then 15 else 20
  }

  /** The lags of a tick: first the longer ones, then the shorter ones. */
  lemma LagsAre(s: Schedule, tick: nat)
    requires Usual(s)
    ensures OlderAt(s, tick) <= ReadCount(s, tick)
    ensures Lags(ReadIn(s, tick), tick) ==
            Falling(LagAt(s, tick), OlderAt(s, tick), Newer(s, tick), ReadCount(s, tick) - OlderAt(s, tick))
  {
    var read, older := ReadIn(s, tick), OlderAt(s, tick);
    if tick == s.poisonTick + 1 {
      LagsAfterPoison(s);
    } else {
      ReadLength(s, tick);
      var lags := Falling(LagAt(s, tick), older, Newer(s, tick), |read| - older);
      forall k | 0 <= k < |read| ensures read[k].valid && lags[k] == tick - read[k].tick {
        var i := ReadAt(s, tick, k);
        LagOf(s, read[k], tick, i);
      }
      LagsOfValid(read, tick, lags);
    }
  }

  lemma ReadLength(s: Schedule, tick: nat)
    requires Usual(s) && tick != s.poisonTick + 1
    ensures |ReadIn(s, tick)| == ReadCount(s, tick)
  {
    CursorIs(s, tick);
    CursorIs(s, tick + 1);
  }

  lemma LagsAfterPoison(s: Schedule)
    requires Usual(s)
    ensures var t := s.poisonTick + 1; Lags(ReadIn(s, t), t) == Falling(0, 0, 0, 15)
  {
    PoisonIsReadFirst(s);
    LagsOfTwoBatches(s.poisonTick, POISON_COUNT, s.poisonTick + 1, 15);
  }

  lemma LagsOfTwoBatches(p: nat, m: nat, t: nat, n: nat)
    ensures Lags(Batch(p, m, false) + Batch(t, n, true), t) == Falling(0, 0, 0, n)
  {
    LagsAppend(Batch(p, m, false), Batch(t, n, true), t);
    LagsOfInvalid(Batch(p, m, false), t);
    LagsOfValid(Batch(t, n, true), t, Falling(0, 0, 0, n));
    assert [] + Falling(0, 0, 0, n) == Falling(0, 0, 0, n);
  }

  /** What is reported of the lags of a tick: the longest is also the 95th percentile,
      and the median once the poison messages are read is zero. */
  lemma LagStatistics(s: Schedule, tick: nat)
    requires Usual(s)
    ensures var lags := Lags(ReadIn(s, tick), tick);
            && Largest(lags) == Percentile(lags, 0.95) == LagAt(s, tick)
            && Percentile(lags, 0.5) == if tick <= s.poisonTick + 1 then LagAt(s, tick) else 0
  {
    LagsAre(s, tick);
    StatisticsOf(Lags(ReadIn(s, tick), tick), LagAt(s, tick), OlderAt(s, tick), Newer(s, tick), ReadCount(s, tick));
  }

  /** Of falling lags, in the numbers that occur: equal lags, two halves, or a quarter
      of longer ones. */
  lemma StatisticsOf(lags: seq<int>, high: int, x: nat, low: int, n: nat)
    requires x <= n && low <= high && lags == Falling(high, x, low, n - x)
    requires (x == 0 && high == low && (n == 0 ==> high == 0)) || (x == 20 && n == 40) || (x == 5 && n == 20)
    ensures Largest(lags) == Percentile(lags, 0.95) == high
    ensures Percentile(lags, 0.5) == if x == 5 then low else high
  {
    if n > 0 {
      LargestFalling(high, x, low, n - x);
      PercentileFalling(high, x, low, n - x, 0.95);
      PercentileFalling(high, x, low, n - x, 0.5);
    }
  }

  lemma OldestAt(s: Schedule, tick: nat)
    requires Usual(s)
    ensures ObservationAt(s, tick).oldestAge == AgeAt(s, tick)
  {
    CursorIs(s, tick + 1);
    var c := Cursor(s, tick + 1);
    if c < |Published(s, tick + 1)| {
      MessageAt(s, tick + 1, c);
    }
  }

  /** Every public observation in closed form: backlog, dead letters, counters, lag and age. */
  lemma ObservationIs(s: Schedule, tick: nat)
    requires Usual(s)
    ensures var o := ObservationAt(s, tick);
            var rejected := if tick <= s.poisonTick then 0 else 5;
            && o.ready == BacklogAt(s, tick)
            && o.published == 20 * (tick + 1) + (if tick >= s.poisonTick then 5 else 0)
            && o.dlq == o.rejected == rejected
            && o.acknowledged == CursorAt(s, tick + 1) - rejected
            && o.ackLagMax == o.ackLagP95 == LagAt(s, tick)
            && o.ackLagP50 == (if tick <= s.poisonTick + 1 then LagAt(s, tick) else 0)
            && o.oldestAge == AgeAt(s, tick)
  {
    CursorIs(s, tick + 1);
    DeadLettersAre(s, tick + 1);
    ValiditiesPartition(Published(s, tick + 1)[..Cursor(s, tick + 1)]);
    LagStatistics(s, tick);
    OldestAt(s, tick);
  }

  /** The backlog is back at zero 60 ticks after the pause ends and not before. */
  lemma RecoveryEnds(s: Schedule, tick: nat)
    requires Usual(s) && s.pauseStart <= tick < s.poisonTick
    ensures ObservationAt(s, tick).ready == 0 <==> tick >= s.pauseEnd + 60
  {
    ObservationIs(s, tick);
  }

  /** Every message is read at most 60 ticks after it was published. */
  lemma LagBound(s: Schedule, tick: nat, k: nat)
    requires Usual(s) && k < |ReadIn(s, tick)|
    ensures ReadIn(s, tick)[k].tick <= tick <= ReadIn(s, tick)[k].tick + 60
  {
    var i := ReadAt(s, tick, k);
    LagOf(s, ReadIn(s, tick)[k], tick, i);
  }

  lemma BothUsual()
    ensures Usual(HELDOUT) && Usual(SHADOW)
  {
  }
}
