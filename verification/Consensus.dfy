/** The paired-observation consensus of the database fleet finalizer: how two
    measured telemetry files become one canonical file. */
module Consensus {
  import opened Outcomes

  // ---------------------------------------------------------------- data model

  /** Key names of a telemetry row. The keys the program treats specially have
      their own constructor; `Private` stands for the sixteen forbidden names and
      `Named` for every other key. */
  datatype Field =
    | AcquisitionFailed | AcquireWaitMs | HeartbeatObserved
    | SqlInsertCount | SqlSelectCount | SqlUpdateCount
    | RowSha256 | TransactionDurationMs
    | ConsensusRuns | Normalization | UsesPrivateSchedule
    | AcquireWaitSlow | TransactionSlow
    | Private(secret: string)
    | Named(name: string)

  /** A decoded JSON value. Booleans, integers and floats are different values, also
      where the source's equality does not tell them apart. */
  datatype Json =
    | Null
    | Bool(b: bool)
    | Int(i: int)
    | Float(x: real)
    | MinusZero
    | Infinite(positive: bool)
    | NaN
    | Str(s: string)
    | List(items: seq<Json>)
    | Obj(fields: map<Field, Json>)

  type Row = map<Field, Json>

  /** One line of a JSONL file: a JSON object, or anything else. */
  datatype Line = RowLine(row: Row) | BadLine

  /** The number a value stands for, and the outcome of a conversion to a float. */
  datatype Number = Finite(value: real) | Beyond(positive: bool)

  datatype Converted = Fails | Becomes(number: Number) | BecomesNaN

  /** What the model takes as given: the hash of a row, and the conversion of a value
      to a float. Strings may convert and integers may be too large to. */
  datatype RowRules = RowRules(sha: Row -> string, convert: Json -> Converted)

  /** The measured fields, which take no part in the identity of a row. */
  const DYNAMIC_FIELDS: set<Field> :=
    {AcquisitionFailed, AcquireWaitMs, HeartbeatObserved, SqlInsertCount, SqlSelectCount,
     SqlUpdateCount, RowSha256, TransactionDurationMs}

  predicate Dynamic(f: Field) {
    f in DYNAMIC_FIELDS
  }

  const SIGNAL_THRESHOLD_MS: real := 20.0
  const EXPECTED_ROWS: nat := 256 * 720

  datatype PairError =
    | PrivateFieldInTelemetry
    | IdentityMismatch
    | RowHashMismatch
    | MetricUnreadable
    | RowCountMismatch
    | RowObjectRequired
    | RowCountInvalid(count: nat)

  // ---------------------------------------------------------------- one row

  function FlattenKeys(v: Json): set<Field> {
    match v
    case Obj(fields) => fields.Keys + (set k, f | k in fields && f in FlattenKeys(fields[k]) :: f)
    case List(items) => set i, f | 0 <= i < |items| && f in FlattenKeys(items[i]) :: f
    case _ => {}
  }

  predicate HasPrivateKey(row: Row) {
    exists f <- FlattenKeys(Obj(row)) :: f.Private?
  }

  function Identity(row: Row): Row {
    row - DYNAMIC_FIELDS
  }

  /** The two identities are equal, by the source's equality. */
  predicate SameIdentity(first: Row, second: Row) {
    Equal(Obj(Identity(first)), Obj(Identity(second)))
  }

  predicate HashValid(row: Row, rules: RowRules) {
    RowSha256 in row && row[RowSha256] == Str(rules.sha(row - {RowSha256}))
  }

  predicate IsTrue(row: Row, f: Field) {
    f in row && row[f] == Bool(true)
  }

  /** The number a value compares as; true and false compare as 1 and 0. */
  function NumberOf(v: Json): Option<Number> {
    match v
    case Bool(b) => Some(Finite(if b then 1.0 else 0.0))
    case Int(i) => Some(Finite(i as real))
    case Float(x) => Some(Finite(x))
    case MinusZero => Some(Finite(0.0))
    case Infinite(positive) => Some(Beyond(positive))
    case _ => None
  }

  /** The source's equality of decoded values: numbers compare across their kinds,
      containers compare their elements. The decoder yields one and the same NaN
      object each time, which a container takes as equal to itself. */
  predicate Equal(v: Json, w: Json) {
    match v
    case Null => w.Null?
    case NaN => w.NaN?
    case Str(_) => v == w
    case List(items) =>
      w.List? && |items| == |w.items| && forall i | 0 <= i < |items| :: Equal(items[i], w.items[i])
    case Obj(fields) =>
      w.Obj? && fields.Keys == w.fields.Keys && forall f | f in fields :: Equal(fields[f], w.fields[f])
    case _ => NumberOf(v) == NumberOf(w)
  }

  /** The truth test of the source's `or`: missing and falsy values count as zero. */
  predicate Falsy(v: Json) {
    match v
    case Null => true
    case Bool(b) => !b
    case Int(i) => i == 0
    case Float(x) => x == 0.0
    case MinusZero => true
    case Infinite(_) => false
    case NaN => false
    case Str(s) => s == ""
    case List(items) => items == []
    case Obj(fields) => fields == map[]
  }

  datatype Reading = Raises | Reads(slow: bool)

  /** A metric of a row: the conversion raises, or says whether the number reaches the
      threshold. Missing and falsy values read as zero; a NaN reaches nothing. */
  function ReadMetric(row: Row, f: Field, rules: RowRules): Reading {
    if f !in row || Falsy(row[f]) then Reads(false)
    else match rules.convert(row[f])
      case Fails => Raises
      case Becomes(Finite(n)) => Reads(n >= SIGNAL_THRESHOLD_MS)
      case Becomes(Beyond(positive)) => Reads(positive)
      case BecomesNaN => Reads(false)
  }

  predicate Slow(row: Row, f: Field, rules: RowRules) {
    ReadMetric(row, f, rules) == Reads(true)
  }

  /** The conjunction over the two rows, evaluated left to right: the second
      row is not looked at when the first one already fails the threshold. */
  function BothSlow(first: Row, second: Row, f: Field, rules: RowRules): Result<bool, PairError> {
    if ReadMetric(first, f, rules).Raises? then Err(MetricUnreadable)
    else if !Slow(first, f, rules) then Ok(false)
    else if ReadMetric(second, f, rules).Raises? then Err(MetricUnreadable)
    else Ok(Slow(second, f, rules))
  }

  function SlowSignal(first: Row, second: Row, metric: Field, rules: RowRules): Result<Option<bool>, PairError> {
    if metric in first || metric in second then
      var slow := BothSlow(first, second, metric, rules);
      if slow.Err? then Err(slow.error) else Ok(Some(slow.value))
    else Ok(None)
  }

  /** Everything the canonical row takes from the two measurements. */
  datatype Signals = Signals(failed: bool, observed: bool, acquireSlow: Option<bool>, transactionSlow: Option<bool>)

  function Count(observed: bool): Json {
    Int(if observed then 1 else 0)
  }

  /** The entry the canonical row gets under one key, where it gets one. */
  function SignalField(f: Field, s: Signals): Option<Json> {
    match f
    case AcquisitionFailed => Some(Bool(s.failed))
    case HeartbeatObserved => Some(Bool(s.observed))
    case ConsensusRuns => Some(Int(2))
    case Normalization => Some(Str("paired_actual_observation_consensus.v1"))
    case UsesPrivateSchedule => Some(Bool(false))
    case SqlInsertCount => Some(Count(s.observed))
    case SqlSelectCount => Some(Count(s.observed))
    case SqlUpdateCount => Some(Count(s.observed))
    case AcquireWaitSlow => if s.acquireSlow.Some? then Some(Bool(s.failed || s.acquireSlow.value)) else None
    case TransactionSlow => if s.transactionSlow.Some? then Some(Bool(s.failed || s.transactionSlow.value)) else None
    case _ => None
  }

  function Written(row: Row, f: Field, s: Signals): Row {
    if SignalField(f, s).Some? then row[f := SignalField(f, s).value] else row
  }

  const CANONICAL_FIELDS: seq<Field> :=
    [AcquisitionFailed, HeartbeatObserved, ConsensusRuns, Normalization, UsesPrivateSchedule,
     SqlInsertCount, SqlSelectCount, SqlUpdateCount, AcquireWaitSlow, TransactionSlow]

  /** The updates of the canonical row, one field after the other. */
  function WrittenAll(row: Row, fields: seq<Field>, s: Signals): Row {
    if fields == [] then row else Written(WrittenAll(row, fields[..|fields| - 1], s), fields[|fields| - 1], s)
  }

  function Unhashed(identity: Row, s: Signals): Row {
    WrittenAll(identity, CANONICAL_FIELDS, s)
  }

  function Sealed(row: Row, rules: RowRules): Row {
    row[RowSha256 := Str(rules.sha(row))]
  }

  /** `consensus_public_row`: a dictionary that starts as the shared identity and
      is updated in place, which is a chain of map updates here. */
  function ConsensusRow(first: Row, second: Row, rules: RowRules): Result<Row, PairError> {
    if HasPrivateKey(first) || HasPrivateKey(second) then Err(PrivateFieldInTelemetry)
    else if !SameIdentity(first, second) then Err(IdentityMismatch)
    else if !HashValid(first, rules) || !HashValid(second, rules) then Err(RowHashMismatch)
    else
      var acquire, transaction := SlowSignal(first, second, AcquireWaitMs, rules), SlowSignal(first, second, TransactionDurationMs, rules);
      if acquire.Err? then Err(acquire.error)
      else if transaction.Err? then Err(transaction.error)
      else
        var s := Signals(IsTrue(first, AcquisitionFailed) && IsTrue(second, AcquisitionFailed),
                         IsTrue(first, HeartbeatObserved) && IsTrue(second, HeartbeatObserved),
                         acquire.value, transaction.value);
        Ok(Sealed(Unhashed(Identity(first), s), rules))
  }

  // ---------------------------------------------------------------- properties of one row

  /** The checks that come before any measurement is looked at. */
  predicate Comparable(first: Row, second: Row, rules: RowRules) {
    && !HasPrivateKey(first) && !HasPrivateKey(second)
    && SameIdentity(first, second)
    && HashValid(first, rules) && HashValid(second, rules)
  }

  /** The conversion of one metric raises in this order of the two rows. */
  predicate MetricRaises(first: Row, second: Row, f: Field, rules: RowRules) {
    ReadMetric(first, f, rules).Raises? || (Slow(first, f, rules) && ReadMetric(second, f, rules).Raises?)
  }

  predicate AnyMetricRaises(first: Row, second: Row, rules: RowRules) {
    MetricRaises(first, second, AcquireWaitMs, rules) || MetricRaises(first, second, TransactionDurationMs, rules)
  }

  /** Acceptance, both ways. */
  lemma AcceptedExactlyWhenComparable(first: Row, second: Row, rules: RowRules)
    ensures ConsensusRow(first, second, rules).Ok? <==>
            Comparable(first, second, rules) && !AnyMetricRaises(first, second, rules)
  {
    assert MetricRaises(first, second, AcquireWaitMs, rules) <==> SlowSignal(first, second, AcquireWaitMs, rules).Err?;
    assert MetricRaises(first, second, TransactionDurationMs, rules) <==> SlowSignal(first, second, TransactionDurationMs, rules).Err?;
  }

  predicate BothTrue(first: Row, second: Row, f: Field) {
    IsTrue(first, f) && IsTrue(second, f)
  }

  predicate BothAbove(first: Row, second: Row, f: Field, rules: RowRules) {
    Slow(first, f, rules) && Slow(second, f, rules)
  }

  /** The thresholded conjunctions of an accepted pair. */
  function SignalsOf(first: Row, second: Row, rules: RowRules): Signals {
    Signals(BothTrue(first, second, AcquisitionFailed),
            BothTrue(first, second, HeartbeatObserved),
            if AcquireWaitMs in first || AcquireWaitMs in second then Some(BothAbove(first, second, AcquireWaitMs, rules)) else None,
            if TransactionDurationMs in first || TransactionDurationMs in second then Some(BothAbove(first, second, TransactionDurationMs, rules)) else None)
  }

  lemma {:induction false} WrittenAt(row: Row, fields: seq<Field>, s: Signals, f: Field)
    ensures var u, written := WrittenAll(row, fields, s), f in fields && SignalField(f, s).Some?;
            && (f in u <==> f in row || written)
            && (f in u ==> u[f] == if written then SignalField(f, s).value else row[f])
  {
    if fields != [] {
      var n := |fields| - 1;
      WrittenAt(row, fields[..n], s, f);
      assert fields == fields[..n] + [fields[n]];
    }
  }

  lemma SignalFieldsAreCanonical(f: Field, s: Signals)
    ensures SignalField(f, s).Some? ==> f in CANONICAL_FIELDS
  {
    assert CANONICAL_FIELDS[0] == AcquisitionFailed && CANONICAL_FIELDS[1] == HeartbeatObserved;
    assert CANONICAL_FIELDS[2] == ConsensusRuns && CANONICAL_FIELDS[3] == Normalization;
    assert CANONICAL_FIELDS[4] == UsesPrivateSchedule && CANONICAL_FIELDS[5] == SqlInsertCount;
    assert CANONICAL_FIELDS[6] == SqlSelectCount && CANONICAL_FIELDS[7] == SqlUpdateCount;
    assert CANONICAL_FIELDS[8] == AcquireWaitSlow && CANONICAL_FIELDS[9] == TransactionSlow;
  }

  /** Reading a canonical row key by key. */
  lemma UnhashedAt(identity: Row, s: Signals, f: Field)
    ensures f in Unhashed(identity, s) <==> f in identity || SignalField(f, s).Some?
    ensures SignalField(f, s).Some? ==> Unhashed(identity, s)[f] == SignalField(f, s).value
    ensures SignalField(f, s).None? && f in identity ==> Unhashed(identity, s)[f] == identity[f]
  {
    WrittenAt(identity, CANONICAL_FIELDS, s, f);
    SignalFieldsAreCanonical(f, s);
  }

  lemma SealedKeeps(row: Row, rules: RowRules)
    requires RowSha256 !in row
    ensures Sealed(row, rules) - {RowSha256} == row && HashValid(Sealed(row, rules), rules)
  {
  }

  /** The canonical row of a pair that is accepted. */
  function CanonicalRow(first: Row, second: Row, rules: RowRules): Row {
    Sealed(Unhashed(Identity(first), SignalsOf(first, second, rules)), rules)
  }

  lemma ConsensusFromSignals(first: Row, second: Row, rules: RowRules)
    requires ConsensusRow(first, second, rules).Ok?
    ensures ConsensusRow(first, second, rules) == Ok(CanonicalRow(first, second, rules))
  {
    assert SlowSignal(first, second, AcquireWaitMs, rules) == Ok(SignalsOf(first, second, rules).acquireSlow);
    assert SlowSignal(first, second, TransactionDurationMs, rules) == Ok(SignalsOf(first, second, rules).transactionSlow);
  }

  /** Reading a canonical row key by key. */
  lemma CanonicalAt(first: Row, second: Row, rules: RowRules, f: Field)
    requires f != RowSha256
    ensures var c, s := CanonicalRow(first, second, rules), SignalField(f, SignalsOf(first, second, rules));
            && (f in c <==> s.Some? || (f in first && !Dynamic(f)))
            && (s.Some? ==> c[f] == s.value)
            && (s.None? && f in c ==> c[f] == first[f])
  {
    UnhashedAt(Identity(first), SignalsOf(first, second, rules), f);
  }

  lemma CanonicalHash(first: Row, second: Row, rules: RowRules)
    ensures var c := CanonicalRow(first, second, rules); HashValid(c, rules) && RowSha256 in c && c[RowSha256].Str?
  {
    UnhashedHasNoHash(first, SignalsOf(first, second, rules));
    SealedKeeps(Unhashed(Identity(first), SignalsOf(first, second, rules)), rules);
  }

  /** The flags and counts of row `c` are those of the given conjunctions. */
  predicate FlagsAre(c: Row, failed: bool, observed: bool) {
    && (IsTrue(c, AcquisitionFailed) <==> failed)
    && (IsTrue(c, HeartbeatObserved) <==> observed)
    && SqlInsertCount in c && c[SqlInsertCount] == Count(observed)
    && SqlSelectCount in c && c[SqlSelectCount] == Count(observed)
    && SqlUpdateCount in c && c[SqlUpdateCount] == Count(observed)
  }

  lemma FlagsAreConjunctive(first: Row, second: Row, rules: RowRules, c: Row)
    requires c == CanonicalRow(first, second, rules)
    ensures FlagsAre(c, BothTrue(first, second, AcquisitionFailed), BothTrue(first, second, HeartbeatObserved))
  {
    CanonicalAt(first, second, rules, AcquisitionFailed);
    CanonicalAt(first, second, rules, HeartbeatObserved);
    CanonicalAt(first, second, rules, SqlInsertCount);
    CanonicalAt(first, second, rules, SqlSelectCount);
    CanonicalAt(first, second, rules, SqlUpdateCount);
  }

  lemma SlownessIsConjunctive(first: Row, second: Row, rules: RowRules, metric: Field, signal: Field, c: Row)
    requires c == CanonicalRow(first, second, rules)
    requires (metric == AcquireWaitMs && signal == AcquireWaitSlow) || (metric == TransactionDurationMs && signal == TransactionSlow)
    ensures metric in first || metric in second ==>
              (IsTrue(c, signal) <==> BothTrue(first, second, AcquisitionFailed) || BothAbove(first, second, metric, rules))
  {
    CanonicalAt(first, second, rules, signal);
  }

  /** A signal survives only where both runs observed it. */
  lemma SignalsAreConjunctive(first: Row, second: Row, rules: RowRules)
    requires ConsensusRow(first, second, rules).Ok?
    ensures var c := ConsensusRow(first, second, rules).value;
            && FlagsAre(c, BothTrue(first, second, AcquisitionFailed), BothTrue(first, second, HeartbeatObserved))
            && (AcquireWaitMs in first || AcquireWaitMs in second ==>
                  (IsTrue(c, AcquireWaitSlow) <==>
                   BothTrue(first, second, AcquisitionFailed) || BothAbove(first, second, AcquireWaitMs, rules)))
            && (TransactionDurationMs in first || TransactionDurationMs in second ==>
                  (IsTrue(c, TransactionSlow) <==>
                   BothTrue(first, second, AcquisitionFailed) || BothAbove(first, second, TransactionDurationMs, rules)))
  {
    ConsensusFromSignals(first, second, rules);
    var c := CanonicalRow(first, second, rules);
    FlagsAreConjunctive(first, second, rules, c);
    SlownessIsConjunctive(first, second, rules, AcquireWaitMs, AcquireWaitSlow, c);
    SlownessIsConjunctive(first, second, rules, TransactionDurationMs, TransactionSlow, c);
  }

  lemma EqualIdentityAt(first: Row, second: Row, f: Field)
    requires SameIdentity(first, second) && !Dynamic(f)
    ensures f in first <==> f in second
    ensures f in first ==> Equal(first[f], second[f])
  {
    var x, y := Identity(first), Identity(second);
    assert x.Keys == y.Keys;
    assert f in first <==> f in x;
    assert f in second <==> f in y;
    assert f in x ==> Equal(x[f], y[f]);
  }

  lemma {:induction false} EqualReflexive(v: Json)
    ensures Equal(v, v)
  {
    match v
    case List(items) =>
      forall i | 0 <= i < |items| ensures Equal(items[i], items[i]) {
        EqualReflexive(items[i]);
      }
    case Obj(fields) =>
      forall f | f in fields ensures Equal(fields[f], fields[f]) {
        EqualReflexive(fields[f]);
      }
    case _ =>
  }

  lemma {:induction false} EqualSymmetric(v: Json, w: Json)
    requires Equal(v, w)
    ensures Equal(w, v)
  {
    match v
    case List(items) =>
      forall i | 0 <= i < |items| ensures Equal(w.items[i], items[i]) {
        EqualSymmetric(items[i], w.items[i]);
      }
    case Obj(fields) =>
      forall f | f in w.fields ensures Equal(w.fields[f], fields[f]) {
        assert f in fields;
        EqualSymmetric(fields[f], w.fields[f]);
      }
    case _ =>
  }

  /** Nothing else of the measurements reaches the output: the raw numbers are
      gone, the other keys are those both rows agree on, and the row is resealed. */
  lemma IdentityIsKept(first: Row, second: Row, rules: RowRules, f: Field)
    requires ConsensusRow(first, second, rules).Ok?
    ensures var c := ConsensusRow(first, second, rules).value;
            && HashValid(c, rules)
            && AcquireWaitMs !in c && TransactionDurationMs !in c
            && (f.Named? ==> (f in c <==> f in first) && (f in c <==> f in second))
            && (f.Named? && f in c ==> c[f] == first[f] && Equal(first[f], second[f]))
  {
    ConsensusFromSignals(first, second, rules);
    CanonicalHash(first, second, rules);
    CanonicalAt(first, second, rules, AcquireWaitMs);
    CanonicalAt(first, second, rules, TransactionDurationMs);
    if f.Named? {
      CanonicalAt(first, second, rules, f);
      EqualIdentityAt(first, second, f);
    }
  }

  /** Two accepted pairs that agree on identity and on the conjunctions give the
      same row, whatever the measured numbers were. */
  lemma OnlyConjunctionsMatter(first: Row, second: Row, first': Row, second': Row, rules: RowRules)
    requires ConsensusRow(first, second, rules).Ok? && ConsensusRow(first', second', rules).Ok?
    requires Identity(first) == Identity(first')
    requires SignalsOf(first, second, rules) == SignalsOf(first', second', rules)
    ensures ConsensusRow(first, second, rules) == ConsensusRow(first', second', rules)
  {
    ConsensusFromSignals(first, second, rules);
    ConsensusFromSignals(first', second', rules);
  }

  lemma ComparableSymmetric(first: Row, second: Row, rules: RowRules)
    ensures Comparable(first, second, rules) <==> Comparable(second, first, rules)
  {
    if SameIdentity(first, second) {
      EqualSymmetric(Obj(Identity(first)), Obj(Identity(second)));
    }
    if SameIdentity(second, first) {
      EqualSymmetric(Obj(Identity(second)), Obj(Identity(first)));
    }
  }

  /** What is copied from the first row has the same value in the second: equal is not
      enough, since true, 1 and 1.0 are equal and are written differently. */
  predicate CopiesAgree(first: Row, second: Row, rules: RowRules) {
    forall f | f in first && f in second && !Dynamic(f) && SignalField(f, SignalsOf(first, second, rules)).None? :: first[f] == second[f]
  }

  lemma SameCopiesSameRow(first: Row, second: Row, rules: RowRules, s: Signals)
    requires SameIdentity(first, second) && s == SignalsOf(first, second, rules) && CopiesAgree(first, second, rules)
    ensures Unhashed(Identity(first), s) == Unhashed(Identity(second), s)
  {
    var u, v := Unhashed(Identity(first), s), Unhashed(Identity(second), s);
    forall f: Field ensures (f in u <==> f in v) && (f in u ==> u[f] == v[f]) {
      UnhashedAt(Identity(first), s, f);
      UnhashedAt(Identity(second), s, f);
      if !Dynamic(f) {
        EqualIdentityAt(first, second, f);
      }
    }
  }

  lemma SameRowSameCopies(first: Row, second: Row, rules: RowRules, s: Signals)
    requires SameIdentity(first, second) && s == SignalsOf(first, second, rules)
    requires Unhashed(Identity(first), s) == Unhashed(Identity(second), s)
    ensures CopiesAgree(first, second, rules)
  {
    forall f | f in first && f in second && !Dynamic(f) && SignalField(f, s).None? ensures first[f] == second[f] {
      UnhashedAt(Identity(first), s, f);
      UnhashedAt(Identity(second), s, f);
    }
  }

  lemma SealedApart(u: Row, v: Row, rules: RowRules)
    requires RowSha256 !in u && RowSha256 !in v
    ensures Sealed(u, rules) == Sealed(v, rules) <==> u == v
  {
    SealedKeeps(u, rules);
    SealedKeeps(v, rules);
  }

  lemma UnhashedHasNoHash(row: Row, s: Signals)
    ensures RowSha256 !in Unhashed(Identity(row), s)
  {
    UnhashedAt(Identity(row), s, RowSha256);
  }

  /** The two orders write the same row exactly when the copied values agree. */
  lemma CopiesDecide(first: Row, second: Row, rules: RowRules)
    requires SameIdentity(first, second)
    ensures CanonicalRow(first, second, rules) == CanonicalRow(second, first, rules) <==> CopiesAgree(first, second, rules)
  {
    var s := SignalsOf(first, second, rules);
    assert s == SignalsOf(second, first, rules);
    UnhashedHasNoHash(first, s);
    UnhashedHasNoHash(second, s);
    SealedApart(Unhashed(Identity(first), s), Unhashed(Identity(second), s), rules);
    if CopiesAgree(first, second, rules) {
      SameCopiesSameRow(first, second, rules, s);
    } else if Unhashed(Identity(first), s) == Unhashed(Identity(second), s) {
      SameRowSameCopies(first, second, rules, s);
    }
  }

  /** The order of two rows that pass the checks decides nothing exactly when both
      orders convert the metrics, or neither does, and, where they do, the values
      copied from the first row are the second row's as well. */
  lemma OrderFreeExactly(first: Row, second: Row, rules: RowRules)
    requires Comparable(first, second, rules)
    ensures ConsensusRow(first, second, rules) == ConsensusRow(second, first, rules)
            <==> if AnyMetricRaises(first, second, rules) then AnyMetricRaises(second, first, rules)
                 else !AnyMetricRaises(second, first, rules) && CopiesAgree(first, second, rules)
  {
    OutcomeOf(first, second, rules);
    ComparableSymmetric(first, second, rules);
    OutcomeOf(second, first, rules);
    CopiesDecide(first, second, rules);
  }

  lemma OutcomeOf(first: Row, second: Row, rules: RowRules)
    requires Comparable(first, second, rules)
    ensures ConsensusRow(first, second, rules) ==
            if AnyMetricRaises(first, second, rules) then Err(MetricUnreadable) else Ok(CanonicalRow(first, second, rules))
  {
    AcceptedExactlyWhenComparable(first, second, rules);
    if !AnyMetricRaises(first, second, rules) {
      ConsensusFromSignals(first, second, rules);
    }
  }

  predicate MetricsConvert(row: Row, rules: RowRules) {
    ReadMetric(row, AcquireWaitMs, rules).Reads? && ReadMetric(row, TransactionDurationMs, rules).Reads?
  }

  /** Numeric rows that share their copied values are order free, accepted or not. */
  lemma OrderFree(first: Row, second: Row, rules: RowRules)
    requires MetricsConvert(first, rules) && MetricsConvert(second, rules) && CopiesAgree(first, second, rules)
    ensures ConsensusRow(first, second, rules) == ConsensusRow(second, first, rules)
  {
    ComparableSymmetric(first, second, rules);
    if Comparable(first, second, rules) {
      OrderFreeExactly(first, second, rules);
    } else {
      RefusedAlike(first, second, rules);
    }
  }

  lemma RefusedAlike(first: Row, second: Row, rules: RowRules)
    requires !Comparable(first, second, rules)
    ensures ConsensusRow(first, second, rules) == ConsensusRow(second, first, rules)
  {
    if SameIdentity(first, second) {
      EqualSymmetric(Obj(Identity(first)), Obj(Identity(second)));
    }
    if SameIdentity(second, first) {
      EqualSymmetric(Obj(Identity(second)), Obj(Identity(first)));
    }
  }

  lemma FlatRowHasNoPrivateKey(row: Row)
    requires forall f <- row :: !f.Private? && !row[f].Obj? && !row[f].List?
    ensures !HasPrivateKey(row)
  {
    forall f <- FlattenKeys(Obj(row)) ensures f in row {
      if f !in row {
        var k :| k in row && f in FlattenKeys(row[k]);
      }
    }
  }

  /** A sealed row of one measured wait. */
  lemma OneWaitRow(v: Json, rules: RowRules) returns (row: Row)
    requires !v.Obj? && !v.List?
    ensures row == Sealed(map[AcquireWaitMs := v], rules)
    ensures Identity(row) == map[] && HashValid(row, rules) && !HasPrivateKey(row)
  {
    var bare: Row := map[AcquireWaitMs := v];
    row := Sealed(bare, rules);
    assert row - {RowSha256} == bare;
    FlatRowHasNoPrivateKey(row);
  }

  /** For every value whose conversion raises there is a pair whose result depends on
      the order: one row with that wait, and a fast one. */
  lemma OrderCanMatter(rules: RowRules, v: Json) returns (first: Row, second: Row)
    requires !Falsy(v) && rules.convert(v).Fails? && !v.Obj? && !v.List?
    ensures AcquireWaitMs in second && second[AcquireWaitMs] == v
    ensures ConsensusRow(first, second, rules).Ok? && ConsensusRow(second, first, rules) == Err(MetricUnreadable)
  {
    first := OneWaitRow(Float(0.0), rules);
    second := OneWaitRow(v, rules);
    assert SameIdentity(first, second) && SameIdentity(second, first);
    ComparableSymmetric(first, second, rules);
    OutcomeOf(first, second, rules);
    OutcomeOf(second, first, rules);
    assert MetricRaises(second, first, AcquireWaitMs, rules);
  }

  /** A sealed row of one named flat value. */
  lemma OneValueRow(name: string, v: Json, rules: RowRules) returns (row: Row)
    requires NumberOf(v).Some?
    ensures row == Sealed(map[Named(name) := v], rules)
    ensures Identity(row) == map[Named(name) := v] && HashValid(row, rules) && !HasPrivateKey(row) && MetricsConvert(row, rules)
  {
    var bare: Row := map[Named(name) := v];
    row := Sealed(bare, rules);
    assert row - {RowSha256} == bare;
    FlatRowHasNoPrivateKey(row);
  }

  lemma OneValueSame(name: string, first: Row, second: Row, rules: RowRules)
    requires Identity(first) == map[Named(name) := Bool(true)] && Identity(second) == map[Named(name) := Int(1)]
    ensures SameIdentity(first, second)
    ensures Named(name) in first && Named(name) in second && !CopiesAgree(first, second, rules)
  {
    var f := Named(name);
    assert f in Identity(first) && f in Identity(second);
    assert NumberOf(Bool(true)) == Some(Finite(1.0)) == NumberOf(Int(1));
    assert Equal(Identity(first)[f], Identity(second)[f]) && Identity(first).Keys == Identity(second).Keys;
    assert SignalField(f, SignalsOf(first, second, rules)).None? && first[f] != second[f];
  }

  /** A second such pair, of numeric rows: equal identities, one of which says true
      and the other 1. Both orders are accepted and write different rows. */
  lemma KindOfEqualValueMatters(rules: RowRules, name: string) returns (first: Row, second: Row)
    ensures MetricsConvert(first, rules) && MetricsConvert(second, rules)
    ensures ConsensusRow(first, second, rules).Ok? && ConsensusRow(second, first, rules).Ok?
    ensures ConsensusRow(first, second, rules) != ConsensusRow(second, first, rules)
  {
    first := OneValueRow(name, Bool(true), rules);
    second := OneValueRow(name, Int(1), rules);
    OneValueSame(name, first, second, rules);
    BothAccepted(first, second, rules);
  }

  lemma BothAccepted(first: Row, second: Row, rules: RowRules)
    requires Comparable(first, second, rules) && MetricsConvert(first, rules) && MetricsConvert(second, rules)
    ensures ConsensusRow(first, second, rules).Ok? && ConsensusRow(second, first, rules).Ok?
    ensures ConsensusRow(first, second, rules) == ConsensusRow(second, first, rules) <==> CopiesAgree(first, second, rules)
  {
    OutcomeOf(first, second, rules);
    ComparableSymmetric(first, second, rules);
    OutcomeOf(second, first, rules);
    CopiesDecide(first, second, rules);
  }

  /** A canonical row is a fixed point: consensus with itself changes nothing,
      not even its hash. */
  lemma CanonicalRowIsFixed(first: Row, second: Row, rules: RowRules)
    requires ConsensusRow(first, second, rules).Ok?
    ensures var c := ConsensusRow(first, second, rules).value; ConsensusRow(c, c, rules) == Ok(c)
  {
    AcceptedExactlyWhenComparable(first, second, rules);
    ConsensusFromSignals(first, second, rules);
    SealedIsFixed(first, second, rules, CanonicalRow(first, second, rules));
  }

  lemma SealedIsFixed(first: Row, second: Row, rules: RowRules, c: Row)
    requires c == CanonicalRow(first, second, rules) && !HasPrivateKey(first)
    ensures ConsensusRow(c, c, rules) == Ok(c)
  {
    CanonicalIsComparable(first, second, rules);
    SignalsOfCanonical(first, second, rules);
    OutcomeOf(c, c, rules);
    UnhashedIsFixed(Identity(first), SignalsOf(first, second, rules), SignalsOf(c, c, rules), rules);
  }

  lemma UnhashedFixedAt(identity: Row, s: Signals, s': Signals, rules: RowRules, f: Field)
    requires !Dynamic(f) || f !in identity
    requires s' == Signals(s.failed, s.observed, None, None)
    ensures var u := Unhashed(identity, s);
            var v := Unhashed(Identity(Sealed(u, rules)), s');
            (f in u <==> f in v) && (f in u ==> u[f] == v[f])
  {
    UnhashedAt(identity, s, f);
    UnhashedAt(Identity(Sealed(Unhashed(identity, s), rules)), s', f);
  }

  lemma UnhashedIsFixed(identity: Row, s: Signals, s': Signals, rules: RowRules)
    requires forall f <- identity :: !Dynamic(f)
    requires s' == Signals(s.failed, s.observed, None, None)
    ensures Unhashed(Identity(Sealed(Unhashed(identity, s), rules)), s') == Unhashed(identity, s)
  {
    var u := Unhashed(identity, s);
    var v := Unhashed(Identity(Sealed(u, rules)), s');
    forall f: Field ensures (f in u <==> f in v) && (f in u ==> u[f] == v[f]) {
      UnhashedFixedAt(identity, s, s', rules, f);
    }
  }

  lemma SignalsOfCanonical(first: Row, second: Row, rules: RowRules)
    ensures var c, s := CanonicalRow(first, second, rules), SignalsOf(first, second, rules);
            SignalsOf(c, c, rules) == Signals(s.failed, s.observed, None, None) && !AnyMetricRaises(c, c, rules)
  {
    CanonicalAt(first, second, rules, AcquisitionFailed);
    CanonicalAt(first, second, rules, HeartbeatObserved);
    CanonicalAt(first, second, rules, AcquireWaitMs);
    CanonicalAt(first, second, rules, TransactionDurationMs);
  }

  lemma NestedKeyIsKey(row: Row, k: Field, f: Field)
    requires k in row && f in FlattenKeys(row[k])
    ensures f in FlattenKeys(Obj(row))
  {
  }

  /** Every key at any depth of a canonical row that is not one of its own was in the
      first row as well. */
  lemma CanonicalKeys(first: Row, second: Row, rules: RowRules, k: Field, f: Field)
    requires k != RowSha256 && k in CanonicalRow(first, second, rules)
    requires f in FlattenKeys(CanonicalRow(first, second, rules)[k])
    ensures f in FlattenKeys(Obj(first))
  {
    CanonicalAt(first, second, rules, k);
    SignalFieldIsFlat(k, SignalsOf(first, second, rules));
    NestedKeyIsKey(first, k, f);
  }

  lemma CanonicalHasNoPrivateKey(first: Row, second: Row, rules: RowRules, c: Row)
    requires c == CanonicalRow(first, second, rules) && !HasPrivateKey(first)
    ensures !HasPrivateKey(c)
  {
    CanonicalHash(first, second, rules);
    forall f <- FlattenKeys(Obj(c)) ensures !f.Private? {
      if f in c {
        if f != RowSha256 {
          CanonicalAt(first, second, rules, f);
          assert f in first ==> f in FlattenKeys(Obj(first));
        }
      } else {
        var k :| k in c && f in FlattenKeys(c[k]);
        if k != RowSha256 {
          CanonicalKeys(first, second, rules, k, f);
        }
      }
    }
  }

  lemma CanonicalIsComparable(first: Row, second: Row, rules: RowRules)
    requires !HasPrivateKey(first)
    ensures var c := CanonicalRow(first, second, rules); Comparable(c, c, rules)
  {
    var c := CanonicalRow(first, second, rules);
    CanonicalHash(first, second, rules);
    EqualReflexive(Obj(Identity(c)));
    CanonicalHasNoPrivateKey(first, second, rules, c);
  }

  lemma SignalFieldIsFlat(f: Field, s: Signals)
    ensures SignalField(f, s).Some? ==> FlattenKeys(SignalField(f, s).value) == {}
  {
  }

  // ---------------------------------------------------------------- whole files

  function ConsensusLine(first: Line, second: Line, rules: RowRules): Result<Row, PairError> {
    if first.BadLine? || second.BadLine? then Err(RowObjectRequired)
    else ConsensusRow(first.row, second.row, rules)
  }

  /** Pairs the rows of two files one for one, refusing at the first line that has no partner. */
  function ConsensusRows(first: seq<Line>, second: seq<Line>, rules: RowRules): Result<seq<Row>, PairError> {
    if first == [] && second == [] then Ok([])
    else if first == [] || second == [] then Err(RowCountMismatch)
    else
      var row :- ConsensusLine(first[0], second[0], rules);
      var rest :- ConsensusRows(first[1..], second[1..], rules);
      Ok([row] + rest)
  }

  function Canonical(first: seq<Line>, second: seq<Line>, rules: RowRules): Result<seq<Row>, PairError> {
    var rows :- ConsensusRows(first, second, rules);
    if |rows| != EXPECTED_ROWS then Err(RowCountInvalid(|rows|)) else Ok(rows)
  }

  function Lines(rows: seq<Row>): (lines: seq<Line>)
    ensures |lines| == |rows|
  {
    seq(|rows|, i requires 0 <= i < |rows| => RowLine(rows[i]))
  }

  /** The rows a scan writes before it stops. */
  function AcceptedPrefix(first: seq<Line>, second: seq<Line>, rules: RowRules): seq<Row> {
    if first == [] || second == [] || ConsensusLine(first[0], second[0], rules).Err? then []
    else [ConsensusLine(first[0], second[0], rules).value] + AcceptedPrefix(first[1..], second[1..], rules)
  }

  ghost predicate WrittenPrefix(first: seq<Line>, second: seq<Line>, rules: RowRules, written: seq<Row>) {
    && |written| <= |first| && |written| <= |second|
    && forall i | 0 <= i < |written| :: ConsensusLine(first[i], second[i], rules) == Ok(written[i])
  }

  function Prepended(rows: seq<Row>, rest: Result<seq<Row>, PairError>): Result<seq<Row>, PairError> {
    if rest.Ok? then Ok(rows + rest.value) else rest
  }

  lemma FirstPair(xs: seq<Line>, ys: seq<Line>, rules: RowRules, row: Row)
    requires xs != [] && ys != [] && ConsensusLine(xs[0], ys[0], rules) == Ok(row)
    ensures ConsensusRows(xs, ys, rules) == Prepended([row], ConsensusRows(xs[1..], ys[1..], rules))
    ensures AcceptedPrefix(xs, ys, rules) == [row] + AcceptedPrefix(xs[1..], ys[1..], rules)
  {
  }

  lemma PrependedTwice(written: seq<Row>, row: Row, rest: Result<seq<Row>, PairError>, more: seq<Row>)
    ensures Prepended(written, Prepended([row], rest)) == Prepended(written + [row], rest)
    ensures written + ([row] + more) == written + [row] + more
  {
    if rest.Ok? {
      assert written + ([row] + rest.value) == written + [row] + rest.value;
    }
  }

  lemma Tails(first: seq<Line>, second: seq<Line>, n: nat)
    requires n < |first| && n < |second|
    ensures first[n..][0] == first[n] && second[n..][0] == second[n]
    ensures first[n..][1..] == first[n + 1..] && second[n..][1..] == second[n + 1..]
  {
  }

  /** The first n pairs of lines are accepted and written; the rest decides the outcome. */
  predicate Scanned(first: seq<Line>, second: seq<Line>, rules: RowRules, written: seq<Row>, n: nat)
    requires n <= |first| && n <= |second|
  {
    && AcceptedPrefix(first, second, rules) == written + AcceptedPrefix(first[n..], second[n..], rules)
    && ConsensusRows(first, second, rules) == Prepended(written, ConsensusRows(first[n..], second[n..], rules))
  }

  lemma ScanStarts(first: seq<Line>, second: seq<Line>, rules: RowRules)
    ensures Scanned(first, second, rules, [], 0)
  {
    assert first[0..] == first && second[0..] == second;
    var all := ConsensusRows(first, second, rules);
    assert all.Ok? ==> [] + all.value == all.value;
  }

  lemma ScanStep(first: seq<Line>, second: seq<Line>, rules: RowRules, written: seq<Row>, row: Row, n: nat)
    requires n < |first| && n < |second| && Scanned(first, second, rules, written, n)
    requires ConsensusLine(first[n], second[n], rules) == Ok(row)
    ensures Scanned(first, second, rules, written + [row], n + 1)
  {
    Tails(first, second, n);
    FirstPair(first[n..], second[n..], rules, row);
    PrependedTwice(written, row, ConsensusRows(first[n + 1..], second[n + 1..], rules), AcceptedPrefix(first[n + 1..], second[n + 1..], rules));
  }

  /** Where the scan stops, everything is written and the outcome is known. */
  lemma ScanStops(first: seq<Line>, second: seq<Line>, rules: RowRules, written: seq<Row>, n: nat)
    requires n <= |first| && n <= |second| && Scanned(first, second, rules, written, n)
    ensures var all := ConsensusRows(first, second, rules);
            var stops := n == |first| || n == |second| || ConsensusLine(first[n], second[n], rules).Err?;
            && (stops ==> AcceptedPrefix(first, second, rules) == written)
            && (n == |first| && n == |second| ==> all == Ok(written))
            && (n == |first| != |second| || n == |second| != |first| ==> all == Err(RowCountMismatch))
            && (n < |first| && n < |second| && ConsensusLine(first[n], second[n], rules).Err? ==>
                  all == Err(ConsensusLine(first[n], second[n], rules).error))
  {
    if n < |first| && n < |second| {
      Tails(first, second, n);
    }
    assert written + [] == written;
  }

  /** `_canonicalize_pair`: reads the two files in step and appends to the
      destination. `written` is what the destination holds when the loop stops,
      accepted or not. */
  method CanonicalizePair(first: seq<Line>, second: seq<Line>, rules: RowRules)
    returns (written: seq<Row>, outcome: Result<nat, PairError>)
    ensures outcome.Ok? ==> Canonical(first, second, rules) == Ok(written) && outcome.value == EXPECTED_ROWS
    ensures outcome.Err? ==> Canonical(first, second, rules) == Err(outcome.error)
    ensures written == AcceptedPrefix(first, second, rules)
  {
    written := [];
    var count := 0;
    ScanStarts(first, second, rules);
    while true
      invariant 0 <= count == |written| <= |first| && count <= |second|
      invariant Scanned(first, second, rules, written, count)
      decreases |first| - count
    {
      ScanStops(first, second, rules, written, count);
      if count == |first| && count == |second| {
        break;
      }
      if count == |first| || count == |second| {
        return written, Err(RowCountMismatch);
      }
      var row := ConsensusLine(first[count], second[count], rules);
      if row.Err? {
        return written, Err(row.error);
      }
      ScanStep(first, second, rules, written, row.value, count);
      written := written + [row.value];
      count := count + 1;
    }
    if count != EXPECTED_ROWS {
      return written, Err(RowCountInvalid(count));
    }
    outcome := Ok(count);
  }

  /** One for one: a pair of files is accepted exactly when both have the expected
      number of lines and every pair of lines is accepted; the output then holds
      the consensus of each pair, in order. */
  lemma {:induction false} RowsPairOneForOne(first: seq<Line>, second: seq<Line>, rules: RowRules)
    ensures ConsensusRows(first, second, rules).Ok? <==>
            |first| == |second| && forall i | 0 <= i < |first| :: ConsensusLine(first[i], second[i], rules).Ok?
    ensures ConsensusRows(first, second, rules).Ok? ==>
            var rows := ConsensusRows(first, second, rules).value;
            |rows| == |first| == |second| && WrittenPrefix(first, second, rules, rows)
  {
    if first != [] && second != [] {
      RowsPairOneForOne(first[1..], second[1..], rules);
      assert forall i | 1 <= i < |first| :: first[i] == first[1..][i - 1];
      assert forall i | 1 <= i < |second| :: second[i] == second[1..][i - 1];
    }
  }

  /** Files whose line pairs are order free canonicalize to the same file either way round. */
  lemma {:induction false} CanonicalOrderFree(first: seq<Line>, second: seq<Line>, rules: RowRules)
    requires forall i | 0 <= i < |first| && i < |second| :: ConsensusLine(first[i], second[i], rules) == ConsensusLine(second[i], first[i], rules)
    ensures ConsensusRows(first, second, rules) == ConsensusRows(second, first, rules)
    ensures Canonical(first, second, rules) == Canonical(second, first, rules)
  {
    if first != [] && second != [] {
      assert ConsensusLine(first[0], second[0], rules) == ConsensusLine(second[0], first[0], rules);
      forall i | 0 <= i < |first[1..]| && i < |second[1..]|
        ensures ConsensusLine(first[1..][i], second[1..][i], rules) == ConsensusLine(second[1..][i], first[1..][i], rules)
      {
        assert first[1..][i] == first[i + 1] && second[1..][i] == second[i + 1];
      }
      CanonicalOrderFree(first[1..], second[1..], rules);
    }
  }

  /** Two lines as two runs of one harness write them: numeric metrics, and copied
      values of one kind. */
  predicate LikeHarness(first: Line, second: Line, rules: RowRules) {
    first.RowLine? && second.RowLine? ==>
      MetricsConvert(first.row, rules) && MetricsConvert(second.row, rules) && CopiesAgree(first.row, second.row, rules)
  }

  lemma HarnessFilesOrderFree(first: seq<Line>, second: seq<Line>, rules: RowRules)
    requires forall i | 0 <= i < |first| && i < |second| :: LikeHarness(first[i], second[i], rules)
    ensures Canonical(first, second, rules) == Canonical(second, first, rules)
  {
    forall i | 0 <= i < |first| && i < |second|
      ensures ConsensusLine(first[i], second[i], rules) == ConsensusLine(second[i], first[i], rules)
    {
      assert LikeHarness(first[i], second[i], rules);
      if first[i].RowLine? && second[i].RowLine? {
        OrderFree(first[i].row, second[i].row, rules);
      }
    }
    CanonicalOrderFree(first, second, rules);
  }

  /** On success everything the scan wrote is the whole result. */
  lemma {:induction false} AcceptedPrefixIsWhole(first: seq<Line>, second: seq<Line>, rules: RowRules)
    requires ConsensusRows(first, second, rules).Ok?
    ensures AcceptedPrefix(first, second, rules) == ConsensusRows(first, second, rules).value
  {
    if first != [] {
      AcceptedPrefixIsWhole(first[1..], second[1..], rules);
    }
  }

  /** Only files of exactly the expected length, without a broken line, are accepted. */
  lemma CanonicalNeedsWholeFiles(first: seq<Line>, second: seq<Line>, rules: RowRules)
    requires Canonical(first, second, rules).Ok?
    ensures |first| == |second| == EXPECTED_ROWS == |Canonical(first, second, rules).value|
    ensures BadLine !in first && BadLine !in second
  {
    RowsPairOneForOne(first, second, rules);
  }

  /** A canonical file canonicalizes to itself. */
  lemma CanonicalFileIsFixed(first: seq<Line>, second: seq<Line>, rules: RowRules)
    requires Canonical(first, second, rules).Ok?
    ensures var rows := Canonical(first, second, rules).value; Canonical(Lines(rows), Lines(rows), rules) == Ok(rows)
  {
    RowsPairOneForOne(first, second, rules);
    var rows := Canonical(first, second, rules).value;
    forall i | 0 <= i < |rows| ensures ConsensusRow(rows[i], rows[i], rules) == Ok(rows[i]) {
      CanonicalRowIsFixed(first[i].row, second[i].row, rules);
    }
    FixedRowsStay(rows, rules);
  }

  /** Rows that are their own consensus make a file that is. */
  lemma FixedRowsStay(rows: seq<Row>, rules: RowRules)
    requires forall i | 0 <= i < |rows| :: ConsensusRow(rows[i], rows[i], rules) == Ok(rows[i])
    ensures ConsensusRows(Lines(rows), Lines(rows), rules) == Ok(rows)
  {
    var lines := Lines(rows);
    forall i | 0 <= i < |lines| ensures ConsensusLine(lines[i], lines[i], rules) == Ok(rows[i]) {
      assert lines[i] == RowLine(rows[i]);
    }
    RowsPairOneForOne(lines, lines, rules);
    var again := ConsensusRows(lines, lines, rules).value;
    forall i | 0 <= i < |rows| ensures again[i] == rows[i] {
      assert ConsensusLine(lines[i], lines[i], rules) == Ok(again[i]);
    }
    assert again == rows;
  }
}
