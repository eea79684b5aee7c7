/** Whole histories of one pair under one program: no measurement is ever lost, and
    at most one version other than the original is ever visible. */
module PairHistory {
  import opened Outcomes
  import opened Consensus
  import opened PairPlan
  import opened PairSafety
  import opened PairRecovery
  import opened PairEvidence

  // ---------------------------------------------------------------- one uninterrupted run

  /** A fresh run that succeeds goes on from the last marker like a resumed one. */
  lemma FreshRunEnds(d: Disk, q: Request, c: Disk, e: Disk, z: Disk)
    requires !Marked(d) && Run(d, q).ok
    requires c == ApplyAll(d, CleanupOps(q.first)) && e == ApplyAll(c, StageAll(c, q).ops) && z == ApplyAll(e, MarkerOps(q.first))
    ensures q.independent && StageAll(c, q).ok && Commit(z, q).ok
    ensures ApplyAll(d, Run(d, q).ops) == ApplyAll(z, Commit(z, q).ops)
  {
    var p1 := Plan(CleanupOps(q.first), true);
    var p2 := Then(p1, StageAll(c, q));
    ThenEnds(d, p1, StageAll(c, q), c);
    var p3 := Then(p2, Plan(MarkerOps(q.first), true));
    ThenEnds(d, p2, Plan(MarkerOps(q.first), true), e);
    ThenEnds(d, p3, Commit(z, q), z);
  }

  /** The disk right after the last marker of a fresh run was written. */
  lemma FreshRunMarks(d: Disk, q: Request, c: Disk, e: Disk, z: Disk)
    requires !Marked(d)
    requires c == ApplyAll(d, CleanupOps(q.first)) && e == ApplyAll(c, StageAll(c, q).ops) && z == ApplyAll(e, MarkerOps(q.first))
    ensures Marked(z) && MarkersName(z, q.first) && Targets(z) == Targets(d) && Stages(z) == Stages(e)
    ensures forall p: Path | Kept(p.file) :: At(z, p) == At(e, p)
  {
    EndIsCrashState(d, CleanupOps(q.first));
    CleanupPhase(d, q.first, c);
    EndIsCrashState(c, StageAll(c, q).ops);
    StageAllIsScratch(c, q);
    ScratchPhase(c, StageAll(c, q).ops, e);
    EndIsCrashState(e, MarkerOps(q.first));
    UnmarkedNamesAnything(e, q.first);
    MarkerPhase(e, q.first, z);
    MarkersKeepKept(e, q.first, z);
  }

  lemma UnmarkedNamesAnything(e: Disk, first: Side)
    requires !Marked(e)
    ensures MarkersName(e, first)
  {
    forall s: Side ensures Path(s, Marker) !in e {
      assert s == A || s == B;
    }
  }

  lemma MarkersKeepKept(e: Disk, first: Side, z: Disk)
    requires CrashState(e, MarkerOps(first), z)
    ensures forall p: Path | Kept(p.file) :: At(z, p) == At(e, p)
  {
    forall p: Path | Kept(p.file) ensures At(z, p) == At(e, p) {
      MarkerOpsTouch(first, p);
      CrashFrame(e, MarkerOps(first), z, p);
    }
  }

  /** A run that succeeds leaves a clean pair whose recorded hashes all fit, with
      the same public telemetry and the same manifest in both directories. */
  lemma FinalizedPairVerifies(d: Disk, q: Request)
    requires !Marked(d) && Run(d, q).ok
    requires ManifestAt(d, Path(q.first, Target(Manifest))).Some? ==>
               StableNames(ManifestAt(d, Path(q.first, Target(Manifest))).value)
    ensures FinishedPair(ApplyAll(d, Run(d, q).ops), q.sha)
  {
    var c := ApplyAll(d, CleanupOps(q.first));
    var e := ApplyAll(c, StageAll(c, q).ops);
    var z := ApplyAll(e, MarkerOps(q.first));
    FreshRunEnds(d, q, c, e, z);
    FreshRunMarks(d, q, c, e, z);
    CleanedManifest(d, q.first, c);
    FreshSetFinishes(c, e, z, q);
  }

  lemma CleanedManifest(d: Disk, first: Side, c: Disk)
    requires c == ApplyAll(d, CleanupOps(first))
    ensures ManifestAt(c, Path(first, Target(Manifest))) == ManifestAt(d, Path(first, Target(Manifest)))
  {
    EndIsCrashState(d, CleanupOps(first));
    CleanupPhase(d, first, c);
    CellsAreFiles(d, Job(first, Manifest));
    CellsAreFiles(c, Job(first, Manifest));
  }

  lemma FreshSetFinishes(c: Disk, e: Disk, z: Disk, q: Request)
    requires StageAll(c, q).ok && e == ApplyAll(c, StageAll(c, q).ops)
    requires ManifestAt(c, Path(q.first, Target(Manifest))).Some? ==>
               StableNames(ManifestAt(c, Path(q.first, Target(Manifest))).value)
    requires Marked(z) && MarkersName(z, q.first) && Stages(z) == Stages(e)
    requires forall p: Path | Kept(p.file) :: At(z, p) == At(e, p)
    requires q.independent && Commit(z, q).ok
    ensures FinishedPair(ApplyAll(z, Commit(z, q).ops), q.sha)
  {
    var x, rows, m, e' := StagedFacts(c, q);
    MarkedSetFinishes(e, z, q, rows, m);
  }

  /** Clean directories with the same public telemetry and manifest, whose recorded
      hashes all fit. */
  ghost predicate FinishedPair(f: Disk, sha: Content -> Hash) {
    && Clean(f)
    && HashesVerify(f, A, sha) && HashesVerify(f, B, sha)
    && At(f, Path(A, Target(PublicTelemetry))) == At(f, Path(B, Target(PublicTelemetry)))
    && At(f, Path(A, Target(Manifest))) == At(f, Path(B, Target(Manifest)))
  }

  /** Finishing a marked, complete set of stages. */
  lemma MarkedSetFinishes(e: Disk, z: Disk, q: Request, rows: seq<Row>, m: ManifestData)
    requires StagedSet(e, q.sha, rows, m)
    requires StableNames(m) && m.rawAttestation == Some(RawAttestation) && m.rawMeasured == Some(RawMeasured)
    requires Marked(z) && MarkersName(z, q.first) && Stages(z) == Stages(e)
    requires forall p: Path | Kept(p.file) :: At(z, p) == At(e, p)
    requires q.independent && Commit(z, q).ok
    ensures FinishedPair(ApplyAll(z, Commit(z, q).ops), q.sha)
  {
    assert Stages(z).a.publicTelemetry == Stages(z).b.publicTelemetry && Stages(z).a.manifest == Stages(z).b.manifest;
    MixedWithOld(Targets(z), Stages(z));
    assert AllStaged(z) && Promoting(z, Targets(z), Stages(z));
    assert Run(z, q) == Commit(z, q);
    ResumeCompletes(z, q.first, Targets(z), Stages(z), q);
    var f := ApplyAll(z, Commit(z, q).ops);
    PromotedSetVerifies(e, f, q.sha, rows, m, A);
    PromotedSetVerifies(e, f, q.sha, rows, m, B);
  }

  // ---------------------------------------------------------------- staging does not depend on when it happens

  /** Two disks give staging the same inputs. */
  ghost predicate SameSources(c: Disk, c': Disk) {
    && (forall s: Side :: Measured(c, s) == Measured(c', s))
    && (forall p: Path | p.file.Plain? || p.file.RawAttestation? :: At(c, p) == At(c', p))
  }

  /** The two measurements canonicalize to the same file either way round. */
  predicate SwapFree(d: Disk, rules: RowRules) {
    Measured(d, A).Some? && Measured(d, B).Some? ==>
      var x, y := LinesOf(Measured(d, A).value), LinesOf(Measured(d, B).value);
      Canonical(x, y, rules) == Canonical(y, x, rules)
  }

  /** Measurements as two runs of the harness write them are swap free. */
  lemma HarnessMeasurementsSwap(d: Disk, rules: RowRules)
    requires Measured(d, A).Some? && Measured(d, B).Some?
    requires var x, y := LinesOf(Measured(d, A).value), LinesOf(Measured(d, B).value);
             forall i | 0 <= i < |x| && i < |y| :: LikeHarness(x[i], y[i], rules)
    ensures SwapFree(d, rules)
  {
    HarnessFilesOrderFree(LinesOf(Measured(d, A).value), LinesOf(Measured(d, B).value), rules);
  }

  /** Staging does not depend on when it happens, nor on the order of the directories. */
  lemma StagingIsDetermined(c: Disk, c': Disk, q: Request, q': Request, r: ManifestData)
    requires StageAll(c, q).ok && StageAll(c', q').ok
    requires q.sha == q'.sha && q.rules == q'.rules && (q.first == q'.first || SwapFree(c, q.rules))
    requires SameSources(c, c') && StableNames(r)
    requires forall m | ManifestAt(c, Path(q.first, Target(Manifest))) == Some(m) :: SameRecipe(m, r)
    requires forall m | ManifestAt(c', Path(q'.first, Target(Manifest))) == Some(m) :: SameRecipe(m, r)
    ensures Stages(ApplyAll(c, StageAll(c, q).ops)) == Stages(ApplyAll(c', StageAll(c', q').ops))
  {
    var x, rows, m, e := StagedFacts(c, q);
    var x', rows', m', e' := StagedFacts(c', q');
    FinalizedAgree(x, x', m, m', r);
    SameRows(c, c', q, q', e, e', rows, rows');
    SetsAgree(c, c', q, q', e, e', rows, m, m');
  }

  /** Two derived manifests of one recipe differ in their recorded hashes at most. */
  predicate AlikeManifests(m: ManifestData, m': ManifestData) {
    StableNames(m) && m == Finalized(m', m.artifactHashes) && m' == Finalized(m, m'.artifactHashes)
  }

  lemma FinalizedAgree(x: ManifestData, x': ManifestData, m: ManifestData, m': ManifestData, r: ManifestData)
    requires SameRecipe(x, r) && SameRecipe(x', r) && StableNames(r)
    requires m == Finalized(x, m.artifactHashes) && m' == Finalized(x', m'.artifactHashes)
    ensures AlikeManifests(m, m')
  {
  }

  lemma SetsAgree(c: Disk, c': Disk, q: Request, q': Request, e: Disk, e': Disk,
                  rows: seq<Row>, m: ManifestData, m': ManifestData)
    requires q.sha == q'.sha && SameSources(c, c') && AlikeManifests(m, m')
    requires StagedSet(e, q.sha, rows, m) && StagedMeasurements(c, q, e, rows)
    requires StagedSet(e', q.sha, rows, m') && StagedMeasurements(c', q', e', rows)
    ensures Stages(e) == Stages(e')
  {
    forall p: Path | Kept(p.file) ensures At(e, p) == At(e', p) {
      assert p == Path(p.side, RawMeasured) || (At(e, p) == At(c, p) && At(e', p) == At(c', p));
    }
    SidesAgree(e, e', A, q.sha, rows, m, m');
    SidesAgree(e, e', B, q.sha, rows, m, m');
  }

  lemma SameRows(c: Disk, c': Disk, q: Request, q': Request, e: Disk, e': Disk, rows: seq<Row>, rows': seq<Row>)
    requires q.rules == q'.rules && (q.first == q'.first || SwapFree(c, q.rules))
    requires SameSources(c, c') && StagedMeasurements(c, q, e, rows) && StagedMeasurements(c', q', e', rows')
    ensures rows == rows'
  {
    if q.first != q'.first {
      assert (q.first == A && q'.first == B) || (q.first == B && q'.first == A);
      assert Measured(c, A) == Measured(c', A) && Measured(c, B) == Measured(c', B);
    }
  }

  lemma SidesAgree(e: Disk, e': Disk, s: Side, sha: Content -> Hash, rows: seq<Row>, m: ManifestData, m': ManifestData)
    requires StagedSide(e, s, sha, rows, m) && StagedSide(e', s, sha, rows, m')
    requires AlikeManifests(m, m')
    requires forall p: Path | Kept(p.file) :: At(e, p) == At(e', p)
    ensures StagesOf(e, s) == StagesOf(e', s)
  {
    HashEntriesFrame(e, e', s, s, m.hashed, sha);
    assert m == m';
    ProvenanceSourcesStay(m);
    ProvenanceFrame(e, e', s, m, sha);
  }

  // ---------------------------------------------------------------- measurements survive

  /** A raw copy no consensus accepts. */
  predicate BadRaw(c: Content) {
    |LinesOf(c)| != EXPECTED_ROWS || BadLine in LinesOf(c)
  }

  /** An interrupted raw copy is always refused later exactly when the measured
      file is no longer than the expected number of rows (given that its leading
      rows are not broken themselves). */
  lemma TornRawIsRefused(full: Content)
    requires full.Telemetry? ==> BadLine !in full.lines
    ensures |LinesOf(full)| <= EXPECTED_ROWS <==> forall torn | TornContent(full, torn) :: BadRaw(torn)
  {
    forall torn | TornContent(full, torn) && |LinesOf(full)| <= EXPECTED_ROWS ensures BadRaw(torn) {
      TornIsBad(full, torn);
    }
    if |LinesOf(full)| > EXPECTED_ROWS {
      var torn := Telemetry(full.lines[..EXPECTED_ROWS]);
      assert LeadingLines(full.lines, torn.lines, EXPECTED_ROWS);
      assert TornContent(full, torn) && !BadRaw(torn);
    }
  }

  lemma TornIsBad(full: Content, torn: Content)
    requires TornContent(full, torn) && |LinesOf(full)| <= EXPECTED_ROWS
    ensures BadRaw(torn)
  {
    if full.Telemetry? {
      var k: nat :| k < |full.lines| && LeadingLines(full.lines, torn.lines, k);
      if torn.lines == full.lines[..k] + [BadLine] {
        assert torn.lines[k] == BadLine;
      }
    } else {
      assert LinesOf(torn)[0] == BadLine;
    }
  }

  predicate Complete(d: Disk, d0: Disk, s: Side) {
    Path(s, RawMeasured) in d && At(d, Path(s, RawMeasured)) == Measured(d0, s)
  }

  /** The raw copy of one directory is missing, whole, or torn beyond use; one that
      was there from the beginning is unchanged. */
  predicate RawOk(d: Disk, d0: Disk, s: Side) {
    && (Path(s, RawMeasured) in d ==> Complete(d, d0, s) || BadRaw(d[Path(s, RawMeasured)]))
    && (Path(s, RawMeasured) in d0 ==> At(d, Path(s, RawMeasured)) == At(d0, Path(s, RawMeasured)))
  }

  /** Until both raw copies are whole, the promoted files are the original ones. */
  predicate RawInv(d: Disk, d0: Disk) {
    && RawOk(d, d0, A) && RawOk(d, d0, B)
    && ((Complete(d, d0, A) && Complete(d, d0, B)) || (!Marked(d) && Targets(d) == Targets(d0)))
  }

  /** The measured bytes of a directory are in its raw copy or still in its public file. */
  predicate Survives(d: Disk, d0: Disk, s: Side) {
    At(d, Path(s, RawMeasured)) == Measured(d0, s) || At(d, Path(s, Target(PublicTelemetry))) == Measured(d0, s)
  }

  lemma RawInvKeepsMeasurement(d: Disk, d0: Disk, s: Side)
    requires RawInv(d, d0)
    ensures Survives(d, d0, s)
  {
    CellsAreFiles(d, Job(s, PublicTelemetry));
    CellsAreFiles(d0, Job(s, PublicTelemetry));
    assert RawOk(d, d0, s);
  }

  predicate NotTooLong(d0: Disk) {
    forall s: Side | Measured(d0, s).Some? :: |LinesOf(Measured(d0, s).value)| <= EXPECTED_ROWS
  }

  /** The only operation of staging that writes a raw copy copies the public file,
      and it is there only if there was no raw copy. */
  predicate RawRule(ops: seq<Op>, present: bool, s: Side) {
    forall op <- ops :: Touches(op, Path(s, RawMeasured)) ==>
      !present && op == Copy(Path(s, Target(PublicTelemetry)), Path(s, RawMeasured))
  }

  lemma RawRuleThen(a: Plan, b: Plan, present: bool, s: Side)
    requires RawRule(a.ops, present, s) && RawRule(b.ops, present, s)
    ensures RawRule(Then(a, b).ops, present, s)
  {
  }

  lemma MeasureBothRawRule(d: Disk, first: Side, s: Side)
    ensures RawRule(MeasureBoth(d, first).ops, Path(s, RawMeasured) in d, s)
  {
    var present := Path(s, RawMeasured) in d;
    var one := Measure(d, first);
    var d1 := ApplyAll(d, one.ops);
    if one.ok {
      MeasureOne(d, first);
    }
    assert At(d1, Path(Other(first), RawMeasured)) == At(d, Path(Other(first), RawMeasured));
    RawRuleThen(one, Measure(d1, Other(first)), present, s);
  }

  predicate StagesOnly(ops: seq<Op>) {
    forall op <- ops :: (op.Write? || op.Copy?) && op.to.file.Stage?
  }

  lemma LaterPartsStageOnly(d: Disk, q: Request, x: ManifestData, y: ManifestData)
    ensures StagesOnly(StagePublic(d, q).ops)
    ensures StagesOnly(StageManifests(d, q, x, y).ops)
  {
  }

  lemma ProvenancesStageOnly(d: Disk, q: Request)
    ensures StagesOnly(StageProvenances(d, q).ops)
  {
  }

  lemma StageAllRawRule(d: Disk, q: Request, s: Side)
    ensures RawRule(StageAll(d, q).ops, Path(s, RawMeasured) in d, s)
  {
    var present := Path(s, RawMeasured) in d;
    var x, y := ManifestAt(d, Path(q.first, Target(Manifest))), ManifestAt(d, Path(Other(q.first), Target(Manifest)));
    if x.Some? && y.Some? {
      var p1 := MeasureBoth(d, q.first);
      MeasureBothRawRule(d, q.first, s);
      var d1 := ApplyAll(d, p1.ops);
      LaterPartsStageOnly(d1, q, x.value, y.value);
      RawRuleThen(p1, StagePublic(d1, q), present, s);
      var p2 := Then(p1, StagePublic(d1, q));
      var d2 := ApplyAll(d, p2.ops);
      LaterPartsStageOnly(d2, q, x.value, y.value);
      RawRuleThen(p2, StageManifests(d2, q, x.value, y.value), present, s);
      var p3 := Then(p2, StageManifests(d2, q, x.value, y.value));
      ProvenancesStageOnly(ApplyAll(d, p3.ops), q);
      RawRuleThen(p3, StageProvenances(ApplyAll(d, p3.ops), q), present, s);
    }
  }

  /** A file that is only ever written as a copy of another one holds its old
      content, that content, or a torn copy of it. */
  lemma {:induction false} CopiedFile(d: Disk, ops: seq<Op>, d': Disk, src: Path, p: Path)
    requires CrashState(d, ops, d') && src != p && Untouched(ops, src)
    requires forall op <- ops :: Touches(op, p) ==> op == Copy(src, p)
    ensures At(d', p) == At(d, p) || (src in d && p in d' && (d'[p] == d[src] || TornContent(d[src], d'[p])))
    decreases |ops|
  {
    if d' != d {
      var d1 := Apply(d, ops[0]);
      assert !Touches(ops[0], src);
      assert At(d1, src) == At(d, src);
      assert src in d1 <==> src in d;
      assert Touches(ops[0], p) ==> At(d1, p) == if src in d then Some(d[src]) else At(d, p);
      assert p in d' <==> At(d', p).Some?;
      if !Torn(d, ops[0], d') {
        CopiedFile(d1, ops[1..], d', src, p);
      }
    }
  }

  lemma StagingKeepsRaw(d: Disk, d0: Disk, q: Request, d': Disk, s: Side)
    requires RawOk(d, d0, s) && Targets(d) == Targets(d0) && NotTooLong(d0)
    requires CrashState(d, StageAll(d, q).ops, d')
    ensures RawOk(d', d0, s)
  {
    var ops, src, raw := StageAll(d, q).ops, Path(s, Target(PublicTelemetry)), Path(s, RawMeasured);
    StageAllRawRule(d, q, s);
    StageAllIsScratch(d, q);
    if raw in d {
      CrashFrame(d, ops, d', raw);
      assert raw in d' && d'[raw] == d[raw];
    } else {
      CopiedFile(d, ops, d', src, raw);
      CellsAreFiles(d, Job(s, PublicTelemetry));
      CellsAreFiles(d0, Job(s, PublicTelemetry));
      assert At(d, raw) == None;
      if raw in d' {
        assert Measured(d0, s) == At(d0, src) == At(d, src);
        if d'[raw] != d[src] {
          TornIsBad(d[src], d'[raw]);
        }
      }
    }
  }

  /** When staging succeeds the raw copies are whole: a bad one would have been refused. */
  lemma StagedRawIsComplete(d: Disk, d0: Disk, q: Request)
    requires RawInv(d, d0) && StageAll(d, q).ok
    ensures var e := ApplyAll(d, StageAll(d, q).ops); Complete(e, d0, A) && Complete(e, d0, B)
    ensures forall s: Side :: Measured(d, s) == Measured(d0, s)
  {
    StagingStarts(d, q);
    var x, y := ManifestAt(d, Path(q.first, Target(Manifest))).value, ManifestAt(d, Path(Other(q.first), Target(Manifest))).value;
    var d1 := ApplyAll(d, MeasureBoth(d, q.first).ops);
    var d2 := ApplyAll(d1, StagePublic(d1, q).ops);
    var d3 := ApplyAll(d2, StageManifests(d2, q, x, y).ops);
    var e := ApplyAll(d3, StageProvenances(d3, q).ops);
    StagingPath(d, q, x, y, d1, d2, d3);
    RawThroughStaging(d, d0, q, x, y, d1, d2, d3, e);
  }

  lemma RawThroughStaging(d: Disk, d0: Disk, q: Request, x: ManifestData, y: ManifestData, d1: Disk, d2: Disk, d3: Disk, e: Disk)
    requires RawInv(d, d0)
    requires MeasureBoth(d, q.first).ok && d1 == ApplyAll(d, MeasureBoth(d, q.first).ops)
    requires StagePublic(d1, q).ok && d2 == ApplyAll(d1, StagePublic(d1, q).ops)
    requires d3 == ApplyAll(d2, StageManifests(d2, q, x, y).ops) && e == ApplyAll(d3, StageProvenances(d3, q).ops)
    ensures Complete(e, d0, A) && Complete(e, d0, B)
    ensures forall s: Side :: Measured(d, s) == Measured(d0, s)
  {
    var rows := StagedHead(d, q, d1, d2);
    CanonicalNeedsWholeFiles(LinesOf(Measured(d, q.first).value), LinesOf(Measured(d, Other(q.first)).value), q.rules);
    UsedRawIsOriginal(d, d0, q.first);
    UsedRawIsOriginal(d, d0, Other(q.first));
    LaterStagesKeepRaw(q, x, y, d2, d3, e, A);
    LaterStagesKeepRaw(q, x, y, d2, d3, e, B);
    assert q.first == A || q.first == B;
    assert At(e, Path(A, RawMeasured)) == Measured(d, A) && At(e, Path(B, RawMeasured)) == Measured(d, B);
    forall s: Side ensures Measured(d, s) == Measured(d0, s) {
      assert s == q.first || s == Other(q.first);
    }
  }

  /** A measurement that a consensus can use is the original one. */
  lemma UsedRawIsOriginal(d: Disk, d0: Disk, s: Side)
    requires RawInv(d, d0)
    requires Measured(d, s).Some? && !BadRaw(Measured(d, s).value)
    ensures Measured(d, s) == Measured(d0, s)
  {
    assert RawOk(d, d0, s);
    CellsAreFiles(d, Job(s, PublicTelemetry));
    CellsAreFiles(d0, Job(s, PublicTelemetry));
    assert Path(s, RawMeasured) in d <==> At(d, Path(s, RawMeasured)).Some?;
    assert Path(s, RawMeasured) in d0 <==> At(d0, Path(s, RawMeasured)).Some?;
  }

  lemma LaterStagesKeepRaw(q: Request, x: ManifestData, y: ManifestData, d2: Disk, d3: Disk, e: Disk, s: Side)
    requires d3 == ApplyAll(d2, StageManifests(d2, q, x, y).ops)
    requires e == ApplyAll(d3, StageProvenances(d3, q).ops)
    ensures At(e, Path(s, RawMeasured)) == At(d2, Path(s, RawMeasured))
  {
    LaterPartsStageOnly(d2, q, x, y);
    ProvenancesStageOnly(d3, q);
    EndIsCrashState(d2, StageManifests(d2, q, x, y).ops);
    EndIsCrashState(d3, StageProvenances(d3, q).ops);
    CrashFrame(d2, StageManifests(d2, q, x, y).ops, d3, Path(s, RawMeasured));
    CrashFrame(d3, StageProvenances(d3, q).ops, e, Path(s, RawMeasured));
  }

  /** The disks a fresh run passes through: cleaned, staged, marked. */
  function Cleaned(d: Disk, q: Request): Disk {
    ApplyAll(d, CleanupOps(q.first))
  }

  function StagedDisk(d: Disk, q: Request): Disk {
    ApplyAll(Cleaned(d, q), StageAll(Cleaned(d, q), q).ops)
  }

  function MarkedDisk(d: Disk, q: Request): Disk {
    ApplyAll(StagedDisk(d, q), MarkerOps(q.first))
  }

  /** Where an interruption can hit a fresh run. */
  lemma FreshRunCases(d: Disk, q: Request, d': Disk)
    requires q.independent && !Marked(d) && CrashState(d, Run(d, q).ops, d')
    ensures || CrashState(d, CleanupOps(q.first), d')
            || CrashState(Cleaned(d, q), StageAll(Cleaned(d, q), q).ops, d')
            || (StageAll(Cleaned(d, q), q).ok &&
                (CrashState(StagedDisk(d, q), MarkerOps(q.first), d')
                 || CrashState(MarkedDisk(d, q), Commit(MarkedDisk(d, q), q).ops, d')))
  {
    var cl, m := CleanupOps(q.first), MarkerOps(q.first);
    var st := StageAll(Cleaned(d, q), q);
    ApplyAllAppend(d, cl, st.ops);
    if st.ok {
      ApplyAllAppend(d, cl + st.ops, m);
      CrashSplit(d, cl + st.ops + m, Commit(MarkedDisk(d, q), q).ops, d');
      if CrashState(d, cl + st.ops + m, d') {
        CrashSplit(d, cl + st.ops, m, d');
      }
    }
    if CrashState(d, cl + st.ops, d') {
      CrashSplit(d, cl, st.ops, d');
    }
  }

  lemma ThreeStages(d2: Disk, d3: Disk, e: Disk)
    requires forall s: Side :: At(d2, Path(s, Stage(PublicTelemetry))).Some?
    requires forall s: Side :: At(d3, Path(s, Stage(Manifest))).Some?
    requires forall s: Side :: At(e, Path(s, Stage(Provenance))).Some?
    requires forall p: Path | p.file != Stage(Manifest) :: At(d3, p) == At(d2, p)
    requires forall p: Path | p.file != Stage(Provenance) :: At(e, p) == At(d3, p)
    ensures AllStaged(e)
  {
    forall s: Side, a: Artifact ensures Path(s, Stage(a)) in e {
      match a
      case PublicTelemetry =>
        assert At(e, Path(s, Stage(a))) == At(d3, Path(s, Stage(a))) == At(d2, Path(s, Stage(a)));
      case Manifest =>
        assert At(e, Path(s, Stage(a))) == At(d3, Path(s, Stage(a)));
      case Provenance =>
        assert At(e, Path(s, Stage(a))).Some?;
    }
  }

  lemma StagesFollow(d1: Disk, d2: Disk, d3: Disk, e: Disk, q: Request, x: ManifestData, y: ManifestData)
    requires StagePublic(d1, q).ok && d2 == ApplyAll(d1, StagePublic(d1, q).ops)
    requires StageManifests(d2, q, x, y).ok && d3 == ApplyAll(d2, StageManifests(d2, q, x, y).ops)
    requires StageProvenances(d3, q).ok && e == ApplyAll(d3, StageProvenances(d3, q).ops)
    ensures AllStaged(e)
  {
    var rows := PublicFacts(d1, q);
    var m := ManifestFacts(d2, q, x, y);
    ProvenanceFacts(d3, q, m);
    ThreeStages(d2, d3, e);
  }

  /** A completed staging leaves all six stages. */
  lemma StagingIsComplete(c: Disk, q: Request)
    requires StageAll(c, q).ok
    ensures AllStaged(ApplyAll(c, StageAll(c, q).ops))
  {
    StagingStarts(c, q);
    var x, y := ManifestAt(c, Path(q.first, Target(Manifest))).value, ManifestAt(c, Path(Other(q.first), Target(Manifest))).value;
    var d1 := ApplyAll(c, MeasureBoth(c, q.first).ops);
    var d2 := ApplyAll(d1, StagePublic(d1, q).ops);
    var d3 := ApplyAll(d2, StageManifests(d2, q, x, y).ops);
    var e := ApplyAll(d3, StageProvenances(d3, q).ops);
    StagingPath(c, q, x, y, d1, d2, d3);
    StagesFollow(d1, d2, d3, e, q, x, y);
  }

  lemma MarkedIsRecoverable(e: Disk, first: Side, d': Disk)
    requires !Marked(e) && AllStaged(e) && CrashState(e, MarkerOps(first), d') && Marked(d')
    ensures Recoverable(d', first, Targets(e), Stages(e))
  {
    UnmarkedNamesAnything(e, first);
    MarkerPhase(e, first, d');
    MixedWithOld(Targets(e), Stages(e));
  }

  lemma StagedDiskIsUnmarked(d: Disk, q: Request)
    requires !Marked(d)
    ensures !Marked(Cleaned(d, q)) && !Marked(StagedDisk(d, q)) && Targets(StagedDisk(d, q)) == Targets(d)
  {
    var c := Cleaned(d, q);
    EndIsCrashState(d, CleanupOps(q.first));
    CleanupPhase(d, q.first, c);
    StageAllIsScratch(c, q);
    EndIsCrashState(c, StageAll(c, q).ops);
    ScratchPhase(c, StageAll(c, q).ops, StagedDisk(d, q));
  }

  lemma UnmarkedPhases(d: Disk, q: Request, d': Disk)
    requires !Marked(d)
    requires CrashState(d, CleanupOps(q.first), d') || CrashState(Cleaned(d, q), StageAll(Cleaned(d, q), q).ops, d')
    ensures !Marked(d')
  {
    StagedDiskIsUnmarked(d, q);
    if CrashState(d, CleanupOps(q.first), d') {
      CleanupPhase(d, q.first, d');
    } else {
      StageAllIsScratch(Cleaned(d, q), q);
      ScratchPhase(Cleaned(d, q), StageAll(Cleaned(d, q), q).ops, d');
    }
  }

  /** Whenever an interrupted run leaves a marker, every stage is complete: what it
      staged is pending, on top of the files it found, or has already arrived. */
  lemma MarkerMeansRecoverable(d: Disk, q: Request, d': Disk)
    requires !Marked(d) && CrashState(d, Run(d, q).ops, d') && Marked(d')
    ensures StagedVersion(d, q).Some?
    ensures var v := StagedVersion(d, q).value;
            Recoverable(d', q.first, Targets(d), v) || Arrived(d', v)
  {
    if q.independent {
      FreshRunCases(d, q, d');
      if CrashState(d, CleanupOps(q.first), d') || CrashState(Cleaned(d, q), StageAll(Cleaned(d, q), q).ops, d') {
        UnmarkedPhases(d, q, d');
        assert false;
      }
      var e, z := StagedDisk(d, q), MarkedDisk(d, q);
      StagedDiskIsUnmarked(d, q);
      StagingIsComplete(Cleaned(d, q), q);
      if CrashState(e, MarkerOps(q.first), d') {
        MarkedIsRecoverable(e, q.first, d');
      } else {
        CommitIsRecoverable(e, z, q, d');
      }
    }
  }

  lemma CommitIsRecoverable(e: Disk, z: Disk, q: Request, d': Disk)
    requires !Marked(e) && AllStaged(e) && q.independent && z == ApplyAll(e, MarkerOps(q.first))
    requires CrashState(z, Commit(z, q).ops, d')
    ensures Recoverable(d', q.first, Targets(e), Stages(e)) || Arrived(d', Stages(e))
  {
    EndIsCrashState(e, MarkerOps(q.first));
    MarkerPhase(e, q.first, z);
    MarkedIsRecoverable(e, q.first, z);
    RecoverableUntilArrived(z, q.first, Targets(e), Stages(e), q, d');
  }

  lemma CommitKeeps(d: Disk, q: Request, d': Disk, p: Path)
    requires Kept(p.file) && CrashState(d, Commit(d, q).ops, d')
    ensures At(d', p) == At(d, p)
  {
    CommitUntouched(d, q, p);
    CrashFrame(d, Commit(d, q).ops, d', p);
  }

  lemma CommitUntouched(d: Disk, q: Request, p: Path)
    requires Kept(p.file)
    ensures Untouched(Commit(d, q).ops, p)
  {
    CommitTouches(d, q.first, p);
    var m, pr, c := MissingMarkers(d, q.first), PromoteOps(Jobs(q.first)), CleanupOps(q.first);
    forall op <- m + pr ensures op in m + pr + c {
      var i :| 0 <= i < |m + pr| && (m + pr)[i] == op;
      assert (m + pr + c)[i] == op;
    }
  }

  lemma MarkersKeep(d: Disk, first: Side, d': Disk, p: Path)
    requires Kept(p.file) && CrashState(d, MarkerOps(first), d')
    ensures At(d', p) == At(d, p)
  {
    MarkerOpsTouch(first, p);
    CrashFrame(d, MarkerOps(first), d', p);
  }

  lemma CleanupKeeps(d: Disk, first: Side, d': Disk, p: Path)
    requires Kept(p.file) && CrashState(d, CleanupOps(first), d')
    ensures At(d', p) == At(d, p)
  {
    CrashFrame(d, CleanupOps(first), d', p);
  }

  /** A file that no run changes any more: a kept one, and a raw copy once it is there. */
  predicate Settled(d: Disk, p: Path) {
    Kept(p.file) && (p.file.RawMeasured? ==> p in d)
  }

  lemma StagingKeeps(c: Disk, q: Request, d': Disk, p: Path)
    requires Settled(c, p) && CrashState(c, StageAll(c, q).ops, d')
    ensures At(d', p) == At(c, p)
  {
    if p.file.RawMeasured? {
      StageAllRawRule(c, q, p.side);
      CrashFrame(c, StageAll(c, q).ops, d', p);
    } else {
      StageAllIsScratch(c, q);
      ScratchPhase(c, StageAll(c, q).ops, d');
    }
  }

  lemma CleanedKeeps(d: Disk, q: Request, p: Path)
    requires Kept(p.file)
    ensures At(Cleaned(d, q), p) == At(d, p)
  {
    EndIsCrashState(d, CleanupOps(q.first));
    CleanupKeeps(d, q.first, Cleaned(d, q), p);
  }

  lemma StagedDiskKeeps(c: Disk, q: Request, p: Path, e: Disk)
    requires Settled(c, p)
    requires e == ApplyAll(c, StageAll(c, q).ops)
    ensures At(e, p) == At(c, p)
  {
    EndIsCrashState(c, StageAll(c, q).ops);
    StagingKeeps(c, q, e, p);
  }

  lemma MarkedDiskKeeps(d: Disk, q: Request, p: Path)
    requires Settled(d, p)
    ensures At(Cleaned(d, q), p) == At(StagedDisk(d, q), p) == At(MarkedDisk(d, q), p) == At(d, p)
  {
    CleanedKeeps(d, q, p);
    StagedDiskKeeps(Cleaned(d, q), q, p, StagedDisk(d, q));
    EndIsCrashState(StagedDisk(d, q), MarkerOps(q.first));
    MarkersKeep(StagedDisk(d, q), q.first, MarkedDisk(d, q), p);
  }

  lemma FreshRunKeepsSettled(d: Disk, q: Request, d': Disk, p: Path)
    requires Settled(d, p)
    requires q.independent && !Marked(d) && CrashState(d, Run(d, q).ops, d')
    ensures At(d', p) == At(d, p)
  {
    FreshRunCases(d, q, d');
    MarkedDiskKeeps(d, q, p);
    if CrashState(d, CleanupOps(q.first), d') {
      CleanupKeeps(d, q.first, d', p);
    } else if CrashState(Cleaned(d, q), StageAll(Cleaned(d, q), q).ops, d') {
      StagingKeeps(Cleaned(d, q), q, d', p);
    } else if CrashState(StagedDisk(d, q), MarkerOps(q.first), d') {
      MarkersKeep(StagedDisk(d, q), q.first, d', p);
    } else {
      CommitKeeps(MarkedDisk(d, q), q, d', p);
    }
  }

  lemma RunKeepsSettled(d: Disk, q: Request, d': Disk, p: Path)
    requires Settled(d, p)
    requires CrashState(d, Run(d, q).ops, d')
    ensures At(d', p) == At(d, p)
  {
    if q.independent && Marked(d) {
      CommitKeeps(d, q, d', p);
    } else if q.independent {
      FreshRunKeepsSettled(d, q, d', p);
    }
  }

  lemma SameRaw(d: Disk, d0: Disk, d': Disk, s: Side)
    requires At(d', Path(s, RawMeasured)) == At(d, Path(s, RawMeasured))
    ensures RawOk(d, d0, s) ==> RawOk(d', d0, s)
    ensures Complete(d, d0, s) ==> Complete(d', d0, s)
  {
    assert Path(s, RawMeasured) in d <==> At(d, Path(s, RawMeasured)).Some?;
    assert Path(s, RawMeasured) in d' <==> At(d', Path(s, RawMeasured)).Some?;
  }

  lemma CleanupKeepsRaw(d: Disk, d0: Disk, first: Side, d': Disk)
    requires RawInv(d, d0) && !Marked(d) && CrashState(d, CleanupOps(first), d')
    ensures RawInv(d', d0) && !Marked(d')
  {
    CleanupPhase(d, first, d');
    CleanupKeeps(d, first, d', Path(A, RawMeasured));
    CleanupKeeps(d, first, d', Path(B, RawMeasured));
    SameRaw(d, d0, d', A);
    SameRaw(d, d0, d', B);
  }

  lemma StagingKeepsRawInv(d: Disk, d0: Disk, q: Request, d': Disk)
    requires RawInv(d, d0) && !Marked(d) && NotTooLong(d0)
    requires CrashState(d, StageAll(d, q).ops, d')
    ensures RawInv(d', d0)
  {
    StageAllIsScratch(d, q);
    ScratchPhase(d, StageAll(d, q).ops, d');
    if Complete(d, d0, A) && Complete(d, d0, B) {
      forall s: Side ensures At(d', Path(s, RawMeasured)) == At(d, Path(s, RawMeasured)) {
        assert s == A || s == B;
        StageAllRawRule(d, q, s);
        CrashFrame(d, StageAll(d, q).ops, d', Path(s, RawMeasured));
      }
      SameRaw(d, d0, d', A);
      SameRaw(d, d0, d', B);
    } else {
      StagingKeepsRaw(d, d0, q, d', A);
      StagingKeepsRaw(d, d0, q, d', B);
    }
  }

  /** The raw copies stay complete through markers, promotion and cleanup. */
  lemma KeptRawStaysComplete(d: Disk, d0: Disk, d': Disk)
    requires Complete(d, d0, A) && Complete(d, d0, B)
    requires forall s: Side :: At(d', Path(s, RawMeasured)) == At(d, Path(s, RawMeasured))
    ensures RawInv(d', d0) && Complete(d', d0, A) && Complete(d', d0, B)
  {
    SameRaw(d, d0, d', A);
    SameRaw(d, d0, d', B);
  }

  lemma RunKeepsRaw(d: Disk, d0: Disk, q: Request, d': Disk)
    requires RawInv(d, d0) && NotTooLong(d0)
    requires CrashState(d, Run(d, q).ops, d')
    ensures RawInv(d', d0)
  {
    if q.independent && Marked(d) {
      forall s: Side ensures At(d', Path(s, RawMeasured)) == At(d, Path(s, RawMeasured)) {
        CommitKeeps(d, q, d', Path(s, RawMeasured));
      }
      KeptRawStaysComplete(d, d0, d');
    } else if q.independent {
      FreshRunKeepsRaw(d, d0, q, d');
    }
  }

  lemma FreshRunKeepsRaw(d: Disk, d0: Disk, q: Request, d': Disk)
    requires RawInv(d, d0) && NotTooLong(d0) && !Marked(d) && q.independent
    requires CrashState(d, Run(d, q).ops, d')
    ensures RawInv(d', d0)
  {
    FreshRunCases(d, q, d');
    var c, e, z := Cleaned(d, q), StagedDisk(d, q), MarkedDisk(d, q);
    EndIsCrashState(d, CleanupOps(q.first));
    CleanupKeepsRaw(d, d0, q.first, c);
    if CrashState(d, CleanupOps(q.first), d') {
      CleanupKeepsRaw(d, d0, q.first, d');
    } else if CrashState(c, StageAll(c, q).ops, d') {
      StagingKeepsRawInv(c, d0, q, d');
    } else {
      StagedRawIsComplete(c, d0, q);
      EndIsCrashState(e, MarkerOps(q.first));
      forall s: Side ensures At(z, Path(s, RawMeasured)) == At(e, Path(s, RawMeasured)) {
        MarkersKeep(e, q.first, z, Path(s, RawMeasured));
      }
      KeptRawStaysComplete(e, d0, z);
      forall s: Side ensures At(d', Path(s, RawMeasured)) == At(e, Path(s, RawMeasured)) {
        if CrashState(e, MarkerOps(q.first), d') {
          MarkersKeep(e, q.first, d', Path(s, RawMeasured));
        } else {
          CommitKeeps(z, q, d', Path(s, RawMeasured));
        }
      }
      KeptRawStaysComplete(e, d0, d');
    }
  }

  /** No measurement is lost: in every state of every history the measured bytes of
      each directory are in the raw copy or still in the public file, and a raw
      copy that was there from the beginning is never changed. */
  lemma {:induction false} NoMeasurementIsLost(states: seq<Disk>, runs: seq<Request>, staged: seq<Option<Six>>, n: nat)
    requires History(states, runs, staged) && n <= |runs|
    requires !Marked(states[0]) && NotTooLong(states[0])
    ensures RawInv(states[n], states[0])
    ensures forall s: Side :: Survives(states[n], states[0], s)
  {
    if n == 0 {
      assert forall s: Side :: Path(s, RawMeasured) in states[0] ==> Measured(states[0], s) == At(states[0], Path(s, RawMeasured));
    } else {
      NoMeasurementIsLost(states, runs, staged, n - 1);
      assert Interrupted(states, runs, staged, n - 1);
      RunKeepsRaw(states[n - 1], states[0], runs[n - 1], states[n]);
    }
    forall s: Side {
      RawInvKeepsMeasurement(states[n], states[0], s);
    }
  }

  /** A raw copy that is there, whole or not, is never written again. */
  lemma {:induction false} RawIsNeverOverwritten(states: seq<Disk>, runs: seq<Request>, staged: seq<Option<Six>>, i: nat, j: nat, s: Side)
    requires History(states, runs, staged) && i <= j <= |runs|
    requires Path(s, RawMeasured) in states[i]
    ensures At(states[j], Path(s, RawMeasured)) == At(states[i], Path(s, RawMeasured))
    decreases j
  {
    if i < j {
      RawIsNeverOverwritten(states, runs, staged, i, j - 1, s);
      assert Interrupted(states, runs, staged, j - 1);
      RunKeepsSettled(states[j - 1], runs[j - 1], states[j], Path(s, RawMeasured));
    }
  }

  /** What a consensus was made of is not a bad raw copy. */
  lemma StagedRawIsGood(c: Disk, q: Request, s: Side)
    requires StageAll(c, q).ok
    ensures Measured(c, s).Some? && !BadRaw(Measured(c, s).value)
  {
    StagingStarts(c, q);
    var x, y := ManifestAt(c, Path(q.first, Target(Manifest))).value, ManifestAt(c, Path(Other(q.first), Target(Manifest))).value;
    var d1 := ApplyAll(c, MeasureBoth(c, q.first).ops);
    var d2 := ApplyAll(d1, StagePublic(d1, q).ops);
    var d3 := ApplyAll(d2, StageManifests(d2, q, x, y).ops);
    StagingPath(c, q, x, y, d1, d2, d3);
    var rows := StagedHead(c, q, d1, d2);
    CanonicalNeedsWholeFiles(LinesOf(Measured(c, q.first).value), LinesOf(Measured(c, Other(q.first)).value), q.rules);
    assert s == q.first || s == Other(q.first);
  }

  lemma BadRawStagesNothing(d: Disk, q: Request, s: Side)
    requires Path(s, RawMeasured) in d && BadRaw(d[Path(s, RawMeasured)])
    ensures StagedVersion(d, q).None?
  {
    if StagedVersion(d, q).Some? {
      CleanedKeeps(d, q, Path(s, RawMeasured));
      StagedRawIsGood(Cleaned(d, q), q, s);
    }
  }

  /** A run that finds a bad raw copy refuses, and however far it gets, it leaves no
      marker and changes no promoted file. */
  lemma BadRawRefuses(d: Disk, q: Request, s: Side, d': Disk)
    requires !Marked(d) && Path(s, RawMeasured) in d && BadRaw(d[Path(s, RawMeasured)])
    requires CrashState(d, Run(d, q).ops, d')
    ensures !Run(d, q).ok && !Marked(d') && Targets(d') == Targets(d)
  {
    BadRawStagesNothing(d, q, s);
    if Marked(d') {
      MarkerMeansRecoverable(d, q, d');
    }
    RunKeepsInv(d, q, {Targets(d)}, d');
    if Run(d, q).ok {
      var c := ApplyAll(d, CleanupOps(q.first));
      var e := ApplyAll(c, StageAll(c, q).ops);
      FreshRunEnds(d, q, c, e, ApplyAll(e, MarkerOps(q.first)));
    }
  }

  /** So does every run after an interrupted raw copy of a measured file that is no
      longer than the expected number of rows. */
  lemma TornRawRefuses(d: Disk, q: Request, s: Side, full: Content, d': Disk)
    requires !Marked(d) && Path(s, RawMeasured) in d && TornContent(full, d[Path(s, RawMeasured)])
    requires (full.Telemetry? ==> BadLine !in full.lines) && |LinesOf(full)| <= EXPECTED_ROWS
    requires CrashState(d, Run(d, q).ops, d')
    ensures !Run(d, q).ok && !Marked(d') && Targets(d') == Targets(d)
  {
    TornRawIsRefused(full);
    BadRawRefuses(d, q, s, d');
  }

  // ---------------------------------------------------------------- one new version

  /** All runs of a history are the same program on the same pair, in either order. */
  ghost predicate OneProgram(runs: seq<Request>) {
    forall q <- runs, q' <- runs :: q.sha == q'.sha && q.rules == q'.rules
  }

  ghost predicate OneOrder(runs: seq<Request>) {
    forall q <- runs, q' <- runs :: q.first == q'.first
  }

  /** If the manifests of the two directories agree, as every staging checks, their
      file names are those of `r`. */
  predicate RecipeIs(v: Six, r: ManifestData) {
    var x, y := Cell(v, Job(A, Manifest)), Cell(v, Job(B, Manifest));
    x.Some? && x.value.ManifestDoc? && y.Some? && y.value.ManifestDoc? && SameManifest(x.value.manifest, y.value.manifest)
    ==> SameRecipe(x.value.manifest, r)
  }

  /** The original directories are ones the harness writes. */
  ghost predicate HarnessOutput(d: Disk, r: ManifestData) {
    RecipeIs(Targets(d), r) && StableNames(r) && !Marked(d) && NotTooLong(d)
  }

  /** A history of one program whose runs either all name the directories in the same
      order, or measured what canonicalizes the same either way round. */
  ghost predicate Repeatable(states: seq<Disk>, runs: seq<Request>, staged: seq<Option<Six>>, r: ManifestData) {
    && History(states, runs, staged) && OneProgram(runs) && HarnessOutput(states[0], r)
    && (OneOrder(runs) || forall q <- runs :: SwapFree(states[0], q.rules))
  }

  lemma StagedRecipe(d: Disk, q: Request, r: ManifestData)
    requires StagedVersion(d, q).Some? && StableNames(r)
    requires RecipeIs(Targets(d), r)
    ensures RecipeIs(StagedVersion(d, q).value, r)
  {
    var c := Cleaned(d, q);
    CleanedRecipe(d, q, r);
    var x, rows, m, e := StagedFacts(c, q);
    StagedSetRecipe(e, q.sha, rows, x, m, r);
  }

  lemma StagedSetRecipe(e: Disk, sha: Content -> Hash, rows: seq<Row>, x: ManifestData, m: ManifestData, r: ManifestData)
    requires StagedSet(e, sha, rows, m) && m == Finalized(x, m.artifactHashes) && SameRecipe(x, r)
    ensures RecipeIs(Stages(e), r)
  {
    CellsAreFiles(e, Job(A, Manifest));
    CellsAreFiles(e, Job(B, Manifest));
  }

  lemma CleanedRecipe(d: Disk, q: Request, r: ManifestData)
    requires RecipeIs(Targets(d), r) && StageAll(Cleaned(d, q), q).ok
    ensures forall m | ManifestAt(Cleaned(d, q), Path(q.first, Target(Manifest))) == Some(m) :: SameRecipe(m, r)
  {
    var c := Cleaned(d, q);
    EndIsCrashState(d, CleanupOps(q.first));
    CleanupPhase(d, q.first, c);
    StagingManifestsAgree(c, q);
    CellsAreFiles(c, Job(A, Manifest));
    CellsAreFiles(c, Job(B, Manifest));
    assert q.first == A || q.first == B;
  }

  lemma StagingManifestsAgree(c: Disk, q: Request)
    requires StageAll(c, q).ok
    ensures var x, y := ManifestAt(c, Path(A, Target(Manifest))), ManifestAt(c, Path(B, Target(Manifest)));
            x.Some? && y.Some? && SameManifest(x.value, y.value)
  {
    StagingStarts(c, q);
    assert q.first == A || q.first == B;
  }

  predicate HaveRecipe(V: set<Six>, r: ManifestData) {
    forall v <- V :: RecipeIs(v, r)
  }

  ghost predicate ConstantsKept(d: Disk, d0: Disk) {
    forall p: Path | p.file.Plain? || p.file.RawAttestation? :: At(d, p) == At(d0, p)
  }

  lemma {:induction false} HistoryKeepsConstants(states: seq<Disk>, runs: seq<Request>, staged: seq<Option<Six>>, n: nat)
    requires History(states, runs, staged) && n <= |runs|
    ensures ConstantsKept(states[n], states[0])
  {
    if n > 0 {
      HistoryKeepsConstants(states, runs, staged, n - 1);
      assert Interrupted(states, runs, staged, n - 1);
      forall p: Path | p.file.Plain? || p.file.RawAttestation? ensures At(states[n], p) == At(states[0], p) {
        RunKeepsSettled(states[n - 1], runs[n - 1], states[n], p);
      }
    }
  }

  lemma NextRecipe(d: Disk, q: Request, V: set<Six>, r: ManifestData)
    requires Inv(d, V) && StableNames(r) && HaveRecipe(V, r)
    ensures HaveRecipe(V + Versions(StagedVersion(d, q)), r)
  {
    if StagedVersion(d, q).Some? {
      assert Targets(d) in V;
      StagedRecipe(d, q, r);
    }
  }

  lemma RecipeStep(states: seq<Disk>, runs: seq<Request>, staged: seq<Option<Six>>, n: nat, V: set<Six>, r: ManifestData)
    requires History(states, runs, staged) && n < |runs|
    requires StableNames(r) && Inv(states[n], V) && HaveRecipe(V, r)
    ensures HaveRecipe(V + Versions(staged[n]), r)
  {
    assert Interrupted(states, runs, staged, n);
    NextRecipe(states[n], runs[n], V, r);
  }

  lemma {:induction false} HistoryKeepsRecipe(states: seq<Disk>, runs: seq<Request>, staged: seq<Option<Six>>, n: nat, r: ManifestData)
    requires History(states, runs, staged) && n <= |runs|
    requires StableNames(r) && !Marked(states[0]) && RecipeIs(Targets(states[0]), r)
    ensures HaveRecipe(VersionsUpTo(Targets(states[0]), staged, n), r)
  {
    if n > 0 {
      HistoryKeepsRecipe(states, runs, staged, n - 1, r);
      HistoryKeepsInv(states, runs, staged, n - 1);
      RecipeStep(states, runs, staged, n - 1, VersionsUpTo(Targets(states[0]), staged, n - 1), r);
    }
  }

  /** What every state of a history keeps of the original one. */
  lemma HistoryFacts(states: seq<Disk>, runs: seq<Request>, staged: seq<Option<Six>>, n: nat, r: ManifestData)
    requires History(states, runs, staged) && n <= |runs|
    requires HarnessOutput(states[0], r)
    ensures Inv(states[n], VersionsUpTo(Targets(states[0]), staged, n))
    ensures HaveRecipe(VersionsUpTo(Targets(states[0]), staged, n), r)
    ensures RawInv(states[n], states[0]) && ConstantsKept(states[n], states[0])
  {
    HistoryKeepsInv(states, runs, staged, n);
    HistoryKeepsRecipe(states, runs, staged, n, r);
    NoMeasurementIsLost(states, runs, staged, n);
    HistoryKeepsConstants(states, runs, staged, n);
  }

  lemma CleanedSources(d: Disk, d0: Disk, q: Request)
    requires RawInv(d, d0) && StagedVersion(d, q).Some? && ConstantsKept(d, d0)
    ensures SameSources(Cleaned(d, q), d0)
  {
    var c := Cleaned(d, q);
    EndIsCrashState(d, CleanupOps(q.first));
    CleanupKeepsRaw(d, d0, q.first, c);
    StagedRawIsComplete(c, d0, q);
    forall p: Path | p.file.Plain? || p.file.RawAttestation? ensures At(c, p) == At(d0, p) {
      CleanupKeeps(d, q.first, c, p);
    }
  }

  lemma StagedFrom(states: seq<Disk>, runs: seq<Request>, staged: seq<Option<Six>>, i: nat, r: ManifestData)
    requires History(states, runs, staged) && i < |runs| && staged[i].Some?
    requires HarnessOutput(states[0], r)
    ensures staged[i] == StagedVersion(states[i], runs[i])
    ensures SameSources(Cleaned(states[i], runs[i]), states[0])
    ensures forall m | ManifestAt(Cleaned(states[i], runs[i]), Path(runs[i].first, Target(Manifest))) == Some(m) :: SameRecipe(m, r)
  {
    assert Interrupted(states, runs, staged, i);
    HistoryFacts(states, runs, staged, i, r);
    SourcesAndRecipe(states[i], states[0], runs[i], VersionsUpTo(Targets(states[0]), staged, i), r);
  }

  lemma SourcesAndRecipe(d: Disk, d0: Disk, q: Request, V: set<Six>, r: ManifestData)
    requires RawInv(d, d0) && StagedVersion(d, q).Some? && ConstantsKept(d, d0)
    requires Inv(d, V) && HaveRecipe(V, r)
    ensures SameSources(Cleaned(d, q), d0)
    ensures forall m | ManifestAt(Cleaned(d, q), Path(q.first, Target(Manifest))) == Some(m) :: SameRecipe(m, r)
  {
    CleanedSources(d, d0, q);
    assert Targets(d) in V;
    CleanedRecipe(d, q, r);
  }

  /** Any two complete stagings of a history produce the same version, also when they
      name the directories in different orders. */
  lemma StagingsAgree(states: seq<Disk>, runs: seq<Request>, staged: seq<Option<Six>>, i: nat, j: nat, r: ManifestData)
    requires Repeatable(states, runs, staged, r) && i < |runs| && j < |runs|
    requires staged[i].Some? && staged[j].Some?
    ensures staged[i] == staged[j]
  {
    assert runs[i] in runs && runs[j] in runs;
    StagedFrom(states, runs, staged, i, r);
    StagedFrom(states, runs, staged, j, r);
    SameSourcesSwap(Cleaned(states[i], runs[i]), states[0], runs[i].rules);
    StagingIsDetermined(Cleaned(states[i], runs[i]), Cleaned(states[j], runs[j]), runs[i], runs[j], r);
  }

  lemma SameSourcesSwap(c: Disk, d0: Disk, rules: RowRules)
    requires SameSources(c, d0)
    ensures SwapFree(c, rules) <==> SwapFree(d0, rules)
  {
    assert Measured(c, A) == Measured(d0, A) && Measured(c, B) == Measured(d0, B);
  }

  lemma {:induction false} VersionOrigin(original: Six, staged: seq<Option<Six>>, n: nat, v: Six) returns (k: nat)
    requires n <= |staged| && v in VersionsUpTo(original, staged, n) && v != original
    ensures k < n && staged[k] == Some(v)
  {
    k := n - 1;
    if staged[k] != Some(v) {
      k := VersionOrigin(original, staged, k, v);
    }
  }

  /** Old or new: at most one version other than the original is ever staged, and
      every unmarked state shows the original six files or that one. */
  lemma OldOrNew(states: seq<Disk>, runs: seq<Request>, staged: seq<Option<Six>>, i: nat, j: nat, r: ManifestData)
    requires Repeatable(states, runs, staged, r) && i <= |runs| && j <= |runs|
    requires !Marked(states[i]) && !Marked(states[j])
    ensures || Targets(states[i]) == Targets(states[0])
            || Targets(states[j]) == Targets(states[0])
            || Targets(states[i]) == Targets(states[j])
  {
    AtomicPairCommit(states, runs, staged, i);
    AtomicPairCommit(states, runs, staged, j);
    if Targets(states[i]) != Targets(states[0]) && Targets(states[j]) != Targets(states[0]) {
      var x := VersionOrigin(Targets(states[0]), staged, i, Targets(states[i]));
      var y := VersionOrigin(Targets(states[0]), staged, j, Targets(states[j]));
      StagingsAgree(states, runs, staged, x, y, r);
    }
  }

  predicate StagesNoOther(staged: seq<Option<Six>>, v: Six) {
    forall k | 0 <= k < |staged| :: staged[k] == None || staged[k] == Some(v)
  }

  lemma {:induction false} OnlyVersion(v: Six, staged: seq<Option<Six>>, n: nat)
    requires n <= |staged| && StagesNoOther(staged, v)
    ensures VersionsUpTo(v, staged, n) == {v}
  {
    if n > 0 {
      OnlyVersion(v, staged, n - 1);
    }
  }

  lemma SuffixHistory(states: seq<Disk>, runs: seq<Request>, staged: seq<Option<Six>>, i: nat)
    requires History(states, runs, staged) && i <= |runs|
    ensures History(states[i..], runs[i..], staged[i..])
  {
    forall k: nat | k < |runs[i..]| ensures Interrupted(states[i..], runs[i..], staged[i..], k) {
      assert Interrupted(states, runs, staged, i + k);
      assert states[i..][k] == states[i + k] && runs[i..][k] == runs[i + k] && states[i..][k + 1] == states[i + k + 1];
    }
  }

  /** If run o staged v, every later staging is of v. */
  lemma LaterStagings(states: seq<Disk>, runs: seq<Request>, staged: seq<Option<Six>>, o: nat, i: nat, v: Six, r: ManifestData)
    requires Repeatable(states, runs, staged, r) && i <= |runs|
    requires o < |runs| && staged[o] == Some(v)
    ensures StagesNoOther(staged[i..], v)
  {
    forall k | 0 <= k < |staged[i..]| ensures staged[i..][k] == None || staged[i..][k] == Some(v) {
      if staged[i + k].Some? {
        StagingsAgree(states, runs, staged, o, i + k, r);
      }
    }
  }

  /** An unmarked state that shows v, after which nothing else is staged, is final. */
  lemma ShownStaysShown(states: seq<Disk>, runs: seq<Request>, staged: seq<Option<Six>>, i: nat, j: nat, v: Six)
    requires History(states, runs, staged) && i <= j <= |runs|
    requires !Marked(states[i]) && Targets(states[i]) == v && StagesNoOther(staged[i..], v)
    ensures Targets(states[j]) == v
  {
    OnlyVersion(v, staged[i..], j - i);
    SuffixHistory(states, runs, staged, i);
    AtomicPairCommit(states[i..], runs[i..], staged[i..], j - i);
    assert states[i..][j - i] == states[j];
    MixedOfOne(Targets(states[j]), v);
  }

  lemma MixedOfOne(x: Six, v: Six)
    requires Mixed(x, v, v)
    ensures x == v
  {
    forall c: Job ensures Cell(x, c) == Cell(v, c) {
      CellsOfOne(x, v, c);
    }
    SameVersion(x, v);
  }

  lemma CellsOfOne(x: Six, v: Six, c: Job)
    requires Mixed(x, v, v)
    ensures Cell(x, c) == Cell(v, c)
  {
    assert c.side == A || c.side == B;
    assert MixedCell(x, v, v, c);
  }

  /** Finalizing is idempotent and permanent: once an unmarked state shows the new
      version, every later state shows it too, marked or not, however many more runs
      are made or interrupted. */
  lemma FinalizedStaysFinalized(states: seq<Disk>, runs: seq<Request>, staged: seq<Option<Six>>, i: nat, j: nat, r: ManifestData)
    requires Repeatable(states, runs, staged, r) && i <= j <= |runs|
    requires !Marked(states[i]) && Targets(states[i]) != Targets(states[0])
    ensures Targets(states[j]) == Targets(states[i])
  {
    var v := Targets(states[i]);
    AtomicPairCommit(states, runs, staged, i);
    var o := VersionOrigin(Targets(states[0]), staged, i, v);
    LaterStagings(states, runs, staged, o, i, v, r);
    ShownStaysShown(states, runs, staged, i, j, v);
  }

  /** Files that show a staged version, next to the files it was staged from, verify. */
  lemma ShownVersionVerifies(c: Disk, d0: Disk, z: Disk, q: Request, r: ManifestData, s: Side)
    requires StageAll(c, q).ok && StableNames(r) && SameSources(c, d0)
    requires forall m | ManifestAt(c, Path(q.first, Target(Manifest))) == Some(m) :: SameRecipe(m, r)
    requires Targets(z) == Stages(ApplyAll(c, StageAll(c, q).ops))
    requires ConstantsKept(z, d0) && Complete(z, d0, A) && Complete(z, d0, B)
    ensures HashesVerify(z, s, q.sha)
  {
    var x, rows, m, e := StagedFacts(c, q);
    SourcesStay(c, d0, z, q, e, rows);
    PromotedSetVerifies(e, z, q.sha, rows, m, s);
  }

  lemma SourcesStay(c: Disk, d0: Disk, z: Disk, q: Request, e: Disk, rows: seq<Row>)
    requires StagedMeasurements(c, q, e, rows) && SameSources(c, d0)
    requires ConstantsKept(z, d0) && Complete(z, d0, A) && Complete(z, d0, B)
    ensures forall p: Path | Kept(p.file) :: At(z, p) == At(e, p)
  {
    forall p: Path | Kept(p.file) ensures At(z, p) == At(e, p) {
      if p.file.RawMeasured? {
        assert p == Path(p.side, RawMeasured) && (p.side == A || p.side == B);
        assert At(e, p) == Measured(c, p.side) == Measured(d0, p.side);
      } else {
        assert At(e, p) == At(c, p) == At(d0, p);
      }
    }
  }

  /** Whenever no marker is there and the new version is shown, every hash that a
      manifest or a provenance document records is the hash of the file beside it,
      however many runs were interrupted on the way. */
  lemma NewVersionVerifies(states: seq<Disk>, runs: seq<Request>, staged: seq<Option<Six>>, n: nat, r: ManifestData,
                           s: Side, sha: Content -> Hash)
    requires History(states, runs, staged) && n <= |runs|
    requires forall q <- runs :: q.sha == sha
    requires HarnessOutput(states[0], r)
    requires !Marked(states[n]) && Targets(states[n]) != Targets(states[0])
    ensures HashesVerify(states[n], s, sha)
  {
    AtomicPairCommit(states, runs, staged, n);
    var k := VersionOrigin(Targets(states[0]), staged, n, Targets(states[n]));
    StagedFrom(states, runs, staged, k, r);
    HistoryFacts(states, runs, staged, n, r);
    assert runs[k] in runs;
    ShownVersionVerifies(Cleaned(states[k], runs[k]), states[0], states[n], runs[k], r, s);
  }

  // ---------------------------------------------------------------- recovery over a whole history

  lemma {:induction false} StuckStays(states: seq<Disk>, runs: seq<Request>, staged: seq<Option<Six>>, j: nat, n: nat)
    requires History(states, runs, staged) && j <= n <= |runs| && Stuck(states[j])
    ensures states[n] == states[j]
    decreases n
  {
    if j < n {
      StuckStays(states, runs, staged, j, n - 1);
      assert Interrupted(states, runs, staged, n - 1);
      StuckForever(states[n - 1], runs[n - 1], states[n]);
    }
  }

  /** Contents that have arrived stay, whatever runs follow. */
  lemma ArrivedStays(states: seq<Disk>, runs: seq<Request>, staged: seq<Option<Six>>, k: nat, j: nat, n: nat, v: Six, r: ManifestData)
    requires Repeatable(states, runs, staged, r) && j <= n <= |runs|
    requires k < |runs| && staged[k] == Some(v) && Arrived(states[j], v)
    ensures Targets(states[n]) == v
  {
    if Stuck(states[j]) {
      StuckStays(states, runs, staged, j, n);
    } else {
      LaterStagings(states, runs, staged, k, j, v, r);
      ShownStaysShown(states, runs, staged, j, n, v);
    }
  }

  /** A pending transaction over any number of interrupted re-runs: it is still
      pending, or its contents arrived at a state from which they stay. */
  lemma PendingOrArrived(states: seq<Disk>, runs: seq<Request>, staged: seq<Option<Six>>, i: nat, n: nat, first: Side, base: Six, v: Six)
    returns (j: nat)
    requires History(states, runs, staged) && i <= n <= |runs| && Recoverable(states[i], first, base, v)
    ensures i <= j <= n && (Recoverable(states[n], first, base, v) || Arrived(states[j], v))
  {
    j := i;
    SuffixHistory(states, runs, staged, i);
    CrashRecovery(states[i..], runs[i..], staged[i..], n - i, first, base, v);
    assert states[i..][n - i] == states[n];
    if !Recoverable(states[n], first, base, v) {
      var l: nat :| l <= n - i && Arrived(states[i..][l], v);
      j := i + l;
    }
  }

  /** Interrupted recovery: once a run has staged v and a transaction for it is
      pending, every later state has it still pending or shows exactly v. */
  lemma InterruptedRecovery(states: seq<Disk>, runs: seq<Request>, staged: seq<Option<Six>>, k: nat, i: nat, n: nat,
                            first: Side, base: Six, v: Six, r: ManifestData)
    requires Repeatable(states, runs, staged, r) && i <= n <= |runs|
    requires k < |runs| && staged[k] == Some(v) && Recoverable(states[i], first, base, v)
    ensures Recoverable(states[n], first, base, v) || Targets(states[n]) == v
  {
    var j := PendingOrArrived(states, runs, staged, i, n, first, base, v);
    if !Recoverable(states[n], first, base, v) {
      ArrivedStays(states, runs, staged, k, j, n, v, r);
    }
  }

  lemma LongerHistory(states: seq<Disk>, runs: seq<Request>, staged: seq<Option<Six>>, q: Request, e: Disk)
    requires History(states, runs, staged) && CrashState(states[|runs|], Run(states[|runs|], q).ops, e)
    ensures History(states + [e], runs + [q], staged + [StagedVersion(states[|runs|], q)])
  {
    var n := |runs|;
    var states', runs', staged' := states + [e], runs + [q], staged + [StagedVersion(states[n], q)];
    forall k: nat | k < |runs'| ensures Interrupted(states', runs', staged', k) {
      if k < n {
        assert Interrupted(states, runs, staged, k);
        assert states'[k] == states[k] && states'[k + 1] == states[k + 1] && runs'[k] == runs[k] && staged'[k] == staged[k];
      } else {
        assert states'[n] == states[n] && states'[n + 1] == e && runs'[n] == q;
      }
    }
  }

  /** The staging run of a repeatable history and one more run are of the same program,
      and their order of the directories does not matter or is the same. */
  ghost predicate Fits(original: Disk, staging: Request, q: Request) {
    q.sha == staging.sha && q.rules == staging.rules && (q.first == staging.first || SwapFree(original, q.rules))
  }

  lemma LongerRepeatable(states: seq<Disk>, runs: seq<Request>, staged: seq<Option<Six>>, k: nat, r: ManifestData, q: Request, e: Disk)
    requires Repeatable(states, runs, staged, r) && k < |runs| && Fits(states[0], runs[k], q)
    requires CrashState(states[|runs|], Run(states[|runs|], q).ops, e)
    ensures Repeatable(states + [e], runs + [q], staged + [StagedVersion(states[|runs|], q)], r)
  {
    LongerHistory(states, runs, staged, q, e);
    assert runs[k] in runs;
    assert forall p :: p in runs + [q] <==> p in runs || p == q;
    assert (states + [e])[0] == states[0];
  }

  /** Crash recovery: any number of interrupted re-runs of a pending transaction,
      followed by one complete run in its order, end with exactly the contents it
      staged, also when some earlier re-run had already arrived at them. */
  lemma RecoveryEnds(states: seq<Disk>, runs: seq<Request>, staged: seq<Option<Six>>, k: nat, i: nat,
                     first: Side, base: Six, v: Six, r: ManifestData, q: Request, e: Disk)
    requires Repeatable(states, runs, staged, r) && i <= |runs|
    requires k < |runs| && staged[k] == Some(v) && Recoverable(states[i], first, base, v)
    requires q.first == first && q.independent && q.postVerified && Fits(states[0], runs[k], q)
    requires e == ApplyAll(states[|runs|], Run(states[|runs|], q).ops)
    ensures Targets(e) == v
  {
    var n := |runs|;
    var j := PendingOrArrived(states, runs, staged, i, n, first, base, v);
    if Recoverable(states[n], first, base, v) {
      ResumeCompletes(states[n], first, base, v, q);
    } else {
      EndIsCrashState(states[n], Run(states[n], q).ops);
      LongerRepeatable(states, runs, staged, k, r, q, e);
      var states', staged' := states + [e], staged + [StagedVersion(states[n], q)];
      assert states'[j] == states[j] && states'[n + 1] == e && staged'[k] == staged[k];
      ArrivedStays(states', runs + [q], staged', k, j, n + 1, v, r);
    }
  }
}
