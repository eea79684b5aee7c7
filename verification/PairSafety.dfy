/** Atomic commit of the pair: no sequence of runs and interruptions leaves the two
    directories unmarked with files of different versions. */
module PairSafety {
  import opened Outcomes
  import opened PairPlan

  // ---------------------------------------------------------------- versions

  datatype Triple = Triple(publicTelemetry: Option<Content>, manifest: Option<Content>, provenance: Option<Content>)

  /** The promoted files of both directories. */
  datatype Six = Six(a: Triple, b: Triple)

  function TargetsOf(d: Disk, s: Side): Triple {
    Triple(At(d, Path(s, Target(PublicTelemetry))), At(d, Path(s, Target(Manifest))), At(d, Path(s, Target(Provenance))))
  }

  function StagesOf(d: Disk, s: Side): Triple {
    Triple(At(d, Path(s, Stage(PublicTelemetry))), At(d, Path(s, Stage(Manifest))), At(d, Path(s, Stage(Provenance))))
  }

  function Targets(d: Disk): Six {
    Six(TargetsOf(d, A), TargetsOf(d, B))
  }

  function Stages(d: Disk): Six {
    Six(StagesOf(d, A), StagesOf(d, B))
  }

  function Cell(v: Six, j: Job): Option<Content> {
    var t := if j.side.A? then v.a else v.b;
    match j.artifact
    case PublicTelemetry => t.publicTelemetry
    case Manifest => t.manifest
    case Provenance => t.provenance
  }

  predicate MixedCell(x: Six, old_: Six, new_: Six, j: Job) {
    Cell(x, j) == Cell(old_, j) || Cell(x, j) == Cell(new_, j)
  }

  /** Every file is either the old one or the new one. */
  predicate Mixed(x: Six, old_: Six, new_: Six) {
    forall j <- Jobs(A) :: MixedCell(x, old_, new_, j)
  }

  lemma CellsAreFiles(d: Disk, j: Job)
    ensures Cell(Targets(d), j) == At(d, Path(j.side, Target(j.artifact)))
    ensures Cell(Stages(d), j) == At(d, Path(j.side, Stage(j.artifact)))
    ensures j in Jobs(A) && j in Jobs(B)
  {
    var Job(side, artifact) := j;
    assert side == A || side == B;
    assert artifact == PublicTelemetry || artifact == Manifest || artifact == Provenance;
    assert Jobs(A)[0] == Jobs(B)[3] && Jobs(A)[1] == Jobs(B)[4] && Jobs(A)[2] == Jobs(B)[5];
    assert Jobs(A)[3] == Jobs(B)[0] && Jobs(A)[4] == Jobs(B)[1] && Jobs(A)[5] == Jobs(B)[2];
  }

  /** Two disks with the same promoted files have the same version. */
  lemma SameVersion(x: Six, y: Six)
    requires forall j <- Jobs(A) :: Cell(x, j) == Cell(y, j)
    ensures x == y
  {
    assert Cell(x, Jobs(A)[0]) == Cell(y, Jobs(A)[0]) && Cell(x, Jobs(A)[1]) == Cell(y, Jobs(A)[1])
        && Cell(x, Jobs(A)[2]) == Cell(y, Jobs(A)[2]) && Cell(x, Jobs(A)[3]) == Cell(y, Jobs(A)[3])
        && Cell(x, Jobs(A)[4]) == Cell(y, Jobs(A)[4]) && Cell(x, Jobs(A)[5]) == Cell(y, Jobs(A)[5]);
  }

  // ---------------------------------------------------------------- operations and frames

  lemma {:induction false} ApplyAllAppend(d: Disk, a: seq<Op>, b: seq<Op>)
    ensures ApplyAll(d, a + b) == ApplyAll(ApplyAll(d, a), b)
    decreases |a|
  {
    if a == [] {
      assert a + b == b;
    } else {
      assert (a + b)[1..] == a[1..] + b;
      ApplyAllAppend(Apply(d, a[0]), a[1..], b);
    }
  }

  lemma {:induction false} CrashSplit(d: Disk, a: seq<Op>, b: seq<Op>, d': Disk)
    requires CrashState(d, a + b, d')
    ensures CrashState(d, a, d') || CrashState(ApplyAll(d, a), b, d')
    decreases |a|
  {
    if a == [] {
      assert a + b == b;
    } else if !(d' == d || Torn(d, a[0], d')) {
      assert (a + b)[1..] == a[1..] + b;
      CrashSplit(Apply(d, a[0]), a[1..], b, d');
    }
  }

  lemma {:induction false} EndIsCrashState(d: Disk, ops: seq<Op>)
    ensures CrashState(d, ops, ApplyAll(d, ops))
    decreases |ops|
  {
    if ops != [] {
      EndIsCrashState(Apply(d, ops[0]), ops[1..]);
    }
  }

  predicate Touches(op: Op, p: Path) {
    match op
    case Write(to, _) => to == p
    case Copy(_, to) => to == p
    case Rename(src, to) => src == p || to == p
    case Unlink(at) => at == p
  }

  predicate Untouched(ops: seq<Op>, p: Path) {
    forall op <- ops :: !Touches(op, p)
  }

  /** A file no operation names is the same in every crash state. */
  lemma {:induction false} CrashFrame(d: Disk, ops: seq<Op>, d': Disk, p: Path)
    requires CrashState(d, ops, d') && Untouched(ops, p)
    ensures At(d', p) == At(d, p)
    decreases |ops|
  {
    if d' != d {
      assert !Touches(ops[0], p);
      assert At(Apply(d, ops[0]), p) == At(d, p);
      if !Torn(d, ops[0], d') {
        CrashFrame(Apply(d, ops[0]), ops[1..], d', p);
      }
    }
  }

  /** Operations that name no promoted file leave the version alone. */
  lemma VersionFrame(d: Disk, ops: seq<Op>, d': Disk)
    requires CrashState(d, ops, d')
    requires forall s: Side, a: Artifact :: Untouched(ops, Path(s, Target(a)))
    ensures Targets(d') == Targets(d)
  {
    forall j <- Jobs(A) ensures Cell(Targets(d'), j) == Cell(Targets(d), j) {
      CellsAreFiles(d, j);
      CellsAreFiles(d', j);
      CrashFrame(d, ops, d', Path(j.side, Target(j.artifact)));
    }
    SameVersion(Targets(d'), Targets(d));
  }

  lemma StagesFrame(d: Disk, ops: seq<Op>, d': Disk)
    requires CrashState(d, ops, d')
    requires forall s: Side, a: Artifact :: Untouched(ops, Path(s, Stage(a)))
    ensures Stages(d') == Stages(d) && (AllStaged(d') <==> AllStaged(d))
  {
    forall s: Side, a: Artifact ensures At(d', Path(s, Stage(a))) == At(d, Path(s, Stage(a))) {
      CrashFrame(d, ops, d', Path(s, Stage(a)));
    }
    forall j <- Jobs(A) ensures Cell(Stages(d'), j) == Cell(Stages(d), j) {
      CellsAreFiles(d, j);
      CellsAreFiles(d', j);
    }
    SameVersion(Stages(d'), Stages(d));
    assert forall s: Side, a: Artifact :: Path(s, Stage(a)) in d' <==> At(d', Path(s, Stage(a))).Some?;
    assert forall s: Side, a: Artifact :: Path(s, Stage(a)) in d <==> At(d, Path(s, Stage(a))).Some?;
  }

  // ---------------------------------------------------------------- promotion

  /** The stages are complete and every promoted file is old or new. */
  predicate Promoting(d: Disk, base: Six, next: Six) {
    AllStaged(d) && Stages(d) == next && Mixed(Targets(d), base, next)
  }

  lemma PromoteOne(d: Disk, j: Job, base: Six, next: Six, d': Disk)
    requires Promoting(d, base, next)
    requires CrashState(d, PromoteFile(j), d')
    ensures Promoting(d', base, next)
    ensures forall i <- Jobs(A) :: i != j ==> Cell(Targets(d'), i) == Cell(Targets(d), i)
    ensures d' == ApplyAll(d, PromoteFile(j)) || Targets(d') == Targets(d)
    ensures Cell(Targets(ApplyAll(d, PromoteFile(j))), j) == Cell(next, j)
  {
    var stage, promote, target := Path(j.side, Stage(j.artifact)), Path(j.side, Promote(j.artifact)), Path(j.side, Target(j.artifact));
    var ops := PromoteFile(j);
    StagesFrame(d, ops, d');
    var d1 := Apply(d, ops[0]);
    var d2 := Apply(d1, ops[1]);
    assert ops[1..] == [ops[1]] && ops[1..][1..] == [];
    assert ApplyAll(d, ops) == ApplyAll(d1, ops[1..]) == ApplyAll(d2, []) == d2;
    assert At(d2, target) == At(d, stage);
    CellsAreFiles(d, j);
    CellsAreFiles(d2, j);
    forall i <- Jobs(A) | i != j ensures Cell(Targets(d'), i) == Cell(Targets(d), i) {
      CellsAreFiles(d, i);
      CellsAreFiles(d', i);
      CrashFrame(d, ops, d', Path(i.side, Target(i.artifact)));
    }
    if d' != d2 {
      assert At(d', target) == At(d, target) by {
        assert ops[1..] == [ops[1]];
        assert CrashState(d1, ops[1..], d') ==> d' == d1 || Torn(d1, ops[1], d') || CrashState(d2, [], d');
      }
      CellsAreFiles(d', j);
      SameVersion(Targets(d'), Targets(d));
    }
    forall i <- Jobs(A) ensures MixedCell(Targets(d'), base, next, i) {
      assert MixedCell(Targets(d), base, next, i);
    }
  }

  lemma {:induction false} PromoteAll(d: Disk, jobs: seq<Job>, base: Six, next: Six, d': Disk)
    requires Promoting(d, base, next)
    requires CrashState(d, PromoteOps(jobs), d')
    ensures Promoting(d', base, next)
    ensures var e := ApplyAll(d, PromoteOps(jobs));
            Promoting(e, base, next) && forall j <- jobs :: Cell(Targets(e), j) == Cell(next, j)
    decreases |jobs|
  {
    if jobs != [] {
      var n := |jobs| - 1;
      var before, last := PromoteOps(jobs[..n]), jobs[n];
      var m := ApplyAll(d, before);
      EndIsCrashState(d, before);
      PromoteAll(d, jobs[..n], base, next, m);
      EndIsCrashState(m, PromoteFile(last));
      PromoteOne(m, last, base, next, ApplyAll(m, PromoteFile(last)));
      ApplyAllAppend(d, before, PromoteFile(last));
      forall j <- jobs ensures Cell(Targets(ApplyAll(d, PromoteOps(jobs))), j) == Cell(next, j) {
        CellsAreFiles(d, j);
        assert j != last ==> j in jobs[..n];
      }
      CrashSplit(d, before, PromoteFile(last), d');
      if CrashState(d, before, d') {
        PromoteAll(d, jobs[..n], base, next, d');
      } else {
        PromoteOne(m, last, base, next, d');
      }
    }
  }

  /** After all six promotions the version is the staged one. */
  lemma Promoted(d: Disk, first: Side, base: Six, next: Six)
    requires Promoting(d, base, next)
    ensures var e := ApplyAll(d, PromoteOps(Jobs(first)));
            Targets(e) == next && Stages(e) == next && AllStaged(e)
  {
    var ops := PromoteOps(Jobs(first));
    EndIsCrashState(d, ops);
    PromoteAll(d, Jobs(first), base, next, ApplyAll(d, ops));
    forall j <- Jobs(A) {
      CellsAreFiles(d, j);
    }
    SameVersion(Targets(ApplyAll(d, ops)), next);
  }

  // ---------------------------------------------------------------- markers and cleanup

  predicate MarkerFile(f: File) {
    f.Marker? || f.MarkerTmp?
  }

  lemma MarkerOpsTouch(first: Side, p: Path)
    ensures !MarkerFile(p.file) ==> Untouched(MarkerOps(first), p)
  {
  }

  /** Writing the markers keeps the existing ones and never leaves a foreign one. */
  lemma MarkerPhase(d: Disk, first: Side, d': Disk)
    requires CrashState(d, MarkerOps(first), d')
    ensures Marked(d) ==> Marked(d')
    ensures MarkersName(d, first) ==> MarkersName(d', first)
    ensures BothMarked(ApplyAll(d, MarkerOps(first)))
    ensures Targets(d') == Targets(d) && Stages(d') == Stages(d) && (AllStaged(d') <==> AllStaged(d))
  {
    MarkerPhaseFrame(d, first, d');
    MarkerPhaseEnd(d, first);
    MarkerPhaseNames(d, first, d');
  }

  lemma MarkerPhaseFrame(d: Disk, first: Side, d': Disk)
    requires CrashState(d, MarkerOps(first), d')
    ensures Targets(d') == Targets(d) && Stages(d') == Stages(d) && (AllStaged(d') <==> AllStaged(d))
  {
    var ops := MarkerOps(first);
    forall s: Side, a: Artifact ensures Untouched(ops, Path(s, Target(a))) && Untouched(ops, Path(s, Stage(a))) {
      MarkerOpsTouch(first, Path(s, Target(a)));
      MarkerOpsTouch(first, Path(s, Stage(a)));
    }
    VersionFrame(d, ops, d');
    StagesFrame(d, ops, d');
  }

  lemma FourOps(d: Disk, ops: seq<Op>)
    requires |ops| == 4
    ensures ApplyAll(d, ops) == Apply(Apply(Apply(Apply(d, ops[0]), ops[1]), ops[2]), ops[3])
  {
    var d1 := Apply(d, ops[0]);
    var d2 := Apply(d1, ops[1]);
    var d3 := Apply(d2, ops[2]);
    var d4 := Apply(d3, ops[3]);
    assert ops[1..][0] == ops[1] && ops[1..][1..] == ops[2..] && ops[2..][1..] == ops[3..] && ops[3..][1..] == [];
    assert ApplyAll(d, ops) == ApplyAll(d1, ops[1..]) == ApplyAll(d2, ops[2..]) == ApplyAll(d3, ops[3..]) == ApplyAll(d4, []) == d4;
  }

  lemma MarkerPhaseEnd(d: Disk, first: Side)
    ensures BothMarked(ApplyAll(d, MarkerOps(first)))
  {
    var ops := MarkerOps(first);
    FourOps(d, ops);
    var d4 := ApplyAll(d, ops);
    assert At(d4, Path(first, Marker)) == Some(MarkerDoc(first, Other(first)));
    assert At(d4, Path(Other(first), Marker)) == Some(MarkerDoc(first, Other(first)));
  }

  lemma MarkerPhaseNames(d: Disk, first: Side, d': Disk)
    requires CrashState(d, MarkerOps(first), d')
    ensures Marked(d) ==> Marked(d')
    ensures MarkersName(d, first) ==> MarkersName(d', first)
  {
    var ops := MarkerOps(first);
    var d1 := Apply(d, ops[0]);
    var d2 := Apply(d1, ops[1]);
    var d3 := Apply(d2, ops[2]);
    var d4 := Apply(d3, ops[3]);
    assert ops[1..][0] == ops[1] && ops[1..][1..] == ops[2..] && ops[2..][1..] == ops[3..] && ops[3..][1..] == [];
    assert d' == d || Torn(d, ops[0], d') || CrashState(d1, ops[1..], d');
    assert CrashState(d1, ops[1..], d') ==> d' == d1 || CrashState(d2, ops[2..], d');
    assert CrashState(d2, ops[2..], d') ==> d' == d2 || Torn(d2, ops[2], d') || CrashState(d3, ops[3..], d');
    assert CrashState(d3, ops[3..], d') ==> d' == d3 || CrashState(d4, ops[3..][1..], d');
    assert CrashState(d4, [], d') ==> d' == d4;
  }

  predicate Shrinks(d: Disk, d': Disk) {
    forall p <- d' :: p in d && d'[p] == d[p]
  }

  lemma {:induction false} UnlinksShrink(d: Disk, ops: seq<Op>, d': Disk)
    requires forall op <- ops :: op.Unlink?
    requires CrashState(d, ops, d')
    ensures Shrinks(d, d')
    decreases |ops|
  {
    if d' != d {
      assert ops[0].Unlink?;
      UnlinksShrink(Apply(d, ops[0]), ops[1..], d');
    }
  }

  lemma CleanupPhase(d: Disk, first: Side, d': Disk)
    requires CrashState(d, CleanupOps(first), d')
    ensures Targets(d') == Targets(d)
    ensures Marked(d') ==> Marked(d)
    ensures AllStaged(d') ==> AllStaged(d) && Stages(d') == Stages(d)
  {
    VersionFrame(d, CleanupOps(first), d');
    UnlinksShrink(d, CleanupOps(first), d');
    if AllStaged(d') {
      assert forall s: Side, a: Artifact :: Path(s, Stage(a)) in d' && d'[Path(s, Stage(a))] == d[Path(s, Stage(a))];
    }
  }

  // ---------------------------------------------------------------- one run

  /** The invariant: `V` are the versions that are allowed to be seen. Without a
      marker the promoted files are one of them; with a marker and complete stages
      they are on the way from one to another; with a marker and a missing stage
      they have already arrived. */
  ghost predicate Inv(d: Disk, V: set<Six>) {
    if !Marked(d) then Targets(d) in V
    else if AllStaged(d) then Stages(d) in V && exists base <- V :: Mixed(Targets(d), base, Stages(d))
    else Targets(d) in V
  }

  /** The version a run stages, if it gets as far as staging all of it. */
  function StagedVersion(d: Disk, q: Request): Option<Six> {
    var clean := ApplyAll(d, CleanupOps(q.first));
    if q.independent && !Marked(d) && StageAll(clean, q).ok
    then Some(Stages(ApplyAll(clean, StageAll(clean, q).ops)))
    else None
  }

  function Versions(v: Option<Six>): set<Six> {
    if v.Some? then {v.value} else {}
  }

  lemma CommitKeepsInv(d: Disk, q: Request, V: set<Six>, d': Disk)
    requires Inv(d, V) && Marked(d)
    requires CrashState(d, Commit(d, q).ops, d')
    ensures Inv(d', V)
  {
    if Resume(d, q.first).ok {
      var next := Stages(d);
      var base :| base in V && Mixed(Targets(d), base, next);
      var m := if BothMarked(d) then [] else MarkerOps(q.first);
      var p := PromoteOps(Jobs(q.first));
      var d1 := ApplyAll(d, m);
      EndIsCrashState(d, m);
      if !BothMarked(d) {
        MarkerPhase(d, q.first, d1);
      }
      assert Promoting(d1, base, next) && Marked(d1);
      var d2 := ApplyAll(d1, p);
      Promoted(d1, q.first, base, next);
      ApplyAllAppend(d, m, p);
      if q.postVerified {
        CrashSplit(d, m + p, CleanupOps(q.first), d');
      }
      if CrashState(d, m + p, d') {
        CrashSplit(d, m, p, d');
        if CrashState(d, m, d') {
          if !BothMarked(d) {
            MarkerPhase(d, q.first, d');
          }
        } else {
          PromoteAll(d1, Jobs(q.first), base, next, d');
          MarkersSurvivePromotion(d1, q.first, d');
        }
      } else {
        CleanupPhase(d2, q.first, d');
        MixedWithNew(Targets(d'), base);
      }
    }
  }

  lemma MixedWithNew(x: Six, base: Six)
    ensures Mixed(x, base, x)
  {
  }

  lemma {:induction false} PromoteTouches(jobs: seq<Job>, p: Path)
    requires !p.file.Promote? && !p.file.Target?
    ensures Untouched(PromoteOps(jobs), p)
    decreases |jobs|
  {
    if jobs != [] {
      PromoteTouches(jobs[..|jobs| - 1], p);
    }
  }

  lemma MarkersSurvivePromotion(d: Disk, first: Side, d': Disk)
    requires CrashState(d, PromoteOps(Jobs(first)), d')
    ensures forall s: Side :: At(d', Path(s, Marker)) == At(d, Path(s, Marker))
    ensures Marked(d') <==> Marked(d)
    ensures BothMarked(d') <==> BothMarked(d)
    ensures MarkersName(d', first) <==> MarkersName(d, first)
  {
    forall s: Side ensures At(d', Path(s, Marker)) == At(d, Path(s, Marker)) {
      PromoteTouches(Jobs(first), Path(s, Marker));
      CrashFrame(d, PromoteOps(Jobs(first)), d', Path(s, Marker));
    }
    assert forall s: Side :: Path(s, Marker) in d <==> At(d, Path(s, Marker)).Some?;
    assert forall s: Side :: Path(s, Marker) in d' <==> At(d', Path(s, Marker)).Some?;
    assert forall s: Side :: Path(s, Marker) in d ==> d[Path(s, Marker)] == At(d, Path(s, Marker)).value;
    assert forall s: Side :: Path(s, Marker) in d' ==> d'[Path(s, Marker)] == At(d', Path(s, Marker)).value;
  }

  predicate ScratchFile(f: File) {
    f.Stage? || f.RawMeasured?
  }

  /** Staging only writes stage files and the raw copy. */
  predicate ScratchOps(ops: seq<Op>) {
    forall op <- ops :: (op.Write? || op.Copy?) && ScratchFile(op.to.file)
  }

  lemma ScratchThen(a: Plan, b: Plan)
    requires ScratchOps(a.ops) && ScratchOps(b.ops)
    ensures ScratchOps(Then(a, b).ops)
  {
  }

  lemma StagingPartsAreScratch(d: Disk, q: Request, s: Side, m: ManifestData)
    ensures ScratchOps(Measure(d, s).ops)
    ensures ScratchOps(StagePublic(d, q).ops)
    ensures ScratchOps(StageManifest(d, s, m, q.sha).ops)
    ensures ScratchOps(StageProvenance(d, s, m, q.sha).ops)
  {
  }

  lemma StageManifestsIsScratch(d: Disk, q: Request, x: ManifestData, y: ManifestData)
    ensures ScratchOps(StageManifests(d, q, x, y).ops)
  {
    var one := StageManifest(d, q.first, x, q.sha);
    var d1 := ApplyAll(d, one.ops);
    StagingPartsAreScratch(d, q, q.first, x);
    StagingPartsAreScratch(d1, q, Other(q.first), y);
    ScratchThen(one, StageManifest(d1, Other(q.first), y, q.sha));
  }

  lemma StageProvenancesIsScratch(d: Disk, q: Request)
    ensures ScratchOps(StageProvenances(d, q).ops)
  {
    var x, y := ManifestAt(d, Path(q.first, Stage(Manifest))), ManifestAt(d, Path(Other(q.first), Stage(Manifest)));
    if x.Some? && y.Some? {
      var one := StageProvenance(d, q.first, x.value, q.sha);
      var d1 := ApplyAll(d, one.ops);
      StagingPartsAreScratch(d, q, q.first, x.value);
      StagingPartsAreScratch(d1, q, Other(q.first), y.value);
      ScratchThen(one, StageProvenance(d1, Other(q.first), y.value, q.sha));
    }
  }

  lemma StageAllIsScratch(d: Disk, q: Request)
    ensures ScratchOps(StageAll(d, q).ops)
  {
    var x, y := ManifestAt(d, Path(q.first, Target(Manifest))), ManifestAt(d, Path(Other(q.first), Target(Manifest)));
    if x.Some? && y.Some? {
      var one := Measure(d, q.first);
      StagingPartsAreScratch(d, q, q.first, x.value);
      StagingPartsAreScratch(ApplyAll(d, one.ops), q, Other(q.first), x.value);
      ScratchThen(one, Measure(ApplyAll(d, one.ops), Other(q.first)));
      var p1 := MeasureBoth(d, q.first);
      StagingPartsAreScratch(ApplyAll(d, p1.ops), q, q.first, x.value);
      ScratchThen(p1, StagePublic(ApplyAll(d, p1.ops), q));
      var p2 := Then(p1, StagePublic(ApplyAll(d, p1.ops), q));
      StageManifestsIsScratch(ApplyAll(d, p2.ops), q, x.value, y.value);
      ScratchThen(p2, StageManifests(ApplyAll(d, p2.ops), q, x.value, y.value));
      var p3 := Then(p2, StageManifests(ApplyAll(d, p2.ops), q, x.value, y.value));
      StageProvenancesIsScratch(ApplyAll(d, p3.ops), q);
      ScratchThen(p3, StageProvenances(ApplyAll(d, p3.ops), q));
    }
  }

  lemma ScratchPhase(d: Disk, ops: seq<Op>, d': Disk)
    requires ScratchOps(ops) && CrashState(d, ops, d')
    ensures forall p: Path | !ScratchFile(p.file) :: At(d', p) == At(d, p)
    ensures Targets(d') == Targets(d)
    ensures Marked(d') <==> Marked(d)
  {
    forall p: Path | !ScratchFile(p.file) ensures At(d', p) == At(d, p) {
      CrashFrame(d, ops, d', p);
    }
    VersionFrame(d, ops, d');
    assert forall s: Side :: Path(s, Marker) in d <==> At(d, Path(s, Marker)).Some?;
    assert forall s: Side :: Path(s, Marker) in d' <==> At(d', Path(s, Marker)).Some?;
  }

  /** Every state an interrupted run may leave keeps the invariant, with the
      version this run staged added to the allowed ones. */
  lemma RunKeepsInv(d: Disk, q: Request, V: set<Six>, d': Disk)
    requires Inv(d, V)
    requires CrashState(d, Run(d, q).ops, d')
    ensures Inv(d', V + Versions(StagedVersion(d, q)))
  {
    var V' := V + Versions(StagedVersion(d, q));
    if q.independent {
      if Marked(d) {
        CommitKeepsInv(d, q, V, d');
      } else {
        FreshRunKeepsInv(d, q, V, d');
      }
    }
  }

  lemma FreshRunKeepsInv(d: Disk, q: Request, V: set<Six>, d': Disk)
    requires q.independent && !Marked(d) && Targets(d) in V
    requires CrashState(d, Run(d, q).ops, d')
    ensures Inv(d', V + Versions(StagedVersion(d, q)))
  {
    var V' := V + Versions(StagedVersion(d, q));
    var c := CleanupOps(q.first);
    var d1 := ApplyAll(d, c);
    EndIsCrashState(d, c);
    CleanupPhase(d, q.first, d1);
    var s := StageAll(d1, q);
    var d2 := ApplyAll(d1, s.ops);
    EndIsCrashState(d1, s.ops);
    StageAllIsScratch(d1, q);
    ScratchPhase(d1, s.ops, d2);
    ApplyAllAppend(d, c, s.ops);
    var m := MarkerOps(q.first);
    var d3 := ApplyAll(d2, m);
    EndIsCrashState(d2, m);
    MarkerPhase(d2, q.first, d3);
    ApplyAllAppend(d, c + s.ops, m);
    if s.ok {
      MixedWithOld(Targets(d), Stages(d2));
      assert Inv(d3, V');
      var rest := Commit(d3, q).ops;
      assert Run(d, q).ops == c + s.ops + m + rest;
      CrashSplit(d, c + s.ops + m, rest, d');
      if CrashState(d, c + s.ops + m, d') {
        CrashSplit(d, c + s.ops, m, d');
      } else {
        CommitKeepsInv(d3, q, V', d');
      }
    }
    if CrashState(d, c + s.ops, d') {
      CrashSplit(d, c, s.ops, d');
      if CrashState(d, c, d') {
        CleanupPhase(d, q.first, d');
      } else {
        ScratchPhase(d1, s.ops, d');
      }
    } else if CrashState(d2, m, d') {
      MarkerPhase(d2, q.first, d');
      MixedWithOld(Targets(d), Stages(d2));
    }
  }

  lemma MixedWithOld(x: Six, next: Six)
    ensures Mixed(x, x, next)
  {
  }

  // ---------------------------------------------------------------- any number of runs

  /** `states[i + 1]` is what the i-th run left behind, complete or interrupted. */
  ghost predicate History(states: seq<Disk>, runs: seq<Request>, staged: seq<Option<Six>>) {
    && |states| == |runs| + 1 && |staged| == |runs|
    && forall i: nat | i < |runs| :: Interrupted(states, runs, staged, i)
  }

  /** Run i, complete or interrupted, leads from state i to the next. It stages the
      given version, if its staging can be completed at all. */
  ghost predicate Interrupted(states: seq<Disk>, runs: seq<Request>, staged: seq<Option<Six>>, i: nat)
    requires |states| == |runs| + 1 && |staged| == |runs| && i < |runs|
  {
    CrashState(states[i], Run(states[i], runs[i]).ops, states[i + 1]) && staged[i] == StagedVersion(states[i], runs[i])
  }

  /** The original version and those the first `n` runs staged completely. */
  function VersionsUpTo(original: Six, staged: seq<Option<Six>>, n: nat): set<Six>
    requires n <= |staged|
  {
    if n == 0 then {original} else VersionsUpTo(original, staged, n - 1) + Versions(staged[n - 1])
  }

  lemma HistoryStep(states: seq<Disk>, runs: seq<Request>, staged: seq<Option<Six>>, n: nat, V: set<Six>)
    requires History(states, runs, staged) && n < |runs| && Inv(states[n], V)
    ensures Inv(states[n + 1], V + Versions(staged[n]))
  {
    assert Interrupted(states, runs, staged, n);
    RunKeepsInv(states[n], runs[n], V, states[n + 1]);
  }

  lemma {:induction false} HistoryKeepsInv(states: seq<Disk>, runs: seq<Request>, staged: seq<Option<Six>>, n: nat)
    requires History(states, runs, staged) && !Marked(states[0])
    requires n <= |runs|
    ensures Inv(states[n], VersionsUpTo(Targets(states[0]), staged, n))
  {
    if n > 0 {
      HistoryKeepsInv(states, runs, staged, n - 1);
      HistoryStep(states, runs, staged, n - 1, VersionsUpTo(Targets(states[0]), staged, n - 1));
    }
  }

  /** Atomic commit: whenever neither directory holds a marker, the six promoted
      files are all of one version, which is the original one or one that a single
      run staged completely. While a marker is there, every file is of one of two
      such versions. */
  lemma AtomicPairCommit(states: seq<Disk>, runs: seq<Request>, staged: seq<Option<Six>>, n: nat)
    requires History(states, runs, staged) && !Marked(states[0])
    requires n <= |runs|
    ensures var V := VersionsUpTo(Targets(states[0]), staged, n);
            && (!Marked(states[n]) ==> Targets(states[n]) in V)
            && (exists x <- V, y <- V :: Mixed(Targets(states[n]), x, y))
  {
    HistoryKeepsInv(states, runs, staged, n);
    MixedWithOld(Targets(states[n]), Targets(states[n]));
  }
}
