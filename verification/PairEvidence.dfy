/** What a transaction stages: hashes that fit the files beside them, contents that
    do not depend on when the staging happens, and measurements that are never lost. */
module PairEvidence {
  import opened Outcomes
  import opened Consensus
  import opened PairPlan
  import opened PairSafety
  import opened PairRecovery

  // ---------------------------------------------------------------- the stages in detail

  lemma ThenEnds(d: Disk, a: Plan, b: Plan, e: Disk)
    requires Then(a, b).ok && e == ApplyAll(d, a.ops)
    ensures a.ok && b.ok && ApplyAll(d, Then(a, b).ops) == ApplyAll(e, b.ops)
  {
    ApplyAllAppend(d, a.ops, b.ops);
  }

  /** The manifests staging starts from. */
  lemma StagingStarts(d: Disk, q: Request)
    requires StageAll(d, q).ok
    ensures ManifestAt(d, Path(q.first, Target(Manifest))).Some? && ManifestAt(d, Path(Other(q.first), Target(Manifest))).Some?
    ensures SameManifest(ManifestAt(d, Path(q.first, Target(Manifest))).value, ManifestAt(d, Path(Other(q.first), Target(Manifest))).value)
  {
  }

  /** The disks staging passes through. */
  lemma StagingPath(d: Disk, q: Request, x: ManifestData, y: ManifestData, d1: Disk, d2: Disk, d3: Disk)
    requires StageAll(d, q).ok
    requires ManifestAt(d, Path(q.first, Target(Manifest))) == Some(x)
    requires ManifestAt(d, Path(Other(q.first), Target(Manifest))) == Some(y)
    requires d1 == ApplyAll(d, MeasureBoth(d, q.first).ops)
    requires d2 == ApplyAll(d1, StagePublic(d1, q).ops)
    requires d3 == ApplyAll(d2, StageManifests(d2, q, x, y).ops)
    ensures MeasureBoth(d, q.first).ok && StagePublic(d1, q).ok && StageManifests(d2, q, x, y).ok && StageProvenances(d3, q).ok
    ensures ApplyAll(d, StageAll(d, q).ops) == ApplyAll(d3, StageProvenances(d3, q).ops)
  {
    var p1 := MeasureBoth(d, q.first);
    var p2 := Then(p1, StagePublic(d1, q));
    ThenEnds(d, p1, StagePublic(d1, q), d1);
    var p3 := Then(p2, StageManifests(d2, q, x, y));
    ThenEnds(d, p2, StageManifests(d2, q, x, y), d2);
    ThenEnds(d, p3, StageProvenances(d3, q), d3);
  }

  lemma MeasureOne(d: Disk, s: Side)
    requires Measure(d, s).ok
    ensures var e := ApplyAll(d, Measure(d, s).ops);
            && At(e, Path(s, RawMeasured)) == Measured(d, s) && Measured(d, s).Some?
            && forall p: Path | p != Path(s, RawMeasured) :: At(e, p) == At(d, p)
  {
    var ops := Measure(d, s).ops;
    if ops != [] {
      assert ApplyAll(d, ops) == ApplyAll(Apply(d, ops[0]), []) == Apply(d, ops[0]);
    }
  }

  lemma MeasureFacts(d: Disk, first: Side)
    requires MeasureBoth(d, first).ok
    ensures var e := ApplyAll(d, MeasureBoth(d, first).ops);
            && (forall s: Side :: At(e, Path(s, RawMeasured)) == Measured(d, s) == Measured(e, s) && Measured(d, s).Some?)
            && forall p: Path | !p.file.RawMeasured? :: At(e, p) == At(d, p)
  {
    var one := Measure(d, first);
    var d1 := ApplyAll(d, one.ops);
    MeasureOne(d, first);
    var two := Measure(d1, Other(first));
    MeasureOne(d1, Other(first));
    ApplyAllAppend(d, one.ops, two.ops);
    var e := ApplyAll(d1, two.ops);
    assert At(d1, Path(Other(first), RawMeasured)) == At(d, Path(Other(first), RawMeasured));
    assert At(d1, Path(Other(first), Target(PublicTelemetry))) == At(d, Path(Other(first), Target(PublicTelemetry)));
    forall s: Side
      ensures At(e, Path(s, RawMeasured)) == Measured(d, s) == Measured(e, s) && Measured(d, s).Some?
    {
      assert s == first || s == Other(first);
      assert Path(s, RawMeasured) in e <==> At(e, Path(s, RawMeasured)).Some?;
    }
  }

  lemma TwoOps(d: Disk, x: Op, y: Op)
    ensures ApplyAll(d, [x, y]) == Apply(Apply(d, x), y)
  {
    assert [x, y][1..] == [y] && [y][1..] == [];
    assert ApplyAll(d, [x, y]) == ApplyAll(Apply(d, x), [y]) == ApplyAll(Apply(Apply(d, x), y), []);
  }

  /** The canonical rows a successful staging of the public telemetry writes. */
  lemma PublicRows(d: Disk, q: Request) returns (rows: seq<Row>)
    requires StagePublic(d, q).ok
    ensures Measured(d, q.first).Some? && Measured(d, Other(q.first)).Some?
    ensures Canonical(LinesOf(Measured(d, q.first).value), LinesOf(Measured(d, Other(q.first)).value), q.rules) == Ok(rows)
    ensures StagePublic(d, q).ops == [Write(Path(q.first, Stage(PublicTelemetry)), Telemetry(Lines(rows))),
                                      Copy(Path(q.first, Stage(PublicTelemetry)), Path(Other(q.first), Stage(PublicTelemetry)))]
  {
    var x, y := LinesOf(Measured(d, q.first).value), LinesOf(Measured(d, Other(q.first)).value);
    rows := Canonical(x, y, q.rules).value;
    AcceptedPrefixIsWhole(x, y, q.rules);
  }

  lemma PublicFacts(d: Disk, q: Request) returns (rows: seq<Row>)
    requires StagePublic(d, q).ok
    ensures Measured(d, q.first).Some? && Measured(d, Other(q.first)).Some?
    ensures Canonical(LinesOf(Measured(d, q.first).value), LinesOf(Measured(d, Other(q.first)).value), q.rules) == Ok(rows)
    ensures var e := ApplyAll(d, StagePublic(d, q).ops);
            && (forall s: Side :: At(e, Path(s, Stage(PublicTelemetry))) == Some(Telemetry(Lines(rows))))
            && forall p: Path | p.file != Stage(PublicTelemetry) :: At(e, p) == At(d, p)
  {
    rows := PublicRows(d, q);
    var ops := StagePublic(d, q).ops;
    TwoOps(d, ops[0], ops[1]);
    PublicWritten(d, q.first, Telemetry(Lines(rows)), ApplyAll(d, ops));
  }

  lemma PublicWritten(d: Disk, first: Side, c: Content, e: Disk)
    requires e == Apply(Apply(d, Write(Path(first, Stage(PublicTelemetry)), c)),
                        Copy(Path(first, Stage(PublicTelemetry)), Path(Other(first), Stage(PublicTelemetry))))
    ensures forall s: Side :: At(e, Path(s, Stage(PublicTelemetry))) == Some(c)
    ensures forall p: Path | p.file != Stage(PublicTelemetry) :: At(e, p) == At(d, p)
  {
    forall s: Side ensures At(e, Path(s, Stage(PublicTelemetry))) == Some(c) {
      assert s == first || s == Other(first);
    }
  }

  /** The recorded hashes depend only on the files that are hashed. */
  lemma {:induction false} HashAllFrame(d: Disk, d': Disk, xs: Sources, ys: Sources, sha: Content -> Hash)
    requires |xs| == |ys|
    requires forall i | 0 <= i < |xs| :: xs[i].0 == ys[i].0 && At(d', ys[i].1) == At(d, xs[i].1)
    ensures HashAll(d', ys, sha) == HashAll(d, xs, sha)
    decreases |xs|
  {
    if xs != [] {
      var n := |xs| - 1;
      HashAllFrame(d, d', xs[..n], ys[..n], sha);
      assert At(d', ys[n].1) == At(d, xs[n].1);
    }
  }

  lemma HashEntriesFrame(d: Disk, d': Disk, s: Side, t: Side, entries: seq<PathEntry>, sha: Content -> Hash)
    requires forall e <- entries :: At(d', HashSource(t, e)) == At(d, HashSource(s, e))
    ensures HashEntries(d', t, entries, sha) == HashEntries(d, s, entries, sha)
  {
    HashAllFrame(d, d', EntrySources(s, entries), EntrySources(t, entries), sha);
  }

  lemma WriteOne(d: Disk, p: Path, c: Content)
    ensures ApplyAll(d, [Write(p, c)]) == d[p := c]
  {
    assert ApplyAll(d, [Write(p, c)]) == ApplyAll(d[p := c], []);
  }

  lemma ManifestFacts(d: Disk, q: Request, x: ManifestData, y: ManifestData) returns (m: ManifestData)
    requires StageManifests(d, q, x, y).ok
    ensures StagedManifest(d, q.first, x, q.sha) == Some(m) == StagedManifest(d, Other(q.first), y, q.sha)
    ensures var e := ApplyAll(d, StageManifests(d, q, x, y).ops);
            && (forall s: Side :: At(e, Path(s, Stage(Manifest))) == Some(ManifestDoc(m)))
            && forall p: Path | p.file != Stage(Manifest) :: At(e, p) == At(d, p)
  {
    var one := StageManifest(d, q.first, x, q.sha);
    m := StagedManifest(d, q.first, x, q.sha).value;
    var d1 := ApplyAll(d, one.ops);
    WriteOne(d, Path(q.first, Stage(Manifest)), ManifestDoc(m));
    HashEntriesFrame(d, d1, Other(q.first), Other(q.first), y.hashed, q.sha);
    var m' := StagedManifest(d, Other(q.first), y, q.sha).value;
    var two := StageManifest(d1, Other(q.first), y, q.sha);
    WriteOne(d1, Path(Other(q.first), Stage(Manifest)), ManifestDoc(m'));
    ApplyAllAppend(d, one.ops, two.ops);
    var e := ApplyAll(d1, two.ops);
    assert e == d1[Path(Other(q.first), Stage(Manifest)) := ManifestDoc(m')];
    assert At(e, Path(q.first, Stage(Manifest))) == Some(ManifestDoc(m));
    assert m == m';
    forall s: Side ensures At(e, Path(s, Stage(Manifest))) == Some(ManifestDoc(m)) {
      assert s == q.first || s == Other(q.first);
    }
  }

  lemma ProvenanceFrame(d: Disk, d': Disk, s: Side, m: ManifestData, sha: Content -> Hash)
    requires forall f <- ProvenanceNames(m) :: At(d', ProvenanceSource(s, f)) == At(d, ProvenanceSource(s, f))
    ensures StagedProvenance(d', s, m, sha) == StagedProvenance(d, s, m, sha)
  {
    var sources := NameSources(s, ProvenanceNames(m));
    HashAllFrame(d, d', sources, sources, sha);
  }

  lemma ProvenanceFacts(d: Disk, q: Request, m: ManifestData)
    requires StageProvenances(d, q).ok
    requires forall s: Side :: At(d, Path(s, Stage(Manifest))) == Some(ManifestDoc(m))
    ensures var e := ApplyAll(d, StageProvenances(d, q).ops);
            && (forall s: Side :: StagedProvenance(d, s, m, q.sha).Some?
                  && At(e, Path(s, Stage(Provenance))) == Some(ProvenanceDoc(StagedProvenance(d, s, m, q.sha).value)))
            && forall p: Path | p.file != Stage(Provenance) :: At(e, p) == At(d, p)
  {
    assert ManifestAt(d, Path(q.first, Stage(Manifest))) == Some(m) == ManifestAt(d, Path(Other(q.first), Stage(Manifest)));
    var one := StageProvenance(d, q.first, m, q.sha);
    var v1 := StagedProvenance(d, q.first, m, q.sha).value;
    var d1 := ApplyAll(d, one.ops);
    WriteOne(d, Path(q.first, Stage(Provenance)), ProvenanceDoc(v1));
    ProvenanceFrame(d, d1, Other(q.first), m, q.sha);
    var v2 := StagedProvenance(d, Other(q.first), m, q.sha).value;
    var two := StageProvenance(d1, Other(q.first), m, q.sha);
    WriteOne(d1, Path(Other(q.first), Stage(Provenance)), ProvenanceDoc(v2));
    ApplyAllAppend(d, one.ops, two.ops);
    var e := ApplyAll(d1, two.ops);
    assert At(e, Path(q.first, Stage(Provenance))) == At(d1, Path(q.first, Stage(Provenance)));
    forall s: Side
      ensures StagedProvenance(d, s, m, q.sha).Some?
      ensures At(e, Path(s, Stage(Provenance))) == Some(ProvenanceDoc(StagedProvenance(d, s, m, q.sha).value))
    {
      assert s == q.first || s == Other(q.first);
    }
  }

  // ---------------------------------------------------------------- hashes that fit

  /** The names the harness writes into its manifest: the public telemetry under
      its own role, and otherwise files the finalizer leaves alone. */
  predicate StableNames(m: ManifestData) {
    && PathEntry(true, Target(PublicTelemetry)) in m.hashed
    && (forall e <- m.hashed :: if e.isPublicTelemetry then e.file == Target(PublicTelemetry) else Kept(e.file))
    && m.provenance == Some(Target(Provenance))
  }

  /** The part of a manifest that staging starts from. */
  predicate SameRecipe(x: ManifestData, y: ManifestData) {
    x.hashed == y.hashed && x.provenance == y.provenance && x.fields == y.fields
  }

  /** Directory `s` holds a complete set of stages for manifest `m` and canonical `rows`. */
  ghost predicate StagedSide(e: Disk, s: Side, sha: Content -> Hash, rows: seq<Row>, m: ManifestData) {
    && At(e, Path(s, Stage(PublicTelemetry))) == Some(Telemetry(Lines(rows)))
    && At(e, Path(s, Stage(Manifest))) == Some(ManifestDoc(m))
    && StagedProvenance(e, s, m, sha).Some?
    && At(e, Path(s, Stage(Provenance))) == Some(ProvenanceDoc(StagedProvenance(e, s, m, sha).value))
    && HashEntries(e, s, m.hashed, sha) == Some(m.artifactHashes)
  }

  /** Both directories do, with one public file and one manifest between them. */
  ghost predicate StagedSet(e: Disk, sha: Content -> Hash, rows: seq<Row>, m: ManifestData) {
    StagedSide(e, A, sha, rows, m) && StagedSide(e, B, sha, rows, m)
  }

  /** The hashes were taken before the last stages were written; those stages are
      not among the hashed files, so the hashes still fit the finished set. */
  lemma StagedSideFacts(d2: Disk, d3: Disk, e: Disk, s: Side, sha: Content -> Hash, rows: seq<Row>, m: ManifestData)
    requires At(d2, Path(s, Stage(PublicTelemetry))) == Some(Telemetry(Lines(rows)))
    requires HashEntries(d2, s, m.hashed, sha) == Some(m.artifactHashes)
    requires At(d3, Path(s, Stage(Manifest))) == Some(ManifestDoc(m))
    requires forall p: Path | p.file != Stage(Manifest) :: At(d3, p) == At(d2, p)
    requires StagedProvenance(d3, s, m, sha).Some?
    requires At(e, Path(s, Stage(Provenance))) == Some(ProvenanceDoc(StagedProvenance(d3, s, m, sha).value))
    requires forall p: Path | p.file != Stage(Provenance) :: At(e, p) == At(d3, p)
    requires StableNames(m) && m.rawAttestation == Some(RawAttestation) && m.rawMeasured == Some(RawMeasured)
    ensures StagedSide(e, s, sha, rows, m)
  {
    forall n <- m.hashed ensures At(e, HashSource(s, n)) == At(d2, HashSource(s, n)) {
      assert HashSource(s, n).file != Stage(Manifest) && HashSource(s, n).file != Stage(Provenance);
    }
    HashEntriesFrame(d2, e, s, s, m.hashed, sha);
    ProvenanceSourcesStay(m);
    ProvenanceFrame(d3, e, s, m, sha);
  }

  /** The public rows are the consensus of the measurements, which are now in
      their raw copies; the files that are not scratch are as before. */
  ghost predicate StagedMeasurements(d: Disk, q: Request, e: Disk, rows: seq<Row>) {
    && (forall s: Side :: Measured(d, s).Some?)
    && Canonical(LinesOf(Measured(d, q.first).value), LinesOf(Measured(d, Other(q.first)).value), q.rules) == Ok(rows)
    && (forall s: Side :: At(e, Path(s, RawMeasured)) == Measured(d, s))
    && (forall p: Path | !ScratchFile(p.file) :: At(e, p) == At(d, p))
  }

  lemma ManifestHashes(d: Disk, s: Side, x: ManifestData, sha: Content -> Hash, m: ManifestData)
    requires StagedManifest(d, s, x, sha) == Some(m)
    ensures m == Finalized(x, m.artifactHashes) && HashEntries(d, s, m.hashed, sha) == Some(m.artifactHashes)
  {
  }

  lemma StagedTail(d2: Disk, q: Request, x: ManifestData, y: ManifestData, d3: Disk, e: Disk, rows: seq<Row>)
    returns (m: ManifestData)
    requires StableNames(x) && SameManifest(x, y)
    requires forall s: Side :: At(d2, Path(s, Stage(PublicTelemetry))) == Some(Telemetry(Lines(rows)))
    requires StageManifests(d2, q, x, y).ok && d3 == ApplyAll(d2, StageManifests(d2, q, x, y).ops)
    requires StageProvenances(d3, q).ok && e == ApplyAll(d3, StageProvenances(d3, q).ops)
    ensures m == Finalized(x, m.artifactHashes)
    ensures StagedSet(e, q.sha, rows, m)
    ensures forall p: Path | p.file != Stage(Manifest) && p.file != Stage(Provenance) :: At(e, p) == At(d2, p)
  {
    m := ManifestFacts(d2, q, x, y);
    ProvenanceFacts(d3, q, m);
    ManifestHashes(d2, q.first, x, q.sha, m);
    ManifestHashes(d2, Other(q.first), y, q.sha, m);
    forall s: Side ensures StagedSide(e, s, q.sha, rows, m) {
      assert s == q.first || s == Other(q.first);
      StagedSideFacts(d2, d3, e, s, q.sha, rows, m);
    }
  }

  lemma StagedHead(d: Disk, q: Request, d1: Disk, d2: Disk) returns (rows: seq<Row>)
    requires MeasureBoth(d, q.first).ok && d1 == ApplyAll(d, MeasureBoth(d, q.first).ops)
    requires StagePublic(d1, q).ok && d2 == ApplyAll(d1, StagePublic(d1, q).ops)
    ensures forall s: Side :: At(d2, Path(s, Stage(PublicTelemetry))) == Some(Telemetry(Lines(rows)))
    ensures StagedMeasurements(d, q, d2, rows)
  {
    MeasureFacts(d, q.first);
    rows := PublicFacts(d1, q);
  }

  /** What a successful staging leaves: one public file and one manifest for both
      directories, and provenance documents computed from them. */
  lemma StagedFacts(d: Disk, q: Request) returns (x: ManifestData, rows: seq<Row>, m: ManifestData, e: Disk)
    requires StageAll(d, q).ok
    requires ManifestAt(d, Path(q.first, Target(Manifest))).Some? ==>
               StableNames(ManifestAt(d, Path(q.first, Target(Manifest))).value)
    ensures ManifestAt(d, Path(q.first, Target(Manifest))) == Some(x)
    ensures m == Finalized(x, m.artifactHashes)
    ensures e == ApplyAll(d, StageAll(d, q).ops)
    ensures StagedSet(e, q.sha, rows, m)
    ensures StagedMeasurements(d, q, e, rows)
  {
    StagingStarts(d, q);
    x := ManifestAt(d, Path(q.first, Target(Manifest))).value;
    var y := ManifestAt(d, Path(Other(q.first), Target(Manifest))).value;
    var d1 := ApplyAll(d, MeasureBoth(d, q.first).ops);
    var d2 := ApplyAll(d1, StagePublic(d1, q).ops);
    var d3 := ApplyAll(d2, StageManifests(d2, q, x, y).ops);
    e := ApplyAll(d3, StageProvenances(d3, q).ops);
    StagingPath(d, q, x, y, d1, d2, d3);
    rows, m := StagedAlong(d, q, x, y, d1, d2, d3, e);
  }

  lemma StagedAlong(d: Disk, q: Request, x: ManifestData, y: ManifestData, d1: Disk, d2: Disk, d3: Disk, e: Disk)
    returns (rows: seq<Row>, m: ManifestData)
    requires StableNames(x) && SameManifest(x, y)
    requires MeasureBoth(d, q.first).ok && d1 == ApplyAll(d, MeasureBoth(d, q.first).ops)
    requires StagePublic(d1, q).ok && d2 == ApplyAll(d1, StagePublic(d1, q).ops)
    requires StageManifests(d2, q, x, y).ok && d3 == ApplyAll(d2, StageManifests(d2, q, x, y).ops)
    requires StageProvenances(d3, q).ok && e == ApplyAll(d3, StageProvenances(d3, q).ops)
    ensures m == Finalized(x, m.artifactHashes)
    ensures StagedSet(e, q.sha, rows, m) && StagedMeasurements(d, q, e, rows)
  {
    rows := StagedHead(d, q, d1, d2);
    m := StagedTail(d2, q, x, y, d3, e, rows);
    MeasurementsStay(d, q, d2, e, rows);
  }

  lemma MeasurementsStay(d: Disk, q: Request, d2: Disk, e: Disk, rows: seq<Row>)
    requires StagedMeasurements(d, q, d2, rows)
    requires forall p: Path | p.file != Stage(Manifest) && p.file != Stage(Provenance) :: At(e, p) == At(d2, p)
    ensures StagedMeasurements(d, q, e, rows)
  {
  }

  /** The manifest the finalizer derives from `x`. */
  function Finalized(x: ManifestData, hashes: map<File, Hash>): ManifestData {
    x.(rawAttestation := Some(RawAttestation), rawMeasured := Some(RawMeasured), consensus := true, artifactHashes := hashes)
  }

  lemma {:induction false} WithoutKeeps(names: seq<File>, f: File)
    ensures forall g: File :: g in Without(names, f) <==> g in names && g != f
  {
    if names != [] {
      var n := |names| - 1;
      WithoutKeeps(names[..n], f);
      assert names == names[..n] + [names[n]];
    }
  }

  lemma ProvenanceSourcesStay(m: ManifestData)
    requires StableNames(m) && m.rawAttestation == Some(RawAttestation) && m.rawMeasured == Some(RawMeasured)
    ensures forall f <- ProvenanceNames(m) :: f == Target(PublicTelemetry) || f == Target(Manifest) || Kept(f)
    ensures Target(PublicTelemetry) in ProvenanceNames(m) && Target(Manifest) in ProvenanceNames(m)
  {
    var names := EntryNames(m.hashed);
    var i :| 0 <= i < |m.hashed| && m.hashed[i] == PathEntry(true, Target(PublicTelemetry));
    assert names[i] == Target(PublicTelemetry);
    forall f <- names ensures f == Target(PublicTelemetry) || Kept(f) {
      var k :| 0 <= k < |names| && names[k] == f;
      assert m.hashed[k] in m.hashed;
    }
    WithoutKeeps(names + Listed(m.provenance) + Listed(m.rawAttestation) + Listed(m.rawMeasured), Target(Provenance));
    assert [Target(Manifest), RawAttestation, RawMeasured][0] == Target(Manifest);
  }

  /** No name stands for two files. */
  predicate OneSource(xs: Sources) {
    forall i, j | 0 <= i < j < |xs| && xs[i].0 == xs[j].0 :: xs[i].1 == xs[j].1
  }

  predicate Fits(h: map<File, Hash>, d: Disk, name: File, path: Path, sha: Content -> Hash) {
    name in h && path in d && h[name] == sha(d[path])
  }

  /** Then every recorded hash is the hash of the file its name stands for. */
  lemma {:induction false} HashAllMeaning(d: Disk, xs: Sources, sha: Content -> Hash)
    requires OneSource(xs) && HashAll(d, xs, sha).Some?
    ensures var h := HashAll(d, xs, sha).value;
            && (forall i | 0 <= i < |xs| :: Fits(h, d, xs[i].0, xs[i].1, sha))
            && (forall f <- h :: exists i :: 0 <= i < |xs| && xs[i].0 == f)
    decreases |xs|
  {
    if xs != [] {
      var n := |xs| - 1;
      var h, before := HashAll(d, xs, sha).value, HashAll(d, xs[..n], sha).value;
      HashAllMeaning(d, xs[..n], sha);
      forall i | 0 <= i < |xs| ensures Fits(h, d, xs[i].0, xs[i].1, sha) {
        if i < n {
          assert Fits(before, d, xs[..n][i].0, xs[..n][i].1, sha);
        }
      }
      forall f <- h ensures exists i :: 0 <= i < |xs| && xs[i].0 == f {
        if f != xs[n].0 {
          var i :| 0 <= i < n && xs[..n][i].0 == f;
          assert xs[i].0 == f;
        }
      }
    }
  }

  /** Under stable names every hash of the manifest is the hash of its own source. */
  lemma HashEntriesMeaning(d: Disk, s: Side, entries: seq<PathEntry>, sha: Content -> Hash)
    requires forall e <- entries :: if e.isPublicTelemetry then e.file == Target(PublicTelemetry) else Kept(e.file)
    requires HashEntries(d, s, entries, sha).Some?
    ensures var h := HashEntries(d, s, entries, sha).value;
            && (forall e <- entries :: Fits(h, d, e.file, HashSource(s, e), sha))
            && (forall f <- h :: exists e <- entries :: e.file == f)
  {
    var xs := EntrySources(s, entries);
    forall i, j | 0 <= i < j < |xs| && xs[i].0 == xs[j].0 ensures xs[i].1 == xs[j].1 {
      assert entries[i] in entries && entries[j] in entries;
    }
    HashAllMeaning(d, xs, sha);
    var h := HashAll(d, xs, sha).value;
    forall e <- entries ensures Fits(h, d, e.file, HashSource(s, e), sha) {
      var i :| 0 <= i < |entries| && entries[i] == e;
      assert Fits(h, d, xs[i].0, xs[i].1, sha);
    }
    forall f <- h ensures exists e <- entries :: e.file == f {
      var i :| 0 <= i < |xs| && xs[i].0 == f;
      assert entries[i] in entries && entries[i].file == f;
    }
  }

  /** The provenance records the hash of every name it lists, and of no other. */
  lemma ProvenanceMeaning(d: Disk, s: Side, m: ManifestData, sha: Content -> Hash)
    requires StagedProvenance(d, s, m, sha).Some?
    ensures var h := StagedProvenance(d, s, m, sha).value.artifactHashes;
            && (forall f <- ProvenanceNames(m) :: Fits(h, d, f, ProvenanceSource(s, f), sha))
            && (forall f <- h :: f in ProvenanceNames(m))
  {
    var names := ProvenanceNames(m);
    var xs := NameSources(s, names);
    HashAllMeaning(d, xs, sha);
    var h := HashAll(d, xs, sha).value;
    forall f <- names ensures Fits(h, d, f, ProvenanceSource(s, f), sha) {
      var i :| 0 <= i < |names| && names[i] == f;
      assert Fits(h, d, xs[i].0, xs[i].1, sha);
    }
    forall f <- h ensures f in names {
      var i :| 0 <= i < |xs| && xs[i].0 == f;
      assert names[i] == f;
    }
  }

  /** The check the verifier makes in one directory: every recorded hash is the
      hash of the file of that name, and the two documents belong together. */
  ghost predicate HashesVerify(z: Disk, s: Side, sha: Content -> Hash) {
    exists m: ManifestData, v: ProvenanceData ::
      && At(z, Path(s, Target(Manifest))) == Some(ManifestDoc(m))
      && At(z, Path(s, Target(Provenance))) == Some(ProvenanceDoc(v))
      && v.fields == m.fields
      && Target(PublicTelemetry) in m.artifactHashes
      && Target(PublicTelemetry) in v.artifactHashes && Target(Manifest) in v.artifactHashes
      && (forall f <- m.artifactHashes :: Path(s, f) in z && m.artifactHashes[f] == sha(z[Path(s, f)]))
      && (forall f <- v.artifactHashes :: Path(s, f) in z && v.artifactHashes[f] == sha(z[Path(s, f)]))
  }

  lemma PromotedFile(e: Disk, z: Disk, c: Job)
    requires Targets(z) == Stages(e)
    ensures At(z, Path(c.side, Target(c.artifact))) == At(e, Path(c.side, Stage(c.artifact)))
  {
    CellsAreFiles(z, c);
    CellsAreFiles(e, c);
  }

  /** Promoting a complete set of stages gives directories whose hashes all fit. */
  lemma PromotedSetVerifies(e: Disk, z: Disk, sha: Content -> Hash, rows: seq<Row>, m: ManifestData, s: Side)
    requires StagedSet(e, sha, rows, m)
    requires StableNames(m) && m.rawAttestation == Some(RawAttestation) && m.rawMeasured == Some(RawMeasured)
    requires Targets(z) == Stages(e)
    requires forall p: Path | Kept(p.file) :: At(z, p) == At(e, p)
    ensures HashesVerify(z, s, sha)
  {
    var v := StagedProvenance(e, s, m, sha).value;
    PromotedFile(e, z, Job(s, PublicTelemetry));
    PromotedFile(e, z, Job(s, Manifest));
    PromotedFile(e, z, Job(s, Provenance));
    ProvenanceSourcesStay(m);
    assert StagedSide(e, s, sha, rows, m);
    ManifestHashesFit(e, z, sha, m, s);
    ProvenanceHashesFit(e, z, sha, m, s);
    ProvenanceMeaning(e, s, m, sha);
    assert Fits(v.artifactHashes, e, Target(PublicTelemetry), ProvenanceSource(s, Target(PublicTelemetry)), sha);
    assert Fits(v.artifactHashes, e, Target(Manifest), ProvenanceSource(s, Target(Manifest)), sha);
  }

  lemma ManifestHashesFit(e: Disk, z: Disk, sha: Content -> Hash, m: ManifestData, s: Side)
    requires HashEntries(e, s, m.hashed, sha) == Some(m.artifactHashes) && StableNames(m)
    requires At(z, Path(s, Target(PublicTelemetry))) == At(e, Path(s, Stage(PublicTelemetry)))
    requires forall p: Path | Kept(p.file) :: At(z, p) == At(e, p)
    ensures forall f <- m.artifactHashes :: Path(s, f) in z && m.artifactHashes[f] == sha(z[Path(s, f)])
    ensures Target(PublicTelemetry) in m.artifactHashes
  {
    HashEntriesMeaning(e, s, m.hashed, sha);
    var public := PathEntry(true, Target(PublicTelemetry));
    assert public in m.hashed && Fits(m.artifactHashes, e, public.file, HashSource(s, public), sha);
    forall f <- m.artifactHashes ensures Path(s, f) in z && m.artifactHashes[f] == sha(z[Path(s, f)]) {
      var n :| n in m.hashed && n.file == f;
      assert Fits(m.artifactHashes, e, n.file, HashSource(s, n), sha);
      assert At(z, Path(s, f)) == At(e, HashSource(s, n));
    }
  }

  lemma ProvenanceHashesFit(e: Disk, z: Disk, sha: Content -> Hash, m: ManifestData, s: Side)
    requires StagedProvenance(e, s, m, sha).Some?
    requires StableNames(m) && m.rawAttestation == Some(RawAttestation) && m.rawMeasured == Some(RawMeasured)
    requires At(z, Path(s, Target(PublicTelemetry))) == At(e, Path(s, Stage(PublicTelemetry)))
    requires At(z, Path(s, Target(Manifest))) == At(e, Path(s, Stage(Manifest)))
    requires forall p: Path | Kept(p.file) :: At(z, p) == At(e, p)
    ensures var v := StagedProvenance(e, s, m, sha).value;
            forall f <- v.artifactHashes :: Path(s, f) in z && v.artifactHashes[f] == sha(z[Path(s, f)])
  {
    ProvenanceSourcesStay(m);
    ProvenanceMeaning(e, s, m, sha);
    var v := StagedProvenance(e, s, m, sha).value;
    forall f <- v.artifactHashes ensures Path(s, f) in z && v.artifactHashes[f] == sha(z[Path(s, f)]) {
      assert Fits(v.artifactHashes, e, f, ProvenanceSource(s, f), sha);
      assert At(z, Path(s, f)) == At(e, ProvenanceSource(s, f));
    }
  }
}
