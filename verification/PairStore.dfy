/** The finalizer itself: methods that change the files of both directories step by
    step. Each is proved to perform exactly the operations its plan lists; the
    ghost log records them in order, so an interruption is a prefix of the log. */
module PairStore {
  import opened Outcomes
  import opened Consensus
  import opened PairPlan
  import opened PairSafety

  class PairDisk {
    var files: Disk
    ghost var log: seq<Op>

    constructor (files: Disk)
      ensures this.files == files && log == []
    {
      this.files, log := files, [];
    }

    /** Since `before` and `logged`, exactly `ops` were performed. */
    ghost predicate Performed(before: Disk, logged: seq<Op>, ops: seq<Op>)
      reads this
    {
      files == ApplyAll(before, ops) && log == logged + ops
    }

    lemma Sequence(before: Disk, logged: seq<Op>, a: seq<Op>, b: seq<Op>)
      requires files == ApplyAll(ApplyAll(before, a), b) && log == logged + a + b
      ensures Performed(before, logged, a + b)
    {
      ApplyAllAppend(before, a, b);
      assert logged + a + b == logged + (a + b);
    }

    // ---- the four file operations

    method WriteFile(to: Path, content: Content)
      modifies this
      ensures Performed(old(files), old(log), [Write(to, content)]) && to in files
    {
      ghost var ops := [Write(to, content)];
      assert ApplyAll(files, ops) == ApplyAll(Apply(files, ops[0]), []);
      files := files[to := content];
      log := log + ops;
    }

    method CopyFile(src: Path, to: Path)
      requires src in files
      modifies this
      ensures Performed(old(files), old(log), [Copy(src, to)]) && to in files
    {
      ghost var ops := [Copy(src, to)];
      assert ApplyAll(files, ops) == ApplyAll(Apply(files, ops[0]), []);
      files := files[to := files[src]];
      log := log + ops;
    }

    method RenameFile(src: Path, to: Path)
      requires src in files
      modifies this
      ensures Performed(old(files), old(log), [Rename(src, to)])
    {
      ghost var ops := [Rename(src, to)];
      assert ApplyAll(files, ops) == ApplyAll(Apply(files, ops[0]), []);
      files := (files - {src})[to := files[src]];
      log := log + ops;
    }

    method UnlinkFile(at: Path)
      modifies this
      ensures Performed(old(files), old(log), [Unlink(at)])
    {
      ghost var ops := [Unlink(at)];
      assert ApplyAll(files, ops) == ApplyAll(Apply(files, ops[0]), []);
      files := files - {at};
      log := log + ops;
    }

    // ---- promotion

    /** `_promote_file` */
    method Promote(job: Job) returns (ok: bool)
      modifies this
      ensures ok <==> Path(job.side, Stage(job.artifact)) in old(files)
      ensures Performed(old(files), old(log), if ok then PromoteFile(job) else [])
    {
      var stage, promote := Path(job.side, Stage(job.artifact)), Path(job.side, PairPlan.Promote(job.artifact));
      if stage !in files {
        return false;
      }
      CopyFile(stage, promote);
      RenameFile(promote, Path(job.side, Target(job.artifact)));
      Sequence(old(files), old(log), [Copy(stage, promote)], [Rename(promote, Path(job.side, Target(job.artifact)))]);
      ok := true;
    }

    /** `_write_transaction_markers` */
    method WriteTransactionMarkers(first: Side)
      modifies this
      ensures Performed(old(files), old(log), MarkerOps(first))
    {
      var order := [first, Other(first)];
      var doc := MarkerDoc(first, Other(first));
      for i := 0 to 2
        invariant Performed(old(files), old(log), MarkerOps(first)[..2 * i])
      {
        var temporary := Path(order[i], MarkerTmp);
        ghost var done := MarkerOps(first)[..2 * i];
        WriteFile(temporary, doc);
        RenameFile(temporary, Path(order[i], Marker));
        Sequence(ApplyAll(old(files), done), old(log) + done, [Write(temporary, doc)], [Rename(temporary, Path(order[i], Marker))]);
        Sequence(old(files), old(log), done, [Write(temporary, doc)] + [Rename(temporary, Path(order[i], Marker))]);
        assert MarkerOps(first)[..2 * i + 2] == done + ([Write(temporary, doc)] + [Rename(temporary, Path(order[i], Marker))]);
      }
      assert MarkerOps(first)[..4] == MarkerOps(first);
    }

    method CleanDirectory(s: Side)
      modifies this
      ensures Performed(old(files), old(log), CleanSide(s))
    {
      UnlinkFile(Path(s, Marker));
      assert CleanSide(s)[..1] == [Unlink(Path(s, Marker))];
      for i := 0 to 3
        invariant Performed(old(files), old(log), CleanSide(s)[..1 + 2 * i])
      {
        ghost var done := CleanSide(s)[..1 + 2 * i];
        var stage, promote := Path(s, Stage(PROMOTED[i])), Path(s, PairPlan.Promote(PROMOTED[i]));
        UnlinkFile(stage);
        UnlinkFile(promote);
        Sequence(ApplyAll(old(files), done), old(log) + done, [Unlink(stage)], [Unlink(promote)]);
        Sequence(old(files), old(log), done, [Unlink(stage)] + [Unlink(promote)]);
        assert CleanSide(s)[..3 + 2 * i] == done + ([Unlink(stage)] + [Unlink(promote)]);
      }
      assert CleanSide(s)[..7] == CleanSide(s);
    }

    /** `_cleanup_transaction` */
    method CleanupTransaction(first: Side)
      modifies this
      ensures Performed(old(files), old(log), CleanupOps(first))
    {
      CleanDirectory(first);
      CleanDirectory(Other(first));
      Sequence(old(files), old(log), CleanSide(first), CleanSide(Other(first)));
    }

    /** `resume_staged_transaction` */
    method ResumeStagedTransaction(first: Side) returns (ok: bool)
      modifies this
      ensures ok == Resume(old(files), first).ok
      ensures Performed(old(files), old(log), Resume(old(files), first).ops)
    {
      var order, expected := [first, Other(first)], MarkerDoc(first, Other(first));
      var markerCount := 0;
      for i := 0 to 2
        invariant files == old(files) && log == old(log)
        invariant forall k | 0 <= k < i :: Path(order[k], Marker) in files ==> files[Path(order[k], Marker)] == expected
        invariant markerCount == (if i > 0 && Path(order[0], Marker) in files then 1 else 0)
                               + (if i > 1 && Path(order[1], Marker) in files then 1 else 0)
      {
        if Path(order[i], Marker) in files {
          markerCount := markerCount + 1;
          if files[Path(order[i], Marker)] != expected {
            return false;
          }
        }
      }
      forall s: Side | Path(s, Marker) in files ensures files[Path(s, Marker)] == expected {
        assert s == order[0] || s == order[1];
      }
      if markerCount == 0 {
        return false;
      }
      var jobs := Jobs(first);
      for i := 0 to 6
        invariant files == old(files) && log == old(log)
        invariant forall k | 0 <= k < i :: Path(jobs[k].side, Stage(jobs[k].artifact)) in files
      {
        if Path(jobs[i].side, Stage(jobs[i].artifact)) !in files {
          return false;
        }
      }
      forall s: Side, a: Artifact ensures Path(s, Stage(a)) in files {
        CellsAreFiles(files, Job(s, a));
        assert Job(s, a) in Jobs(first) by { assert first == A || first == B; }
        var k :| 0 <= k < 6 && jobs[k] == Job(s, a);
      }
      assert AllStaged(files);
      ghost var m := if BothMarked(files) then [] else MarkerOps(first);
      if markerCount != 2 {
        WriteTransactionMarkers(first);
      }
      assert Performed(old(files), old(log), m);
      PromoteJobs(jobs);
      Sequence(old(files), old(log), m, PromoteOps(jobs));
      ok := true;
    }

    method PromoteJobs(jobs: seq<Job>)
      requires AllStaged(files)
      modifies this
      ensures Performed(old(files), old(log), PromoteOps(jobs))
    {
      assert jobs[..|jobs|] == jobs;
      for i := 0 to |jobs|
        invariant AllStaged(files)
        invariant Performed(old(files), old(log), PromoteOps(jobs[..i]))
      {
        ghost var done := PromoteOps(jobs[..i]);
        var ok := Promote(jobs[i]);
        EndIsCrashState(ApplyAll(old(files), done), PromoteFile(jobs[i]));
        StagesFrame(ApplyAll(old(files), done), PromoteFile(jobs[i]), files);
        Sequence(old(files), old(log), done, PromoteFile(jobs[i]));
        assert jobs[..i + 1][..i] == jobs[..i] && jobs[..i + 1][i] == jobs[i];
      }
    }

    // ---- staging

    /** `_measured_path` */
    method MeasureDirectory(s: Side) returns (ok: bool)
      modifies this
      ensures ok == Measure(old(files), s).ok
      ensures Performed(old(files), old(log), Measure(old(files), s).ops)
    {
      if Path(s, RawMeasured) in files {
        return true;
      }
      if Path(s, Target(PublicTelemetry)) !in files {
        return false;
      }
      CopyFile(Path(s, Target(PublicTelemetry)), Path(s, RawMeasured));
      ok := true;
    }

    method MeasureBothDirectories(first: Side) returns (ok: bool)
      modifies this
      ensures ok == MeasureBoth(old(files), first).ok
      ensures Performed(old(files), old(log), MeasureBoth(old(files), first).ops)
    {
      ok := MeasureDirectory(first);
      if ok {
        ok := MeasureDirectory(Other(first));
        Sequence(old(files), old(log), Measure(old(files), first).ops,
                 Measure(ApplyAll(old(files), Measure(old(files), first).ops), Other(first)).ops);
      }
    }

    /** The canonical public file of both directories. */
    method StagePublicTelemetry(q: Request) returns (ok: bool)
      modifies this
      ensures ok == StagePublic(old(files), q).ok
      ensures Performed(old(files), old(log), StagePublic(old(files), q).ops)
    {
      var first, second := Measured(files, q.first), Measured(files, Other(q.first));
      if first.None? || second.None? || q.sha(first.value) == q.sha(second.value) {
        return false;
      }
      var stage, other := Path(q.first, Stage(PublicTelemetry)), Path(Other(q.first), Stage(PublicTelemetry));
      var written, outcome := CanonicalizePair(LinesOf(first.value), LinesOf(second.value), q.rules);
      WriteFile(stage, Telemetry(Lines(written)));
      if outcome.Err? {
        return false;
      }
      WriteOneFile(old(files), stage, Telemetry(Lines(written)));
      CopyFile(stage, other);
      Sequence(old(files), old(log), [Write(stage, Telemetry(Lines(written)))], [Copy(stage, other)]);
      ok := true;
    }

    lemma WriteOneFile(d: Disk, p: Path, c: Content)
      ensures ApplyAll(d, [Write(p, c)]) == d[p := c]
    {
      assert ApplyAll(d, [Write(p, c)]) == ApplyAll(d[p := c], []);
    }

    /** `_canonical_artifact_hashes` */
    method CanonicalArtifactHashes(s: Side, entries: seq<PathEntry>, sha: Content -> Hash) returns (hashes: Option<map<File, Hash>>)
      ensures hashes == HashEntries(files, s, entries, sha)
    {
      hashes := HashFiles(EntrySources(s, entries), sha);
    }

    /** Hashes the listed files one after the other, and raises at a missing one. */
    method HashFiles(sources: Sources, sha: Content -> Hash) returns (hashes: Option<map<File, Hash>>)
      ensures hashes == HashAll(files, sources, sha)
    {
      var found: map<File, Hash> := map[];
      assert sources[..|sources|] == sources;
      for i := 0 to |sources|
        invariant HashAll(files, sources[..i], sha) == Some(found)
      {
        var (name, path) := sources[i];
        assert sources[..i + 1][..i] == sources[..i] && sources[..i + 1][i] == sources[i];
        if path !in files {
          MissingSource(files, sources, i + 1, sha);
          return None;
        }
        found := found[name := sha(files[path])];
      }
      hashes := Some(found);
    }

    /** `_build_staged_manifest` */
    method BuildStagedManifest(s: Side, m: ManifestData, sha: Content -> Hash) returns (ok: bool)
      modifies this
      ensures ok == StageManifest(old(files), s, m, sha).ok
      ensures Performed(old(files), old(log), StageManifest(old(files), s, m, sha).ops)
    {
      var hashes := CanonicalArtifactHashes(s, m.hashed, sha);
      if hashes.None? {
        return false;
      }
      var staged := m.(rawAttestation := Some(RawAttestation), rawMeasured := Some(RawMeasured),
                       consensus := true, artifactHashes := hashes.value);
      WriteFile(Path(s, Stage(Manifest)), ManifestDoc(staged));
      ok := true;
    }

    /** `_build_staged_provenance` */
    method BuildStagedProvenance(s: Side, m: ManifestData, sha: Content -> Hash) returns (ok: bool)
      modifies this
      ensures ok == StageProvenance(old(files), s, m, sha).ok
      ensures Performed(old(files), old(log), StageProvenance(old(files), s, m, sha).ops)
    {
      var hashes := HashFiles(NameSources(s, ProvenanceNames(m)), sha);
      if hashes.None? {
        return false;
      }
      WriteFile(Path(s, Stage(Provenance)), ProvenanceDoc(ProvenanceData(hashes.value, m.fields)));
      ok := true;
    }

    method BuildBothManifests(q: Request, x: ManifestData, y: ManifestData) returns (ok: bool)
      modifies this
      ensures ok == StageManifests(old(files), q, x, y).ok
      ensures Performed(old(files), old(log), StageManifests(old(files), q, x, y).ops)
    {
      ghost var one := StageManifest(files, q.first, x, q.sha);
      ok := BuildStagedManifest(q.first, x, q.sha);
      if ok {
        ghost var two := StageManifest(files, Other(q.first), y, q.sha);
        ok := BuildStagedManifest(Other(q.first), y, q.sha);
        Sequence(old(files), old(log), one.ops, two.ops);
        if ok && At(files, Path(q.first, Stage(Manifest))) != At(files, Path(Other(q.first), Stage(Manifest))) {
          ok := false;
        }
      }
    }

    method BuildBothProvenances(q: Request) returns (ok: bool)
      modifies this
      ensures ok == StageProvenances(old(files), q).ok
      ensures Performed(old(files), old(log), StageProvenances(old(files), q).ops)
    {
      var x, y := ManifestAt(files, Path(q.first, Stage(Manifest))), ManifestAt(files, Path(Other(q.first), Stage(Manifest)));
      if x.None? || y.None? {
        return false;
      }
      ghost var one := StageProvenance(files, q.first, x.value, q.sha);
      ok := BuildStagedProvenance(q.first, x.value, q.sha);
      if ok {
        ghost var two := StageProvenance(files, Other(q.first), y.value, q.sha);
        ok := BuildStagedProvenance(Other(q.first), y.value, q.sha);
        Sequence(old(files), old(log), one.ops, two.ops);
      }
    }

    method StageTransaction(q: Request) returns (ok: bool)
      modifies this
      ensures ok == StageAll(old(files), q).ok
      ensures Performed(old(files), old(log), StageAll(old(files), q).ops)
    {
      var x, y := ManifestAt(files, Path(q.first, Target(Manifest))), ManifestAt(files, Path(Other(q.first), Target(Manifest)));
      if !q.verified || x.None? || y.None? || !SameManifest(x.value, y.value) {
        return false;
      }
      ok := MeasureBothDirectories(q.first);
      if !ok {
        return;
      }
      ghost var p1 := MeasureBoth(old(files), q.first);
      ghost var a2 := StagePublic(files, q);
      ok := StagePublicTelemetry(q);
      Sequence(old(files), old(log), p1.ops, a2.ops);
      if !ok {
        return;
      }
      ghost var p2 := Then(p1, a2);
      ghost var a3 := StageManifests(files, q, x.value, y.value);
      ok := BuildBothManifests(q, x.value, y.value);
      Sequence(old(files), old(log), p2.ops, a3.ops);
      if !ok {
        return;
      }
      ghost var p3 := Then(p2, a3);
      ghost var a4 := StageProvenances(files, q);
      ok := BuildBothProvenances(q);
      Sequence(old(files), old(log), p3.ops, a4.ops);
    }

    // ---- the whole run

    method CommitTransaction(q: Request) returns (ok: bool)
      modifies this
      ensures ok == Commit(old(files), q).ok
      ensures Performed(old(files), old(log), Commit(old(files), q).ops)
    {
      ok := ResumeStagedTransaction(q.first);
      if ok && !q.postVerified {
        return false;
      }
      if ok {
        CleanupTransaction(q.first);
        Sequence(old(files), old(log), Resume(old(files), q.first).ops, CleanupOps(q.first));
      }
    }

    /** `finalize_pair`. What it did is exactly its plan, so every state an
        interruption can leave is a crash state of that plan. */
    method FinalizePair(q: Request) returns (ok: bool)
      modifies this
      ensures ok == Run(old(files), q).ok
      ensures Performed(old(files), old(log), Run(old(files), q).ops)
    {
      if !q.independent {
        return false;
      }
      if Marked(files) {
        ok := CommitTransaction(q);
        return;
      }
      ghost var c := CleanupOps(q.first);
      CleanupTransaction(q.first);
      ghost var s := StageAll(files, q);
      ok := StageTransaction(q);
      Sequence(old(files), old(log), c, s.ops);
      if !ok {
        return;
      }
      WriteTransactionMarkers(q.first);
      Sequence(old(files), old(log), c + s.ops, MarkerOps(q.first));
      ghost var rest := Commit(files, q);
      ok := CommitTransaction(q);
      Sequence(old(files), old(log), c + s.ops + MarkerOps(q.first), rest.ops);
    }
  }

  lemma {:induction false} MissingSource(d: Disk, sources: Sources, n: nat, sha: Content -> Hash)
    requires n <= |sources| && HashAll(d, sources[..n], sha).None?
    ensures HashAll(d, sources, sha).None?
    decreases |sources| - n
  {
    if n < |sources| {
      assert sources[..n + 1][..n] == sources[..n];
      MissingSource(d, sources, n + 1, sha);
    } else {
      assert sources[..n] == sources;
    }
  }
}
