/** What one run of the pair finalizer does to the disk, as a list of file
    operations. A run that is interrupted performs a prefix of its list, and the
    write it was in the middle of may leave a torn file behind. */
module PairPlan {
  import opened Outcomes
  import opened Consensus

  // ---------------------------------------------------------------- files and contents

  datatype Side = A | B

  function Other(s: Side): Side {
    if s.A? then B else A
  }

  /** The three files that are promoted in each directory. */
  datatype Artifact = PublicTelemetry | Manifest | Provenance

  /** The names inside one output directory. `Plain` covers every file the
      finalizer does not write. */
  datatype File =
    | Target(artifact: Artifact)
    | Stage(artifact: Artifact)
    | Promote(artifact: Artifact)
    | Marker
    | MarkerTmp
    | RawMeasured
    | RawAttestation
    | Plain(name: string)

  datatype Path = Path(side: Side, file: File)

  type Hash = string

  /** One item of `artifact_paths` that is hashed into the manifest. */
  datatype PathEntry = PathEntry(isPublicTelemetry: bool, file: File)

  /** `hashed` lists the hashed roles in the order they are visited. `fields`
      stands for every member of the document that is only copied. */
  datatype ManifestData = ManifestData(
    hashed: seq<PathEntry>,
    provenance: Option<File>,
    rawAttestation: Option<File>,
    rawMeasured: Option<File>,
    consensus: bool,
    artifactHashes: map<File, Hash>,
    fields: string)

  datatype ProvenanceData = ProvenanceData(artifactHashes: map<File, Hash>, fields: string)

  datatype Content =
    | Telemetry(lines: seq<Line>)
    | ManifestDoc(manifest: ManifestData)
    | ProvenanceDoc(provenance: ProvenanceData)
    | MarkerDoc(first: Side, second: Side)
    | Bytes(bytes: string)

  type Disk = map<Path, Content>

  function At(d: Disk, p: Path): Option<Content> {
    if p in d then Some(d[p]) else None
  }

  function LinesOf(c: Content): seq<Line> {
    if c.Telemetry? then c.lines else [BadLine]
  }

  // ---------------------------------------------------------------- operations and crashes

  datatype Op =
    | Write(to: Path, content: Content)
    | Copy(src: Path, to: Path)
    | Rename(src: Path, to: Path)
    | Unlink(at: Path)

  function Apply(d: Disk, op: Op): Disk {
    match op
    case Write(to, content) => d[to := content]
    case Copy(src, to) => if src in d then d[to := d[src]] else d
    case Rename(src, to) => if src in d then (d - {src})[to := d[src]] else d
    case Unlink(at) => d - {at}
  }

  function ApplyAll(d: Disk, ops: seq<Op>): Disk
    decreases |ops|
  {
    if ops == [] then d else ApplyAll(Apply(d, ops[0]), ops[1..])
  }

  predicate LeadingLines(full: seq<Line>, torn: seq<Line>, k: nat)
    requires k <= |full|
  {
    torn == full[..k] || torn == full[..k] + [BadLine]
  }

  /** What an interrupted write may leave: of a JSONL file, some leading lines and
      possibly a broken one; of any other file, anything that is not JSONL. */
  ghost predicate TornContent(full: Content, torn: Content) {
    if full.Telemetry? then
      torn.Telemetry? && (exists k: nat :: k < |full.lines| && LeadingLines(full.lines, torn.lines, k))
    else
      !torn.Telemetry?
  }

  /** The states an operation may be interrupted in, between its start and its
      end. Renames and unlinks are atomic. */
  ghost predicate Torn(d: Disk, op: Op, d': Disk) {
    match op
    case Write(to, content) => exists t :: TornContent(content, t) && d' == d[to := t]
    case Copy(src, to) => src in d && exists t :: TornContent(d[src], t) && d' == d[to := t]
    case _ => false
  }

  /** The disks a run that started on `d` may leave behind when it is interrupted
      at any point of `ops`, the end included. */
  ghost predicate CrashState(d: Disk, ops: seq<Op>, d': Disk)
    decreases |ops|
  {
    d' == d || (ops != [] && (Torn(d, ops[0], d') || CrashState(Apply(d, ops[0]), ops[1..], d')))
  }

  // ---------------------------------------------------------------- the plan of one run

  /** One call of the finalizer. The three checks the model does not open are
      answers given from outside; so are the two hash functions. */
  datatype Request = Request(
    first: Side,
    independent: bool,
    verified: bool,
    postVerified: bool,
    sha: Content -> Hash,
    rules: RowRules)

  /** `ok` is false where the program raises after having done `ops`. */
  datatype Plan = Plan(ops: seq<Op>, ok: bool)

  const REFUSED := Plan([], false)

  function Then(a: Plan, b: Plan): Plan {
    if a.ok then Plan(a.ops + b.ops, b.ok) else a
  }

  const PROMOTED: seq<Artifact> := [PublicTelemetry, Manifest, Provenance]

  datatype Job = Job(side: Side, artifact: Artifact)

  /** Both directories, three files each, in promotion order. */
  function Jobs(first: Side): (jobs: seq<Job>)
    ensures |jobs| == 6
  {
    [Job(first, PublicTelemetry), Job(first, Manifest), Job(first, Provenance),
     Job(Other(first), PublicTelemetry), Job(Other(first), Manifest), Job(Other(first), Provenance)]
  }

  function PromoteFile(job: Job): seq<Op> {
    [Copy(Path(job.side, Stage(job.artifact)), Path(job.side, Promote(job.artifact))),
     Rename(Path(job.side, Promote(job.artifact)), Path(job.side, Target(job.artifact)))]
  }

  function PromoteOps(jobs: seq<Job>): seq<Op> {
    if jobs == [] then [] else PromoteOps(jobs[..|jobs| - 1]) + PromoteFile(jobs[|jobs| - 1])
  }

  function MarkerOps(first: Side): seq<Op> {
    var doc := MarkerDoc(first, Other(first));
    [Write(Path(first, MarkerTmp), doc), Rename(Path(first, MarkerTmp), Path(first, Marker)),
     Write(Path(Other(first), MarkerTmp), doc), Rename(Path(Other(first), MarkerTmp), Path(Other(first), Marker))]
  }

  function CleanSide(s: Side): seq<Op> {
    [Unlink(Path(s, Marker)),
     Unlink(Path(s, Stage(PublicTelemetry))), Unlink(Path(s, Promote(PublicTelemetry))),
     Unlink(Path(s, Stage(Manifest))), Unlink(Path(s, Promote(Manifest))),
     Unlink(Path(s, Stage(Provenance))), Unlink(Path(s, Promote(Provenance)))]
  }

  function CleanupOps(first: Side): seq<Op> {
    CleanSide(first) + CleanSide(Other(first))
  }

  predicate Marked(d: Disk) {
    Path(A, Marker) in d || Path(B, Marker) in d
  }

  predicate BothMarked(d: Disk) {
    Path(A, Marker) in d && Path(B, Marker) in d
  }

  /** Every marker that is present names this transaction. */
  predicate MarkersName(d: Disk, first: Side) {
    forall s: Side :: Path(s, Marker) in d ==> d[Path(s, Marker)] == MarkerDoc(first, Other(first))
  }

  predicate AllStaged(d: Disk) {
    forall s: Side, a: Artifact :: Path(s, Stage(a)) in d
  }

  /** `resume_staged_transaction` */
  function Resume(d: Disk, first: Side): Plan {
    if !MarkersName(d, first) || !Marked(d) || !AllStaged(d) then REFUSED
    else Plan((if BothMarked(d) then [] else MarkerOps(first)) + PromoteOps(Jobs(first)), true)
  }

  // ---- staging

  function Measured(d: Disk, s: Side): Option<Content> {
    if Path(s, RawMeasured) in d then At(d, Path(s, RawMeasured)) else At(d, Path(s, Target(PublicTelemetry)))
  }

  /** `_measured_path` */
  function Measure(d: Disk, s: Side): Plan {
    if Path(s, RawMeasured) in d then Plan([], true)
    else if Path(s, Target(PublicTelemetry)) in d then
      Plan([Copy(Path(s, Target(PublicTelemetry)), Path(s, RawMeasured))], true)
    else REFUSED
  }

  function StagePublic(d: Disk, q: Request): Plan {
    var first, second := Measured(d, q.first), Measured(d, Other(q.first));
    if first.None? || second.None? || q.sha(first.value) == q.sha(second.value) then REFUSED
    else
      var stage := Path(q.first, Stage(PublicTelemetry));
      var x, y := LinesOf(first.value), LinesOf(second.value);
      var write := Write(stage, Telemetry(Lines(AcceptedPrefix(x, y, q.rules))));
      if Canonical(x, y, q.rules).Err? then Plan([write], false)
      else Plan([write, Copy(stage, Path(Other(q.first), Stage(PublicTelemetry)))], true)
  }

  function HashSource(s: Side, e: PathEntry): Path {
    Path(s, if e.isPublicTelemetry then Stage(PublicTelemetry) else e.file)
  }

  /** Names to record, each with the file whose hash is recorded under it. */
  type Sources = seq<(File, Path)>

  /** The recorded hashes, if every file is there; a later entry of the same name wins. */
  function HashAll(d: Disk, sources: Sources, sha: Content -> Hash): Option<map<File, Hash>> {
    if sources == [] then Some(map[])
    else
      var (name, path) := sources[|sources| - 1];
      var before := HashAll(d, sources[..|sources| - 1], sha);
      if before.None? || path !in d then None else Some(before.value[name := sha(d[path])])
  }

  function EntrySources(s: Side, entries: seq<PathEntry>): (r: Sources)
    ensures |r| == |entries|
  {
    seq(|entries|, i requires 0 <= i < |entries| => (entries[i].file, HashSource(s, entries[i])))
  }

  /** `_canonical_artifact_hashes` */
  function HashEntries(d: Disk, s: Side, entries: seq<PathEntry>, sha: Content -> Hash): Option<map<File, Hash>> {
    HashAll(d, EntrySources(s, entries), sha)
  }

  /** `_build_staged_manifest` */
  function StagedManifest(d: Disk, s: Side, m: ManifestData, sha: Content -> Hash): Option<ManifestData> {
    var hashes := HashEntries(d, s, m.hashed, sha);
    if hashes.None? then None
    else Some(m.(rawAttestation := Some(RawAttestation), rawMeasured := Some(RawMeasured),
                 consensus := true, artifactHashes := hashes.value))
  }

  function Listed(f: Option<File>): seq<File> {
    if f.Some? then [f.value] else []
  }

  function EntryNames(entries: seq<PathEntry>): (names: seq<File>)
    ensures |names| == |entries|
  {
    seq(|entries|, i requires 0 <= i < |entries| => entries[i].file)
  }

  function Without(names: seq<File>, f: File): seq<File> {
    if names == [] then []
    else Without(names[..|names| - 1], f) + if names[|names| - 1] == f then [] else [names[|names| - 1]]
  }

  /** The names whose hashes the provenance records; repetitions do not matter. */
  function ProvenanceNames(m: ManifestData): seq<File> {
    Without(EntryNames(m.hashed) + Listed(m.provenance) + Listed(m.rawAttestation) + Listed(m.rawMeasured), Target(Provenance))
    + [Target(Manifest), RawAttestation, RawMeasured]
  }

  function ProvenanceSource(s: Side, f: File): Path {
    Path(s, if f == Target(PublicTelemetry) then Stage(PublicTelemetry)
            else if f == Target(Manifest) then Stage(Manifest)
            else f)
  }

  function NameSources(s: Side, names: seq<File>): (r: Sources)
    ensures |r| == |names|
  {
    seq(|names|, i requires 0 <= i < |names| => (names[i], ProvenanceSource(s, names[i])))
  }

  /** `_build_staged_provenance` */
  function StagedProvenance(d: Disk, s: Side, m: ManifestData, sha: Content -> Hash): Option<ProvenanceData> {
    var hashes := HashAll(d, NameSources(s, ProvenanceNames(m)), sha);
    if hashes.None? then None else Some(ProvenanceData(hashes.value, m.fields))
  }

  function StageManifest(d: Disk, s: Side, m: ManifestData, sha: Content -> Hash): Plan {
    var staged := StagedManifest(d, s, m, sha);
    if staged.None? then REFUSED else Plan([Write(Path(s, Stage(Manifest)), ManifestDoc(staged.value))], true)
  }

  function StageProvenance(d: Disk, s: Side, m: ManifestData, sha: Content -> Hash): Plan {
    var staged := StagedProvenance(d, s, m, sha);
    if staged.None? then REFUSED else Plan([Write(Path(s, Stage(Provenance)), ProvenanceDoc(staged.value))], true)
  }

  function ManifestAt(d: Disk, p: Path): Option<ManifestData> {
    if p in d && d[p].ManifestDoc? then Some(d[p].manifest) else None
  }

  /** The two manifests agree on everything but the recorded hashes. */
  predicate SameManifest(x: ManifestData, y: ManifestData) {
    x.(artifactHashes := map[]) == y.(artifactHashes := map[])
  }

  /** Both staged manifests, and the check that they came out equal. */
  function StageManifests(d: Disk, q: Request, x: ManifestData, y: ManifestData): Plan {
    var one := StageManifest(d, q.first, x, q.sha);
    var d1 := ApplyAll(d, one.ops);
    var both := Then(one, StageManifest(d1, Other(q.first), y, q.sha));
    var d2 := ApplyAll(d, both.ops);
    if both.ok && At(d2, Path(q.first, Stage(Manifest))) != At(d2, Path(Other(q.first), Stage(Manifest)))
    then Plan(both.ops, false) else both
  }

  function StageProvenances(d: Disk, q: Request): Plan {
    var x, y := ManifestAt(d, Path(q.first, Stage(Manifest))), ManifestAt(d, Path(Other(q.first), Stage(Manifest)));
    if x.None? || y.None? then REFUSED
    else
      var one := StageProvenance(d, q.first, x.value, q.sha);
      Then(one, StageProvenance(ApplyAll(d, one.ops), Other(q.first), y.value, q.sha))
  }

  function MeasureBoth(d: Disk, first: Side): Plan {
    var one := Measure(d, first);
    Then(one, Measure(ApplyAll(d, one.ops), Other(first)))
  }

  /** Everything a fresh run does between its clean start and its first marker. */
  function StageAll(d: Disk, q: Request): Plan {
    var x, y := ManifestAt(d, Path(q.first, Target(Manifest))), ManifestAt(d, Path(Other(q.first), Target(Manifest)));
    if !q.verified || x.None? || y.None? || !SameManifest(x.value, y.value) then REFUSED
    else
      var p1 := MeasureBoth(d, q.first);
      var p2 := Then(p1, StagePublic(ApplyAll(d, p1.ops), q));
      var p3 := Then(p2, StageManifests(ApplyAll(d, p2.ops), q, x.value, y.value));
      Then(p3, StageProvenances(ApplyAll(d, p3.ops), q))
  }

  function Commit(d: Disk, q: Request): Plan {
    var p := Resume(d, q.first);
    if !p.ok then p
    else if !q.postVerified then Plan(p.ops, false)
    else Plan(p.ops + CleanupOps(q.first), true)
  }

  /** `finalize_pair` */
  function Run(d: Disk, q: Request): Plan {
    if !q.independent then REFUSED
    else if Marked(d) then Commit(d, q)
    else
      var p1 := Plan(CleanupOps(q.first), true);
      var p2 := Then(p1, StageAll(ApplyAll(d, p1.ops), q));
      var p3 := Then(p2, Plan(MarkerOps(q.first), true));
      Then(p3, Commit(ApplyAll(d, p3.ops), q))
  }
}
