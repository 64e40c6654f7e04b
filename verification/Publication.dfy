/** Crash-safe, content-addressed publication.

    Importers with distinct operation identifiers share a cache. Each turns a
    staged directory into an immutable blob: intent, manifest, rename, READY,
    marker, every one of them a single atomic step on the file system. Steps of
    different importers interleave and a process may die between any two.
 */
module Publication {
  import opened Basics
  import opened Paths
  import opened Shards
  import TransientNames

  // ---- hashes, manifests and directories ------------------------------------------------

  type Op = string

  type Content = string

  type Digest = string

  type Files = Manifest

  /** The functions the store is built on: SHA-256, the canonical encoding of
      a manifest and its decoder, manifest validation, the verdict of the GGUF
      validator on the listed files, which names the file system can hold, and
      how many bytes an intent takes. */
  datatype World = World(
    sha: Content -> Digest,
    json: Files -> Content,
    parse: Content -> Option<Files>,
    canonical: Files -> bool,
    gguf: (Files, map<string, Content>) -> bool,
    fits: string -> bool,
    intentBytes: Intent -> nat)

  ghost predicate Sound(w: World) {
    && (forall a, b :: w.sha(a) == w.sha(b) ==> a == b)
    && (forall m :: w.parse(w.json(m)) == Some(m))
    && (forall c :: w.parse(c).Some? ==> w.json(w.parse(c).value) == c)
    && (forall m {:trigger CanonicalManifest(m)} :: w.canonical(m) == CanonicalManifest(m))
    && (forall i: Intent {:trigger w.intentBytes(i)} :: |w.json(i.manifest)| <= w.intentBytes(i))
  }

  /** The largest document a reader accepts. */
  const MAX_DOCUMENT: nat := 0x4_0000

  predicate Readable(w: World, m: Files) {
    |w.json(m)| <= MAX_DOCUMENT
  }

  function ManifestDigest(w: World, m: Files): Digest {
    w.sha(w.json(m))
  }

  /** A single file is identified by its own hash. */
  function ArtifactDigest(w: World, m: Files): Digest {
    if |m.files| == 1 then m.files[0].sha256 else ManifestDigest(w, m)
  }

  type Dir = map<string, Content>

  const MANIFEST := "manifest.json"

  const READY := "READY"

  function ReadyText(d: Digest): Content {
    d + "\n"
  }

  predicate FilesMatch(w: World, dir: Dir, m: Files) {
    forall i :: 0 <= i < |m.files| ==>
      var f := m.files[i]; f.path in dir && |dir[f.path]| == f.size && w.sha(dir[f.path]) == f.sha256
  }

  function ListedFiles(dir: Dir, m: Files): Dir {
    map i | 0 <= i < |m.files| && m.files[i].path in dir :: m.files[i].path := dir[m.files[i].path]
  }

  /** `validateManifestContent`. */
  predicate ContentOk(w: World, dir: Dir, m: Files) {
    w.canonical(m) && FilesMatch(w, dir, m) && w.gguf(m, ListedFiles(dir, m))
  }

  /** The manifest in a directory; an empty one if there is none. */
  function ManifestIn(w: World, dir: Dir): Files {
    if MANIFEST in dir && w.parse(dir[MANIFEST]).Some? then w.parse(dir[MANIFEST]).value else Manifest(0, "", "", [])
  }

  /** What makes a directory the blob of `d`. */
  predicate BlobOf(w: World, dir: Dir, d: Digest) {
    && MANIFEST in dir && w.parse(dir[MANIFEST]).Some?
    && ManifestDigest(w, w.parse(dir[MANIFEST]).value) == d
    && ContentOk(w, dir, w.parse(dir[MANIFEST]).value)
  }

  /** `validatePublishedContent`: the manifest must not be too large to read. */
  predicate Accepted(w: World, dir: Dir, d: Digest) {
    BlobOf(w, dir, d) && |dir[MANIFEST]| <= MAX_DOCUMENT
  }

  /** READY stands in the blob of `d`. */
  predicate Complete(w: World, dir: Dir, d: Digest) {
    BlobOf(w, dir, d) && READY in dir && dir[READY] == ReadyText(d)
  }

  /** `ValidatePublished`. */
  predicate Published(w: World, dir: Dir, d: Digest) {
    Accepted(w, dir, d) && Complete(w, dir, d)
  }

  // ---- names that are directories ---------------------------------------------------------

  /** The path lies below a directory of that name. */
  predicate Under(path: string, name: string) {
    name + "/" <= path
  }

  /** The name is a directory: no file can be written or unlinked there. */
  predicate IsDir(dir: Dir, name: string) {
    exists path :: path in dir && Under(path, name)
  }

  /** A listed file lies below the name. */
  predicate Lists(m: Files, name: string) {
    exists i :: 0 <= i < |m.files| && Under(m.files[i].path, name)
  }

  /** All directories are directories of listed files: an import writes nothing
      but those files and, beside them, their checkpoints. */
  ghost predicate NoStrangers(dir: Dir, m: Files) {
    forall path, name :: path in dir && Under(path, name) ==> Lists(m, name)
  }

  /** The checkpoint of the k-th file can be unlinked. */
  predicate ResumeClear(w: World, m: Files, k: nat)
    requires k < |m.files|
  {
    w.fits(ResumeName(m.files[k].path)) && !Lists(m, ResumeName(m.files[k].path))
  }

  predicate ResumesClear(w: World, m: Files, n: nat)
    requires n <= |m.files|
  {
    forall k :: 0 <= k < n ==> ResumeClear(w, m, k)
  }

  /** Nothing stands in the way of the rename. */
  predicate Movable(w: World, m: Files) {
    ResumesClear(w, m, |m.files|) && !Lists(m, MANIFEST)
  }

  /** No listed file lies below a name the protocol writes or unlinks, and the
      file system can hold those names. */
  predicate Clear(w: World, m: Files) {
    Movable(w, m) && !Lists(m, READY)
  }

  // ---- the files of one operation, and its importer -----------------------------------------

  datatype Intent = Intent(artifact: Digest, publication: Digest, revision: string, manifest: Files)

  datatype Marker = Marker(artifact: Digest, publication: Digest, revision: string)

  /** The files under an operation's own names: its staging directory, its
      intent and its marker. */
  datatype Own = Own(staging: Option<Dir>, intent: Option<Intent>, marker: Option<Marker>)

  type Blobs = map<Digest, Dir>

  datatype Job = Job(manifest: Files, revision: string)

  datatype Report = Report(manifest: Files, artifact: Digest, publication: Digest, revision: string)

  /** Where an importer stands: the action it does next. */
  datatype Pc =
    | Idle
    | Recovering
    | RecoverProbe(job: Job)
    | Importing
    | WriteIntent(job: Job)
    | DropResume(job: Job, k: nat)
    | WriteManifest(job: Job)
    | Inspect(job: Job)
    | Probe(job: Job)
    | Rename(job: Job)
    | WriteReady(job: Job, hit: bool)
    | WriteMarker(job: Job, hit: bool)
    | DropStaging(job: Job)
    | Done(report: Report)
    | Failed

  function IntentOf(w: World, job: Job): Intent {
    Intent(ArtifactDigest(w, job.manifest), ManifestDigest(w, job.manifest), job.revision, job.manifest)
  }

  function MarkerOf(i: Intent): Marker {
    Marker(i.artifact, i.publication, i.revision)
  }

  function ReportOf(i: Intent): Report {
    Report(i.manifest, i.artifact, i.publication, i.revision)
  }

  function JobOf(i: Intent): Job {
    Job(i.manifest, i.revision)
  }

  function BlobName(w: World, job: Job): Digest {
    ManifestDigest(w, job.manifest)
  }

  function ResumeName(path: string): string {
    path + ".resume.json"
  }

  predicate HasBlob(w: World, blobs: Blobs, d: Digest) {
    d in blobs && Accepted(w, blobs[d], d)
  }

  predicate ValidRevision(revision: string) {
    revision == "" || ValidCommit(revision)
  }

  /** What `RecoverPublished` decides from the marker, the intent and the blob. */
  function Recover(w: World, own: Own, blobs: Blobs): Pc {
    if own.marker.Some? then
      var marker := own.marker.value;
      if ValidRevision(marker.revision)
         && marker.publication in blobs && Published(w, blobs[marker.publication], marker.publication) then
        var m := w.parse(blobs[marker.publication][MANIFEST]).value;
        if ArtifactDigest(w, m) == marker.artifact
        then Done(Report(m, marker.artifact, marker.publication, marker.revision))
        else Failed
      else Failed
    else if own.intent.None? then Importing
    else RecoverIntent(w, own.intent.value, blobs)
  }

  function RecoverIntent(w: World, intent: Intent, blobs: Blobs): Pc {
    if w.intentBytes(intent) > MAX_DOCUMENT || !ValidRevision(intent.revision) then Failed
    else if !w.canonical(intent.manifest) || intent != IntentOf(w, JobOf(intent)) then Failed
    else if HasBlob(w, blobs, intent.publication) then
      if w.parse(blobs[intent.publication][MANIFEST]).value == intent.manifest
      then WriteReady(JobOf(intent), false)
      else Failed
    else RecoverProbe(JobOf(intent))
  }

  /** Does the blob of the job exist and pass, with the job's own manifest? */
  predicate SameBlob(w: World, blobs: Blobs, job: Job) {
    HasBlob(w, blobs, BlobName(w, job)) && blobs[BlobName(w, job)][MANIFEST] == w.json(job.manifest)
  }

  datatype Local = Local(own: Own, blobs: Blobs, pc: Pc)

  function PutBlob(blobs: Blobs, d: Digest, name: string): Blobs
    requires d in blobs
  {
    blobs[d := blobs[d][name := ReadyText(d)]]
  }

  /** `syncArtifactTree` finds every listed file. */
  predicate AllListed(dir: Dir, m: Files) {
    forall i :: 0 <= i < |m.files| ==> m.files[i].path in dir
  }

  /** One atomic action of an importer. */
  function Step(w: World, s: Local): Local {
    var own, blobs := s.own, s.blobs;
    match s.pc
    case Recovering => s.(pc := Recover(w, own, blobs))
    case RecoverProbe(job) =>
      if BlobName(w, job) in blobs then s.(pc := Failed)
      else if own.staging.Some? && ContentOk(w, own.staging.value, job.manifest) then s.(pc := WriteIntent(job))
      else s.(pc := Failed)
    case WriteIntent(job) => s.(own := own.(intent := Some(IntentOf(w, job))), pc := DropResume(job, 0))
    case DropResume(job, k) =>
      if k >= |job.manifest.files| then s.(pc := WriteManifest(job))
      else if own.staging.None? then s.(pc := DropResume(job, k + 1))
      else
        var name := ResumeName(job.manifest.files[k].path);
        if IsDir(own.staging.value, name) || !w.fits(name) then s.(pc := Failed)
        else s.(own := own.(staging := Some(own.staging.value - {name})), pc := DropResume(job, k + 1))
    case WriteManifest(job) =>
      var dir := if own.staging.Some? then own.staging.value else map[];
      if IsDir(dir, MANIFEST) then s.(pc := Failed)
      else
        s.(own := own.(staging := Some(dir[MANIFEST := w.json(job.manifest)])),
           pc := if AllListed(dir, job.manifest) then Inspect(job) else Failed)
    case Inspect(job) =>
      if HasBlob(w, blobs, BlobName(w, job))
      then s.(pc := if SameBlob(w, blobs, job) then WriteReady(job, true) else Failed)
      else s.(pc := Probe(job))
    case Probe(job) => s.(pc := if BlobName(w, job) in blobs then Failed else Rename(job))
    case Rename(job) =>
      if BlobName(w, job) in blobs || own.staging.None?
      then s.(pc := if SameBlob(w, blobs, job) then WriteReady(job, true) else Failed)
      else Local(own.(staging := None), blobs[BlobName(w, job) := own.staging.value], WriteReady(job, false))
    case WriteReady(job, hit) =>
      if BlobName(w, job) !in blobs || IsDir(blobs[BlobName(w, job)], READY) then s.(pc := Failed)
      else s.(blobs := PutBlob(blobs, BlobName(w, job), READY), pc := WriteMarker(job, hit))
    case WriteMarker(job, hit) =>
      s.(own := own.(marker := Some(MarkerOf(IntentOf(w, job)))),
         pc := if hit then DropStaging(job) else Done(ReportOf(IntentOf(w, job))))
    case DropStaging(job) => s.(own := own.(staging := None), pc := Done(ReportOf(IntentOf(w, job))))
    case _ => s
  }

  // ---- many importers ---------------------------------------------------------------------

  /** Total in the operations: an unknown one has no files and is idle. */
  datatype Sys = Sys(owns: map<Op, Own>, blobs: Blobs, pcs: map<Op, Pc>)

  const EMPTY := Sys(map[], map[], map[])

  function At(s: Sys, op: Op): Local {
    Local(if op in s.owns then s.owns[op] else Own(None, None, None), s.blobs, if op in s.pcs then s.pcs[op] else Idle)
  }

  function Put(s: Sys, op: Op, l: Local): Sys {
    Sys(s.owns[op := l.own], l.blobs, s.pcs[op := l.pc])
  }

  /** What a cleanup removes at a time. */
  datatype Removal = StagedFiles(names: set<string>) | StagingTree | IntentFile | MarkerFile

  /** `Begin` starts or restarts an importer under its operation lock; `Import`
      is any download or copy into its own staging directory; `Validated` is
      the end of `validateStaged`; `Crash` kills it, possibly inside an atomic
      write, whose temporary file then stays; `Clean` is one removal by a
      cleanup of the operation, which may stop after any of them. */
  datatype Event =
    | Begin
    | Import(dir: Dir)
    | Validated(job: Job)
    | Advance
    | Crash(leftover: Option<string>)
    | Clean(what: Removal)

  predicate GgufNames(m: Files) {
    forall i :: 0 <= i < |m.files| ==> HasGgufExtension(m.files[i].path)
  }

  /** What `validateStaged` establishes, and `Publish` relies on. */
  ghost predicate Staged(w: World, dir: Dir, m: Files) {
    ContentOk(w, dir, m) && GgufNames(m) && READY !in dir && NoStrangers(dir, m)
  }

  predicate Resting(pc: Pc) {
    pc.Idle? || pc.Done? || pc.Failed?
  }

  function Removed(own: Own, what: Removal): Own {
    match what
    case StagedFiles(names) => if own.staging.None? then own else own.(staging := Some(own.staging.value - names))
    case StagingTree => own.(staging := None)
    case IntentFile => own.(intent := None)
    case MarkerFile => own.(marker := None)
  }

  predicate Leftover(name: string, base: string) {
    |name| >= 16 && TransientNames.RandomSuffix(name[|name|-16..]) && name[..|name|-16] == "." + base + ".tmp-"
  }

  function Interrupted(w: World, s: Local, name: string): Local {
    if s.pc.WriteManifest? && s.own.staging.Some? && Leftover(name, MANIFEST) && name !in s.own.staging.value then
      s.(own := s.own.(staging := Some(s.own.staging.value[name := w.json(s.pc.job.manifest)])))
    else if s.pc.WriteReady? && BlobName(w, s.pc.job) in s.blobs
            && Leftover(name, READY) && name !in s.blobs[BlobName(w, s.pc.job)] then
      s.(blobs := PutBlob(s.blobs, BlobName(w, s.pc.job), name))
    else s
  }

  ghost function React(w: World, s: Local, e: Event): Local {
    match e
    case Begin => if Resting(s.pc) then s.(pc := Recovering) else s
    case Import(dir) => if s.pc.Importing? && READY !in dir then s.(own := s.own.(staging := Some(dir))) else s
    case Validated(job) =>
      if s.pc.Importing? && s.own.staging.Some? && Staged(w, s.own.staging.value, job.manifest)
          && ValidRevision(job.revision)
      then s.(pc := WriteIntent(job)) else s
    case Advance => Step(w, s)
    case Crash(leftover) => (if leftover.None? then s else Interrupted(w, s, leftover.value)).(pc := Idle)
    case Clean(what) => if Resting(s.pc) then Local(Removed(s.own, what), s.blobs, Idle) else s
  }

  ghost function Next(w: World, s: Sys, op: Op, e: Event): Sys {
    Put(s, op, React(w, At(s, op), e))
  }

  ghost function Run(w: World, s: Sys, actions: seq<(Op, Event)>): Sys
    decreases |actions|
  {
    if actions == [] then s else Run(w, Next(w, s, actions[0].0, actions[0].1), actions[1..])
  }

  // ---- the invariant ------------------------------------------------------------------------

  /** The checkpoints of the first `n` files are gone. */
  ghost predicate NoResumes(dir: Dir, m: Files, n: nat)
    requires n <= |m.files|
  {
    forall i :: 0 <= i < n ==> ResumeName(m.files[i].path) !in dir
  }

  ghost predicate BlobOk(w: World, dir: Dir, d: Digest) {
    && BlobOf(w, dir, d) && NoStrangers(dir, ManifestIn(w, dir)) && Movable(w, ManifestIn(w, dir))
    && NoResumes(dir, ManifestIn(w, dir), |ManifestIn(w, dir).files|)
    && (READY in dir ==> dir[READY] == ReadyText(d) && !Lists(ManifestIn(w, dir), READY))
  }

  ghost predicate BlobsOk(w: World, blobs: Blobs) {
    forall d :: d in blobs ==> BlobOk(w, blobs[d], d)
  }

  ghost predicate InStaging(w: World, own: Own, job: Job) {
    own.staging.Some? && Staged(w, own.staging.value, job.manifest)
  }

  ghost predicate Ready(w: World, blobs: Blobs, job: Job) {
    BlobName(w, job) in blobs && READY in blobs[BlobName(w, job)]
  }

  /** What an intent guarantees by itself. */
  ghost predicate IntentOk(w: World, intent: Intent, staging: Option<Dir>) {
    && w.canonical(intent.manifest) && intent == IntentOf(w, JobOf(intent))
    && ValidRevision(intent.revision) && GgufNames(intent.manifest)
    && (staging.Some? ==> NoStrangers(staging.value, intent.manifest))
  }

  ghost predicate MarkerOk(w: World, marker: Marker, blobs: Blobs) {
    && marker.publication in blobs && READY in blobs[marker.publication] && ValidRevision(marker.revision)
    && marker.artifact == ArtifactDigest(w, ManifestIn(w, blobs[marker.publication]))
  }

  /** What holds of the files of an operation, whatever its importer does and
      however far a cleanup came. */
  ghost predicate FilesOk(w: World, own: Own, blobs: Blobs) {
    && (own.staging.Some? ==> READY !in own.staging.value)
    && (own.intent.Some? ==> IntentOk(w, own.intent.value, own.staging))
    && (own.marker.Some? ==> MarkerOk(w, own.marker.value, blobs))
    && (own.marker.Some? && own.intent.Some? ==> own.marker == Some(MarkerOf(own.intent.value)))
  }

  ghost predicate Working(w: World, own: Own, job: Job) {
    own.marker.None? && own.intent == Some(IntentOf(w, job))
  }

  ghost predicate ReadyToMove(w: World, own: Own, job: Job) {
    && Working(w, own, job) && InStaging(w, own, job) && Movable(w, job.manifest)
    && NoResumes(own.staging.value, job.manifest, |job.manifest.files|)
    && MANIFEST in own.staging.value && own.staging.value[MANIFEST] == w.json(job.manifest)
  }

  /** The report of a marker. */
  function ReportAt(w: World, marker: Marker, blobs: Blobs): Report {
    Report(if marker.publication in blobs then ManifestIn(w, blobs[marker.publication]) else Manifest(0, "", "", []),
           marker.artifact, marker.publication, marker.revision)
  }

  ghost predicate PcOk(w: World, s: Local) {
    match s.pc
    case Importing => s.own.intent.None? && s.own.marker.None?
    case RecoverProbe(job) => Working(w, s.own, job)
    case WriteIntent(job) =>
      && s.own.marker.None? && InStaging(w, s.own, job) && ValidRevision(job.revision)
      && (s.own.intent.Some? ==> s.own.intent == Some(IntentOf(w, job)))
    case DropResume(job, k) =>
      && Working(w, s.own, job) && InStaging(w, s.own, job)
      && k <= |job.manifest.files| && ResumesClear(w, job.manifest, k)
      && NoResumes(s.own.staging.value, job.manifest, k)
    case WriteManifest(job) =>
      && Working(w, s.own, job) && InStaging(w, s.own, job) && ResumesClear(w, job.manifest, |job.manifest.files|)
      && NoResumes(s.own.staging.value, job.manifest, |job.manifest.files|)
    case Inspect(job) => ReadyToMove(w, s.own, job)
    case Probe(job) => ReadyToMove(w, s.own, job)
    case Rename(job) => ReadyToMove(w, s.own, job)
    case WriteReady(job, _) => Working(w, s.own, job) && BlobName(w, job) in s.blobs
    case WriteMarker(job, _) => Working(w, s.own, job) && Ready(w, s.blobs, job)
    case DropStaging(job) => s.own.marker.Some? && s.own.intent == Some(IntentOf(w, job))
    case Done(report) => s.own.marker.Some? && report == ReportAt(w, s.own.marker.value, s.blobs)
    case _ => true
  }

  ghost predicate LocalOk(w: World, s: Local) {
    FilesOk(w, s.own, s.blobs) && PcOk(w, s)
  }

  ghost predicate Inv(w: World, s: Sys) {
    BlobsOk(w, s.blobs) && forall op :: LocalOk(w, At(s, op))
  }

  /** Nothing in a blob is changed or removed. */
  ghost predicate Keeps(blobs: Blobs, after: Blobs) {
    forall d :: d in blobs ==> d in after && Extends(blobs[d], after[d])
  }

  ghost predicate Extends(dir: Dir, after: Dir) {
    forall name :: name in dir ==> name in after && after[name] == dir[name]
  }

  // ---- content survives what the protocol writes ------------------------------------------

  lemma ListedSame(dir: Dir, after: Dir, m: Files)
    requires forall i :: 0 <= i < |m.files| ==>
      m.files[i].path in dir && m.files[i].path in after && after[m.files[i].path] == dir[m.files[i].path]
    ensures ListedFiles(after, m) == ListedFiles(dir, m)
  {
  }

  lemma ContentKept(w: World, dir: Dir, after: Dir, m: Files)
    requires ContentOk(w, dir, m)
    requires forall i :: 0 <= i < |m.files| && m.files[i].path in dir ==>
      m.files[i].path in after && after[m.files[i].path] == dir[m.files[i].path]
    ensures ContentOk(w, after, m)
  {
    ListedSame(dir, after, m);
  }

  lemma BlobKept(w: World, dir: Dir, after: Dir, d: Digest)
    requires BlobOf(w, dir, d) && Extends(dir, after)
    ensures BlobOf(w, after, d)
  {
    ContentKept(w, dir, after, w.parse(dir[MANIFEST]).value);
  }

  /** No file the protocol writes or drops is a listed one. */
  lemma NotListed(name: string)
    requires HasGgufExtension(name)
    ensures name != MANIFEST && name != READY
    ensures forall path :: name != ResumeName(path)
    ensures forall base :: !Leftover(name, base)
  {
    forall path ensures name != ResumeName(path) {
      assert ResumeName(path)[|ResumeName(path)|-5..] == ".json";
    }
    forall base ensures !Leftover(name, base) {
      if |name| >= 16 { assert name[|name|-16..][11] == name[|name|-5]; }
    }
  }

  lemma Slashless(name: string)
    requires '/' !in name
    ensures forall base :: !Under(name, base)
  {
    forall base ensures !Under(name, base) {
      assert (base + "/")[|base|] == '/';
      if |base| < |name| { assert name[|base|] in name; }
    }
  }

  lemma OwnNamesSlashless(name: string)
    requires name == MANIFEST || name == READY || Leftover(name, MANIFEST) || Leftover(name, READY)
    ensures '/' !in name
  {
    if |name| >= 16 {
      var head, tail := name[..|name|-16], name[|name|-16..];
      assert name == head + tail;
      if Leftover(name, MANIFEST) || Leftover(name, READY) {
        assert '/' !in tail by {
          forall i | 0 <= i < |tail| ensures tail[i] != '/' { assert TransientNames.HexDigit(tail[i]); }
        }
        assert head == ".manifest.json.tmp-" || head == ".READY.tmp-";
      }
    }
  }

  /** Nor is it a checkpoint. */
  lemma OwnNamesNoResume(name: string, path: string)
    requires name == MANIFEST || name == READY || Leftover(name, MANIFEST) || Leftover(name, READY)
    ensures name != ResumeName(path)
  {
    var resume := ResumeName(path);
    assert resume[|resume|-12] == '.' && resume[|resume|-1] == 'n';
    if name != MANIFEST && name != READY {
      assert name[|name|-1] == name[|name|-16..][15] && TransientNames.HexDigit(name[|name|-1]);
    }
  }

  lemma ResumesGone(dir: Dir, after: Dir, m: Files, n: nat, name: string)
    requires n <= |m.files| && NoResumes(dir, m, n)
    requires name == MANIFEST || name == READY || Leftover(name, MANIFEST) || Leftover(name, READY)
    requires forall path :: path in after ==> path in dir || path == name
    ensures NoResumes(after, m, n)
  {
    forall i | 0 <= i < n ensures ResumeName(m.files[i].path) !in after { OwnNamesNoResume(name, m.files[i].path); }
  }

  /** A file of the protocol's own adds no directory. */
  lemma StrangersKept(dir: Dir, after: Dir, m: Files, name: string)
    requires NoStrangers(dir, m) && '/' !in name && forall path :: path in after ==> path in dir || path == name
    ensures NoStrangers(after, m)
  {
    Slashless(name);
  }

  /** The directories of a complete tree are those of the listed files. */
  lemma DirectoryListed(dir: Dir, m: Files, name: string)
    requires NoStrangers(dir, m) && AllListed(dir, m)
    ensures IsDir(dir, name) <==> Lists(m, name)
  {
    if Lists(m, name) {
      var i :| 0 <= i < |m.files| && Under(m.files[i].path, name);
      assert m.files[i].path in dir;
    }
  }

  lemma StagedKept(w: World, dir: Dir, after: Dir, m: Files)
    requires Staged(w, dir, m) && READY !in after && NoStrangers(after, m)
    requires forall name :: name in dir && HasGgufExtension(name) ==> name in after && after[name] == dir[name]
    ensures Staged(w, after, m)
  {
    ContentKept(w, dir, after, m);
  }

  /** The digest determines the manifest. */
  lemma BlobManifest(w: World, blobs: Blobs, job: Job)
    requires Sound(w) && BlobsOk(w, blobs) && BlobName(w, job) in blobs
    ensures var dir := blobs[BlobName(w, job)];
            && MANIFEST in dir && dir[MANIFEST] == w.json(job.manifest) && w.parse(dir[MANIFEST]) == Some(job.manifest)
            && ManifestIn(w, dir) == job.manifest
    ensures SameBlob(w, blobs, job) <==> Readable(w, job.manifest)
    ensures HasBlob(w, blobs, BlobName(w, job)) <==> Readable(w, job.manifest)
    ensures Movable(w, job.manifest) && (Ready(w, blobs, job) ==> Clear(w, job.manifest))
  {
    var d := BlobName(w, job);
    assert BlobOk(w, blobs[d], d);
    var m := w.parse(blobs[d][MANIFEST]).value;
    assert w.sha(w.json(m)) == w.sha(w.json(job.manifest));
    assert w.parse(w.json(m)) == w.parse(w.json(job.manifest));
  }

  lemma BlobExtended(w: World, blobs: Blobs, d: Digest, name: string)
    requires BlobsOk(w, blobs) && d in blobs && (name == READY || Leftover(name, READY))
    requires if name == READY then !Lists(ManifestIn(w, blobs[d]), READY) else name !in blobs[d]
    ensures BlobsOk(w, PutBlob(blobs, d, name)) && Keeps(blobs, PutBlob(blobs, d, name))
  {
    var dir, after := blobs[d], blobs[d][name := ReadyText(d)];
    assert BlobOk(w, dir, d);
    BlobKept(w, dir, after, d);
    OwnNamesSlashless(name);
    StrangersKept(dir, after, ManifestIn(w, dir), name);
    ResumesGone(dir, after, ManifestIn(w, dir), |ManifestIn(w, dir).files|, name);
    assert ManifestIn(w, after) == ManifestIn(w, dir);
  }

  lemma BlobAdded(w: World, blobs: Blobs, d: Digest, dir: Dir)
    requires BlobsOk(w, blobs) && d !in blobs && BlobOk(w, dir, d)
    ensures BlobsOk(w, blobs[d := dir]) && Keeps(blobs, blobs[d := dir])
  {
  }

  // ---- one step ------------------------------------------------------------------------------

  /** When a step fails, and nothing else makes one fail: a document too large
      to read; a directory where a file is to be written or unlinked, or a name
      that is too long; an intent without its blob and without all its files;
      or a blob that is there although it was not found valid, because a rival
      has just made it or because its manifest is too large to read. */
  predicate Fails(w: World, s: Local) {
    match s.pc
    case Recovering =>
      if s.own.marker.Some? then !Readable(w, ReportAt(w, s.own.marker.value, s.blobs).manifest)
      else s.own.intent.Some? && w.intentBytes(s.own.intent.value) > MAX_DOCUMENT
    case RecoverProbe(job) =>
      BlobName(w, job) in s.blobs || s.own.staging.None? || !ContentOk(w, s.own.staging.value, job.manifest)
    case DropResume(job, k) => k < |job.manifest.files| && !ResumeClear(w, job.manifest, k)
    case WriteManifest(job) => Lists(job.manifest, MANIFEST)
    case Probe(job) => BlobName(w, job) in s.blobs
    case Rename(job) => BlobName(w, job) in s.blobs && !Readable(w, job.manifest)
    case WriteReady(job, _) => Lists(job.manifest, READY)
    case _ => false
  }

  /** Intents and markers are written once. */
  ghost predicate Commits(own: Own, after: Own) {
    (own.intent.Some? ==> after.intent == own.intent) && (own.marker.Some? ==> after.marker == own.marker)
  }

  ghost predicate StepOk(w: World, s: Local, after: Local) {
    && BlobsOk(w, after.blobs) && LocalOk(w, after) && Keeps(s.blobs, after.blobs) && Commits(s.own, after.own)
    && (after.pc.Failed? <==> s.pc.Failed? || Fails(w, s))
  }

  lemma MarkerRead(w: World, marker: Marker, blobs: Blobs)
    requires Sound(w) && BlobsOk(w, blobs) && MarkerOk(w, marker, blobs)
    ensures var dir := blobs[marker.publication];
            && Complete(w, dir, marker.publication) && w.parse(dir[MANIFEST]) == Some(ManifestIn(w, dir))
            && w.json(ManifestIn(w, dir)) == dir[MANIFEST]
            && (Published(w, dir, marker.publication) <==> Readable(w, ManifestIn(w, dir)))
  {
    assert BlobOk(w, blobs[marker.publication], marker.publication);
  }

  lemma RecoverOk(w: World, s: Local)
    requires Sound(w) && BlobsOk(w, s.blobs) && FilesOk(w, s.own, s.blobs)
    ensures var next := Recover(w, s.own, s.blobs);
            && PcOk(w, s.(pc := next)) && (next.Failed? <==> Fails(w, s.(pc := Recovering)))
            && (next.Importing? <==> s.own.intent.None? && s.own.marker.None?)
            && (next.Done? <==> s.own.marker.Some? && !next.Failed?)
            && (s.own.intent.Some? && s.own.marker.None? && !next.Failed? ==>
                  var job := JobOf(s.own.intent.value);
                  next == if BlobName(w, job) in s.blobs then WriteReady(job, false) else RecoverProbe(job))
  {
    if s.own.marker.Some? {
      MarkerRead(w, s.own.marker.value, s.blobs);
    } else if s.own.intent.Some? {
      var intent := s.own.intent.value;
      assert |w.json(intent.manifest)| <= w.intentBytes(intent);
      if intent.publication in s.blobs { BlobManifest(w, s.blobs, JobOf(intent)); }
    }
  }

  /** A step that only moves on, with nothing written. */
  lemma MovedOk(w: World, s: Local, pc: Pc)
    requires BlobsOk(w, s.blobs) && LocalOk(w, s) && PcOk(w, s.(pc := pc))
    requires pc.Failed? <==> s.pc.Failed? || Fails(w, s)
    ensures StepOk(w, s, s.(pc := pc))
  {
  }

  lemma RecoveringOk(w: World, s: Local)
    requires Sound(w) && BlobsOk(w, s.blobs) && LocalOk(w, s) && s.pc.Recovering?
    ensures StepOk(w, s, Step(w, s))
  {
    RecoverOk(w, s);
    MovedOk(w, s, Recover(w, s.own, s.blobs));
  }

  lemma InspectOk(w: World, s: Local)
    requires Sound(w) && BlobsOk(w, s.blobs) && LocalOk(w, s) && s.pc.Inspect?
    ensures StepOk(w, s, Step(w, s))
  {
    var job := s.pc.job;
    var found := BlobName(w, job) in s.blobs && Readable(w, job.manifest);
    if BlobName(w, job) in s.blobs { BlobManifest(w, s.blobs, job); }
    assert Step(w, s) == s.(pc := if found then WriteReady(job, true) else Probe(job));
    MovedOk(w, s, if found then WriteReady(job, true) else Probe(job));
  }

  lemma ProbeOk(w: World, s: Local)
    requires BlobsOk(w, s.blobs) && LocalOk(w, s) && s.pc.Probe?
    ensures StepOk(w, s, Step(w, s))
  {
    MovedOk(w, s, if BlobName(w, s.pc.job) in s.blobs then Failed else Rename(s.pc.job));
  }

  lemma RecoverProbeOk(w: World, s: Local)
    requires BlobsOk(w, s.blobs) && LocalOk(w, s) && s.pc.RecoverProbe?
    ensures StepOk(w, s, Step(w, s))
  {
  }

  lemma WriteIntentOk(w: World, s: Local)
    requires BlobsOk(w, s.blobs) && LocalOk(w, s) && s.pc.WriteIntent?
    ensures StepOk(w, s, Step(w, s))
  {
  }

  lemma ResumeStaged(w: World, dir: Dir, m: Files, path: string)
    requires Staged(w, dir, m)
    ensures Staged(w, dir - {ResumeName(path)}, m)
  {
    forall n | HasGgufExtension(n) ensures n != ResumeName(path) { NotListed(n); }
    StagedKept(w, dir, dir - {ResumeName(path)}, m);
  }

  lemma ResumeDropped(w: World, s: Local, job: Job, k: nat)
    requires LocalOk(w, s) && s.pc == DropResume(job, k) && k < |job.manifest.files| && ResumeClear(w, job.manifest, k)
    ensures var dir := s.own.staging.value - {ResumeName(job.manifest.files[k].path)};
            LocalOk(w, s.(own := s.own.(staging := Some(dir)), pc := DropResume(job, k + 1)))
  {
    ResumeStaged(w, s.own.staging.value, job.manifest, job.manifest.files[k].path);
  }

  lemma ResumeBlocked(w: World, dir: Dir, m: Files, k: nat)
    requires Staged(w, dir, m) && k < |m.files|
    ensures var name := ResumeName(m.files[k].path); (IsDir(dir, name) || !w.fits(name)) <==> !ResumeClear(w, m, k)
  {
    DirectoryListed(dir, m, ResumeName(m.files[k].path));
  }

  lemma DropResumeOk(w: World, s: Local)
    requires BlobsOk(w, s.blobs) && LocalOk(w, s) && s.pc.DropResume?
    ensures StepOk(w, s, Step(w, s))
  {
    var job, k := s.pc.job, s.pc.k;
    if k < |job.manifest.files| {
      ResumeBlocked(w, s.own.staging.value, job.manifest, k);
      if ResumeClear(w, job.manifest, k) { ResumeDropped(w, s, job, k); }
    }
  }

  lemma ManifestStaged(w: World, dir: Dir, m: Files)
    requires Staged(w, dir, m)
    ensures Staged(w, dir[MANIFEST := w.json(m)], m)
  {
    forall n | HasGgufExtension(n) ensures n != MANIFEST { NotListed(n); }
    OwnNamesSlashless(MANIFEST);
    StrangersKept(dir, dir[MANIFEST := w.json(m)], m, MANIFEST);
    StagedKept(w, dir, dir[MANIFEST := w.json(m)], m);
  }

  lemma ManifestNext(w: World, s: Local, job: Job)
    requires LocalOk(w, s) && s.pc == WriteManifest(job)
    ensures var dir := s.own.staging.value[MANIFEST := w.json(job.manifest)];
            Step(w, s) == if Lists(job.manifest, MANIFEST) then s.(pc := Failed)
                          else s.(own := s.own.(staging := Some(dir)), pc := Inspect(job))
  {
    DirectoryListed(s.own.staging.value, job.manifest, MANIFEST);
  }

  lemma ManifestWritten(w: World, s: Local, job: Job)
    requires LocalOk(w, s) && s.pc == WriteManifest(job) && !Lists(job.manifest, MANIFEST)
    ensures var dir := s.own.staging.value[MANIFEST := w.json(job.manifest)];
            LocalOk(w, s.(own := s.own.(staging := Some(dir)), pc := Inspect(job)))
  {
    var dir, m := s.own.staging.value, job.manifest;
    ManifestStaged(w, dir, m);
    ResumesGone(dir, dir[MANIFEST := w.json(m)], m, |m.files|, MANIFEST);
  }

  lemma WriteManifestOk(w: World, s: Local)
    requires BlobsOk(w, s.blobs) && LocalOk(w, s) && s.pc.WriteManifest?
    ensures StepOk(w, s, Step(w, s))
  {
    ManifestNext(w, s, s.pc.job);
    if !Lists(s.pc.job.manifest, MANIFEST) { ManifestWritten(w, s, s.pc.job); }
  }

  lemma Moved(w: World, s: Local, job: Job)
    requires Sound(w) && BlobsOk(w, s.blobs) && LocalOk(w, s) && s.pc == Rename(job) && BlobName(w, job) !in s.blobs
    ensures var after := s.blobs[BlobName(w, job) := s.own.staging.value];
            && BlobsOk(w, after) && Keeps(s.blobs, after)
            && LocalOk(w, Local(s.own.(staging := None), after, WriteReady(job, false)))
  {
    var dir := s.own.staging.value;
    assert w.parse(dir[MANIFEST]) == Some(job.manifest) && ManifestIn(w, dir) == job.manifest;
    BlobAdded(w, s.blobs, BlobName(w, job), dir);
  }

  lemma RenameOk(w: World, s: Local)
    requires Sound(w) && BlobsOk(w, s.blobs) && LocalOk(w, s) && s.pc.Rename?
    ensures StepOk(w, s, Step(w, s))
  {
    var job := s.pc.job;
    if BlobName(w, job) in s.blobs {
      BlobManifest(w, s.blobs, job);
      var pc := if Readable(w, job.manifest) then WriteReady(job, true) else Failed;
      assert Step(w, s) == s.(pc := pc);
      MovedOk(w, s, pc);
    } else {
      Moved(w, s, job);
    }
  }

  lemma ReadyWritable(w: World, blobs: Blobs, job: Job)
    requires Sound(w) && BlobsOk(w, blobs) && BlobName(w, job) in blobs
    ensures IsDir(blobs[BlobName(w, job)], READY) <==> Lists(job.manifest, READY)
    ensures !Lists(job.manifest, READY) ==>
              var after := PutBlob(blobs, BlobName(w, job), READY); BlobsOk(w, after) && Keeps(blobs, after)
  {
    var d := BlobName(w, job);
    assert BlobOk(w, blobs[d], d);
    BlobManifest(w, blobs, job);
    DirectoryListed(blobs[d], job.manifest, READY);
    if !Lists(job.manifest, READY) { BlobExtended(w, blobs, d, READY); }
  }

  lemma ReadyPut(w: World, s: Local, job: Job, hit: bool)
    requires Sound(w) && BlobsOk(w, s.blobs) && BlobName(w, job) in s.blobs && !Lists(job.manifest, READY)
    requires s.pc == WriteReady(job, hit)
    ensures Step(w, s) == Local(s.own, PutBlob(s.blobs, BlobName(w, job), READY), WriteMarker(job, hit))
  {
    ReadyWritable(w, s.blobs, job);
  }

  lemma ReadyKept(w: World, s: Local, job: Job, hit: bool)
    requires Sound(w) && BlobsOk(w, s.blobs) && LocalOk(w, s) && s.pc == WriteReady(job, hit)
    requires !Lists(job.manifest, READY)
    ensures var after := PutBlob(s.blobs, BlobName(w, job), READY);
            BlobsOk(w, after) && Keeps(s.blobs, after) && LocalOk(w, Local(s.own, after, WriteMarker(job, hit)))
  {
    ReadyWritable(w, s.blobs, job);
    OtherKept(w, s.(pc := Idle), PutBlob(s.blobs, BlobName(w, job), READY));
  }

  lemma WriteReadyOk(w: World, s: Local)
    requires Sound(w) && BlobsOk(w, s.blobs) && LocalOk(w, s) && s.pc.WriteReady?
    ensures StepOk(w, s, Step(w, s))
  {
    if Lists(s.pc.job.manifest, READY) {
      ReadyWritable(w, s.blobs, s.pc.job);
      MovedOk(w, s, Failed);
    } else {
      ReadyPut(w, s, s.pc.job, s.pc.hit);
      ReadyKept(w, s, s.pc.job, s.pc.hit);
    }
  }

  lemma WriteMarkerOk(w: World, s: Local)
    requires Sound(w) && BlobsOk(w, s.blobs) && LocalOk(w, s) && (s.pc.WriteMarker? || s.pc.DropStaging?)
    ensures StepOk(w, s, Step(w, s))
  {
    BlobManifest(w, s.blobs, s.pc.job);
  }

  lemma EndingOk(w: World, s: Local)
    requires BlobsOk(w, s.blobs) && LocalOk(w, s)
    requires s.pc.Idle? || s.pc.Importing? || s.pc.Done? || s.pc.Failed?
    ensures StepOk(w, s, Step(w, s))
  {
    assert Step(w, s) == s.(pc := s.pc);
    MovedOk(w, s, s.pc);
  }

  /** What a step of an importer keeps, and when exactly it fails. */
  lemma StepKeeps(w: World, s: Local)
    requires Sound(w) && BlobsOk(w, s.blobs) && LocalOk(w, s)
    ensures StepOk(w, s, Step(w, s))
  {
    match s.pc {
      case WriteIntent(_) => WriteIntentOk(w, s);
      case DropResume(_, _) => DropResumeOk(w, s);
      case WriteManifest(_) => WriteManifestOk(w, s);
      case Rename(_) => RenameOk(w, s);
      case WriteReady(_, _) => WriteReadyOk(w, s);
      case Recovering => RecoveringOk(w, s);
      case RecoverProbe(_) => RecoverProbeOk(w, s);
      case WriteMarker(_, _) => WriteMarkerOk(w, s);
      case DropStaging(_) => WriteMarkerOk(w, s);
      case Probe(_) => ProbeOk(w, s);
      case Inspect(_) => InspectOk(w, s);
      case _ => EndingOk(w, s);
    }
  }

  lemma InterruptedOk(w: World, s: Local, name: string)
    requires BlobsOk(w, s.blobs) && LocalOk(w, s)
    ensures var after := Interrupted(w, s, name);
            && BlobsOk(w, after.blobs) && FilesOk(w, after.own, after.blobs)
            && Keeps(s.blobs, after.blobs) && Commits(s.own, after.own)
  {
    if s.pc.WriteManifest? && Leftover(name, MANIFEST) {
      OwnNamesSlashless(name);
      StrangersKept(s.own.staging.value, s.own.staging.value[name := w.json(s.pc.job.manifest)], s.pc.job.manifest,
          name);
    } else if s.pc.WriteReady? && Leftover(name, READY) && name !in s.blobs[BlobName(w, s.pc.job)] {
      BlobExtended(w, s.blobs, BlobName(w, s.pc.job), name);
      OtherKept(w, s.(pc := Idle), PutBlob(s.blobs, BlobName(w, s.pc.job), name));
    }
  }

  lemma CleanKeeps(w: World, s: Local, what: Removal)
    requires FilesOk(w, s.own, s.blobs)
    ensures FilesOk(w, Removed(s.own, what), s.blobs)
  {
  }

  lemma ImportKept(w: World, s: Local, dir: Dir)
    requires LocalOk(w, s)
    ensures LocalOk(w, React(w, s, Import(dir)))
  {
  }

  lemma ReactKeeps(w: World, s: Local, e: Event)
    requires Sound(w) && BlobsOk(w, s.blobs) && LocalOk(w, s)
    ensures var after := React(w, s, e);
            && BlobsOk(w, after.blobs) && LocalOk(w, after) && Keeps(s.blobs, after.blobs)
            && (!e.Clean? ==> Commits(s.own, after.own))
  {
    match e {
      case Advance => StepKeeps(w, s);
      case Crash(leftover) => if leftover.Some? { InterruptedOk(w, s, leftover.value); }
      case Clean(what) => CleanKeeps(w, s, what);
      case Import(dir) => ImportKept(w, s, dir);
      case _ =>
    }
  }

  // ---- whole runs -----------------------------------------------------------------------------

  lemma OtherKept(w: World, s: Local, blobs: Blobs)
    requires BlobsOk(w, s.blobs) && LocalOk(w, s) && Keeps(s.blobs, blobs)
    ensures LocalOk(w, s.(blobs := blobs))
  {
    if s.own.marker.Some? {
      var d := s.own.marker.value.publication;
      assert BlobOk(w, s.blobs[d], d) && Extends(s.blobs[d], blobs[d]);
      assert ManifestIn(w, blobs[d]) == ManifestIn(w, s.blobs[d]);
    }
  }

  lemma PutKeeps(w: World, s: Sys, op: Op, l: Local, clean: bool)
    requires Inv(w, s) && BlobsOk(w, l.blobs) && LocalOk(w, l) && Keeps(s.blobs, l.blobs)
    requires !clean ==> Commits(At(s, op).own, l.own)
    ensures Inv(w, Put(s, op, l)) && Keeps(s.blobs, Put(s, op, l).blobs)
    ensures forall o :: !(o == op && clean) ==> Commits(At(s, o).own, At(Put(s, op, l), o).own)
  {
    var after := Put(s, op, l);
    assert At(after, op) == l;
    forall o ensures LocalOk(w, At(after, o)) && (!(o == op && clean) ==> Commits(At(s, o).own, At(after, o).own)) {
      if o != op {
        assert At(after, o) == At(s, o).(blobs := l.blobs);
        OtherKept(w, At(s, o), l.blobs);
      }
    }
  }

  lemma NextKeeps(w: World, s: Sys, op: Op, e: Event)
    requires Sound(w) && Inv(w, s)
    ensures Inv(w, Next(w, s, op, e)) && Keeps(s.blobs, Next(w, s, op, e).blobs)
    ensures forall o :: !(o == op && e.Clean?) ==> Commits(At(s, o).own, At(Next(w, s, op, e), o).own)
  {
    ReactKeeps(w, At(s, op), e);
    PutKeeps(w, s, op, React(w, At(s, op), e), e.Clean?);
  }

  lemma KeepsTransitive(a: Blobs, b: Blobs, c: Blobs)
    requires Keeps(a, b) && Keeps(b, c)
    ensures Keeps(a, c)
  {
  }

  /** No cleanup of the operation. */
  ghost predicate Uncleaned(actions: seq<(Op, Event)>, op: Op) {
    forall i :: 0 <= i < |actions| ==> !(actions[i].0 == op && actions[i].1.Clean?)
  }

  /** Over every run, cleanups included: the invariant and blobs for good, and
      intents and markers for good until a cleanup of the operation. */
  lemma {:induction false} RunKeeps(w: World, s: Sys, actions: seq<(Op, Event)>)
    requires Sound(w) && Inv(w, s)
    ensures var after := Run(w, s, actions);
            && Inv(w, after) && Keeps(s.blobs, after.blobs)
            && forall op :: Uncleaned(actions, op) ==> Commits(At(s, op).own, At(after, op).own)
    decreases |actions|
  {
    if actions != [] {
      var next := Next(w, s, actions[0].0, actions[0].1);
      NextKeeps(w, s, actions[0].0, actions[0].1);
      RunKeeps(w, next, actions[1..]);
      KeepsTransitive(s.blobs, next.blobs, Run(w, s, actions).blobs);
      forall op | Uncleaned(actions, op) ensures Commits(At(s, op).own, At(Run(w, s, actions), op).own) {
        assert !(actions[0].0 == op && actions[0].1.Clean?);
        assert Uncleaned(actions[1..], op);
        assert Commits(At(s, op).own, At(next, op).own);
        assert Commits(At(next, op).own, At(Run(w, next, actions[1..]), op).own);
      }
    }
  }

  lemma EmptyOk(w: World)
    ensures Inv(w, EMPTY)
  {
  }

  ghost predicate Reachable(w: World, s: Sys) {
    exists actions :: s == Run(w, EMPTY, actions)
  }

  lemma ReachableOk(w: World, s: Sys)
    requires Sound(w) && Reachable(w, s)
    ensures Inv(w, s)
  {
    EmptyOk(w);
    var actions :| s == Run(w, EMPTY, actions);
    RunKeeps(w, EMPTY, actions);
  }

  lemma BlobStays(w: World, blobs: Blobs, after: Blobs, d: Digest)
    requires Sound(w) && BlobsOk(w, blobs) && BlobsOk(w, after) && Keeps(blobs, after) && d in blobs
            && READY in blobs[d]
    ensures Complete(w, blobs[d], d) && MANIFEST in blobs[d]
    ensures var m := w.parse(blobs[d][MANIFEST]);
            m.Some? && CanonicalManifest(m.value) && w.sha(w.json(m.value)) == d && FilesMatch(w, blobs[d], m.value)
    ensures d in after && Extends(blobs[d], after[d]) && Complete(w, after[d], d)
    ensures Published(w, after[d], d) <==> |blobs[d][MANIFEST]| <= MAX_DOCUMENT
  {
    assert BlobOk(w, blobs[d], d) && BlobOk(w, after[d], d);
    assert CanonicalManifest(w.parse(blobs[d][MANIFEST]).value);
  }

  /** READY means: the manifest there has this digest, and every listed file
      has its size and its hash. In every reachable state, and from then on
      whatever anybody does, cleanups included. A reader accepts it exactly
      when the manifest is not too large to read. */
  lemma ReadyMeansValid(w: World, s: Sys, later: seq<(Op, Event)>, d: Digest)
    requires Sound(w) && Reachable(w, s) && d in s.blobs && READY in s.blobs[d]
    ensures Complete(w, s.blobs[d], d) && MANIFEST in s.blobs[d]
    ensures var m := w.parse(s.blobs[d][MANIFEST]);
            m.Some? && CanonicalManifest(m.value) && w.sha(w.json(m.value)) == d && FilesMatch(w, s.blobs[d], m.value)
    ensures var after := Run(w, s, later).blobs; d in after && Extends(s.blobs[d], after[d]) && Complete(w, after[d], d)
    ensures Published(w, Run(w, s, later).blobs[d], d) <==> |s.blobs[d][MANIFEST]| <= MAX_DOCUMENT
  {
    ReachableOk(w, s);
    RunKeeps(w, s, later);
    BlobStays(w, s.blobs, Run(w, s, later).blobs, d);
  }

  /** No checkpoint of a download is ever in a blob. */
  lemma NoCheckpointInBlob(w: World, s: Sys, d: Digest)
    requires Sound(w) && Reachable(w, s) && d in s.blobs
    ensures MANIFEST in s.blobs[d] && w.parse(s.blobs[d][MANIFEST]).Some?
    ensures forall f :: f in w.parse(s.blobs[d][MANIFEST]).value.files ==> f.path + ".resume.json" !in s.blobs[d]
  {
    ReachableOk(w, s);
    assert BlobOk(w, s.blobs[d], d);
    var m := ManifestIn(w, s.blobs[d]);
    forall f | f in m.files ensures f.path + ".resume.json" !in s.blobs[d] {
      var i :| 0 <= i < |m.files| && m.files[i] == f;
      assert ResumeName(m.files[i].path) !in s.blobs[d];
    }
  }

  /** A marker means READY, in every reachable state. */
  lemma MarkerMeansReady(w: World, s: Sys, op: Op)
    requires Sound(w) && Reachable(w, s) && At(s, op).own.marker.Some?
    ensures var d := At(s, op).own.marker.value.publication; d in s.blobs && Complete(w, s.blobs[d], d)
  {
    ReachableOk(w, s);
    assert LocalOk(w, At(s, op));
    BlobStays(w, s.blobs, s.blobs, At(s, op).own.marker.value.publication);
  }

  // ---- recovery ---------------------------------------------------------------------------------

  /** Recovery finds nothing exactly when there is neither intent nor marker. */
  lemma NothingToRecover(w: World, s: Local)
    requires Sound(w) && BlobsOk(w, s.blobs) && LocalOk(w, s) && s.pc.Recovering?
    ensures Step(w, s).pc.Importing? <==> s.own.intent.None? && s.own.marker.None?
  {
    RecoverOk(w, s);
  }

  lemma DoneReports(w: World, own: Own, l: Local)
    requires Sound(w) && BlobsOk(w, l.blobs) && LocalOk(w, l) && l.pc.Done? && own.intent.Some? && Commits(own, l.own)
    ensures l.pc.report == ReportOf(own.intent.value)
  {
    BlobManifest(w, l.blobs, JobOf(own.intent.value));
  }

  /** Every report of an operation, at any later time and after any crashes,
      is the one its intent determines, until the operation is cleaned up. */
  lemma ReportsAgree(w: World, s: Sys, later: seq<(Op, Event)>, op: Op)
    requires Sound(w) && Reachable(w, s) && At(s, op).own.intent.Some? && At(Run(w, s, later), op).pc.Done?
    requires Uncleaned(later, op)
    ensures At(Run(w, s, later), op).pc.report == ReportOf(At(s, op).own.intent.value)
  {
    ReachableOk(w, s);
    RunKeeps(w, s, later);
    DoneReports(w, At(s, op).own, At(Run(w, s, later), op));
  }

  /** The importer is at work on `job`, or has come to an end with it. */
  ghost predicate OnJob(w: World, s: Local, job: Job) {
    match s.pc
    case Recovering => s.own.intent == Some(IntentOf(w, job))
    case Done(report) => report == ReportOf(IntentOf(w, job))
    case Idle => false
    case Importing => false
    case Failed => true
    case _ => s.pc.job == job
  }

  ghost predicate AtWork(w: World, s: Local, job: Job) {
    BlobsOk(w, s.blobs) && LocalOk(w, s) && OnJob(w, s, job)
  }

  predicate HoldsFiles(w: World, own: Own, m: Files) {
    own.staging.Some? && ContentOk(w, own.staging.value, m)
  }

  /** From `Inspect` on: READY can be written, and a blob that is there already
      can be read. */
  predicate Placeable(w: World, blobs: Blobs, job: Job) {
    !Lists(job.manifest, READY) && (BlobName(w, job) in blobs ==> Readable(w, job.manifest))
  }

  predicate RecoverPasses(w: World, own: Own, blobs: Blobs, job: Job) {
    if own.marker.Some? then Readable(w, job.manifest)
    else
      && w.intentBytes(IntentOf(w, job)) <= MAX_DOCUMENT
      && if BlobName(w, job) in blobs then !Lists(job.manifest, READY)
         else HoldsFiles(w, own, job.manifest) && Clear(w, job.manifest)
  }

  /** Whether the rest of the way is free: said of the manifest and of what is
      on disk, without taking a step. */
  predicate Passes(w: World, s: Local, job: Job) {
    match s.pc
    case Recovering => RecoverPasses(w, s.own, s.blobs, job)
    case RecoverProbe(_) =>
      BlobName(w, job) !in s.blobs && HoldsFiles(w, s.own, job.manifest) && Clear(w, job.manifest)
    case WriteIntent(_) => Movable(w, job.manifest) && Placeable(w, s.blobs, job)
    case DropResume(_, k) =>
      && (forall i :: k <= i < |job.manifest.files| ==> ResumeClear(w, job.manifest, i))
      && !Lists(job.manifest, MANIFEST) && Placeable(w, s.blobs, job)
    case WriteManifest(_) => !Lists(job.manifest, MANIFEST) && Placeable(w, s.blobs, job)
    case Inspect(_) => Placeable(w, s.blobs, job)
    case Probe(_) => BlobName(w, job) !in s.blobs && !Lists(job.manifest, READY)
    case Rename(_) => Placeable(w, s.blobs, job)
    case WriteReady(_, _) => !Lists(job.manifest, READY)
    case WriteMarker(_, _) => true
    case DropStaging(_) => true
    case Done(_) => true
    case _ => false
  }

  // ---- where it ends -----------------------------------------------------------------------------

  function ResumesFrom(m: Files, k: nat): set<string> {
    set i | k <= i < |m.files| :: ResumeName(m.files[i].path)
  }

  function StagedDir(own: Own): Dir {
    if own.staging.Some? then own.staging.value else map[]
  }

  /** What is renamed: the staged files without the checkpoints, and the manifest. */
  function Wrapped(w: World, dir: Dir, m: Files, k: nat): Dir {
    (dir - ResumesFrom(m, k))[MANIFEST := w.json(m)]
  }

  function Recorded(w: World, staging: Option<Dir>, blobs: Blobs, job: Job): Local {
    var intent := IntentOf(w, job);
    Local(Own(staging, Some(intent), Some(MarkerOf(intent))), blobs, Done(ReportOf(intent)))
  }

  function WithReady(w: World, blobs: Blobs, dir: Dir, job: Job): Blobs {
    var d := BlobName(w, job); blobs[d := (if d in blobs then blobs[d] else dir)[READY := d + "\n"]]
  }

  function FromStaged(w: World, blobs: Blobs, dir: Dir, job: Job, k: nat): Local {
    Recorded(w, None, WithReady(w, blobs, Wrapped(w, dir, job.manifest, k), job), job)
  }

  /** The state a free way leads to: said of what is on disk, without taking
      a step. */
  function Ends(w: World, s: Local, job: Job): Local {
    var dir, n := StagedDir(s.own), |job.manifest.files|;
    match s.pc
    case Recovering =>
      if s.own.marker.Some? then s.(pc := Done(ReportOf(IntentOf(w, job))))
      else if BlobName(w, job) in s.blobs then Recorded(w, s.own.staging, WithReady(w, s.blobs, dir, job), job)
      else FromStaged(w, s.blobs, dir, job, 0)
    case RecoverProbe(_) => FromStaged(w, s.blobs, dir, job, 0)
    case WriteIntent(_) => FromStaged(w, s.blobs, dir, job, 0)
    case DropResume(_, k) => FromStaged(w, s.blobs, dir, job, k)
    case WriteManifest(_) => FromStaged(w, s.blobs, dir, job, n)
    case Inspect(_) => Recorded(w, None, WithReady(w, s.blobs, dir, job), job)
    case Probe(_) => Recorded(w, None, WithReady(w, s.blobs, dir, job), job)
    case Rename(_) => Recorded(w, None, WithReady(w, s.blobs, dir, job), job)
    case WriteReady(_, hit) =>
      Recorded(w, if hit then None else s.own.staging, WithReady(w, s.blobs, dir, job), job)
    case WriteMarker(_, hit) => Recorded(w, if hit then None else s.own.staging, s.blobs, job)
    case DropStaging(_) => Recorded(w, None, s.blobs, job)
    case _ => s
  }

  /** How many steps are left at most. */
  function Rank(pc: Pc, n: nat): nat {
    match pc
    case Recovering => n + 11
    case RecoverProbe(_) => n + 10
    case WriteIntent(_) => n + 9
    case DropResume(_, k) => (if k <= n then n - k else 0) + 8
    case WriteManifest(_) => 7
    case Inspect(_) => 6
    case Probe(_) => 5
    case Rename(_) => 4
    case WriteReady(_, _) => 3
    case WriteMarker(_, _) => 2
    case DropStaging(_) => 1
    case _ => 0
  }

  /** A step decides nothing that was not decided before it. */
  ghost predicate GoesOnWith(w: World, s: Local, after: Local, job: Job) {
    && OnJob(w, after, job) && (Passes(w, after, job) <==> Passes(w, s, job))
    && Rank(after.pc, |job.manifest.files|) < Rank(s.pc, |job.manifest.files|)
  }

  lemma RecoverPassesOn(w: World, s: Local, job: Job)
    requires Sound(w) && AtWork(w, s, job) && s.pc.Recovering?
    ensures GoesOnWith(w, s, Step(w, s), job)
  {
    RecoverOk(w, s);
    if s.own.marker.Some? { BlobManifest(w, s.blobs, job); }
  }

  lemma RecoverProbePassesOn(w: World, s: Local, job: Job)
    requires AtWork(w, s, job) && s.pc.RecoverProbe?
    ensures GoesOnWith(w, s, Step(w, s), job)
  {
  }

  lemma WriteIntentPassesOn(w: World, s: Local, job: Job)
    requires AtWork(w, s, job) && s.pc.WriteIntent?
    ensures GoesOnWith(w, s, Step(w, s), job)
  {
  }

  lemma DropResumeNext(w: World, s: Local, job: Job, k: nat)
    requires LocalOk(w, s) && s.pc == DropResume(job, k)
    ensures Step(w, s).blobs == s.blobs
    ensures Step(w, s).pc == if k >= |job.manifest.files| then WriteManifest(job)
                             else if ResumeClear(w, job.manifest, k) then DropResume(job, k + 1) else Failed
  {
    if k < |job.manifest.files| { ResumeBlocked(w, s.own.staging.value, job.manifest, k); }
  }

  lemma DropResumeGoesOn(w: World, s: Local, t: Local, job: Job, k: nat)
    requires s.pc == DropResume(job, k) && k <= |job.manifest.files| && t.blobs == s.blobs
    requires t.pc == if k >= |job.manifest.files| then WriteManifest(job)
                     else if ResumeClear(w, job.manifest, k) then DropResume(job, k + 1) else Failed
    ensures GoesOnWith(w, s, t, job)
  {
  }

  lemma DropResumePassesOn(w: World, s: Local, job: Job)
    requires AtWork(w, s, job) && s.pc.DropResume?
    ensures GoesOnWith(w, s, Step(w, s), job)
  {
    DropResumeNext(w, s, job, s.pc.k);
    DropResumeGoesOn(w, s, Step(w, s), job, s.pc.k);
  }

  lemma WriteManifestPassesOn(w: World, s: Local, job: Job)
    requires AtWork(w, s, job) && s.pc.WriteManifest?
    ensures GoesOnWith(w, s, Step(w, s), job)
  {
    ManifestNext(w, s, job);
  }

  lemma InspectPassesOn(w: World, s: Local, job: Job)
    requires Sound(w) && AtWork(w, s, job) && s.pc.Inspect?
    ensures GoesOnWith(w, s, Step(w, s), job)
  {
    if BlobName(w, job) in s.blobs { BlobManifest(w, s.blobs, job); }
  }

  lemma ProbePassesOn(w: World, s: Local, job: Job)
    requires AtWork(w, s, job) && s.pc.Probe?
    ensures GoesOnWith(w, s, Step(w, s), job)
  {
  }

  lemma RenameNext(w: World, s: Local, job: Job)
    requires Sound(w) && BlobsOk(w, s.blobs) && LocalOk(w, s) && s.pc == Rename(job)
    ensures Step(w, s).pc == if BlobName(w, job) !in s.blobs then WriteReady(job, false)
                             else if Readable(w, job.manifest) then WriteReady(job, true) else Failed
  {
    if BlobName(w, job) in s.blobs { BlobManifest(w, s.blobs, job); }
  }

  lemma RenameGoesOn(w: World, s: Local, t: Local, job: Job)
    requires s.pc == Rename(job)
    requires t.pc == if BlobName(w, job) !in s.blobs then WriteReady(job, false)
                     else if Readable(w, job.manifest) then WriteReady(job, true) else Failed
    ensures GoesOnWith(w, s, t, job)
  {
  }

  lemma RenamePassesOn(w: World, s: Local, job: Job)
    requires Sound(w) && AtWork(w, s, job) && s.pc.Rename?
    ensures GoesOnWith(w, s, Step(w, s), job)
  {
    RenameNext(w, s, job);
    RenameGoesOn(w, s, Step(w, s), job);
  }

  lemma ReadyWritten(w: World, s: Local, job: Job, hit: bool)
    requires Sound(w) && BlobsOk(w, s.blobs) && LocalOk(w, s) && s.pc == WriteReady(job, hit)
    ensures Step(w, s).pc == if Lists(job.manifest, READY) then Failed else WriteMarker(job, hit)
  {
    ReadyWritable(w, s.blobs, job);
  }

  lemma WriteReadyPassesOn(w: World, s: Local, job: Job)
    requires Sound(w) && AtWork(w, s, job) && s.pc.WriteReady?
    ensures GoesOnWith(w, s, Step(w, s), job)
  {
    ReadyWritten(w, s, job, s.pc.hit);
  }

  lemma EndingPassesOn(w: World, s: Local, job: Job)
    requires AtWork(w, s, job) && (s.pc.WriteMarker? || s.pc.DropStaging?)
    ensures GoesOnWith(w, s, Step(w, s), job)
  {
  }

  lemma StepGoesOn(w: World, s: Local, job: Job)
    requires Sound(w) && AtWork(w, s, job) && !s.pc.Done? && !s.pc.Failed?
    ensures GoesOnWith(w, s, Step(w, s), job)
  {
    match s.pc {
      case Recovering => RecoverPassesOn(w, s, job);
      case RecoverProbe(_) => RecoverProbePassesOn(w, s, job);
      case WriteIntent(_) => WriteIntentPassesOn(w, s, job);
      case DropResume(_, _) => DropResumePassesOn(w, s, job);
      case WriteManifest(_) => WriteManifestPassesOn(w, s, job);
      case Inspect(_) => InspectPassesOn(w, s, job);
      case Probe(_) => ProbePassesOn(w, s, job);
      case Rename(_) => RenamePassesOn(w, s, job);
      case WriteReady(_, _) => WriteReadyPassesOn(w, s, job);
      case _ => EndingPassesOn(w, s, job);
    }
  }

  lemma StepAlone(w: World, s: Local, job: Job)
    requires Sound(w) && AtWork(w, s, job) && !s.pc.Done? && !s.pc.Failed?
    ensures AtWork(w, Step(w, s), job) && GoesOnWith(w, s, Step(w, s), job)
  {
    StepKeeps(w, s);
    StepGoesOn(w, s, job);
  }

  function Iterate<S>(step: S -> S, s: S, n: nat): S
    decreases n
  {
    if n == 0 then s else Iterate(step, step(s), n - 1)
  }

  lemma {:induction false} IterateStays<S>(step: S -> S, s: S, n: nat)
    requires step(s) == s
    ensures Iterate(step, s, n) == s
  {
    if n > 0 { IterateStays(step, s, n - 1); }
  }

  ghost predicate Progress<S(!new)>(step: S -> S, ok: S -> bool, done: S -> bool, rank: S -> nat) {
    forall x {:trigger step(x)} :: ok(x) ==>
      if done(x) then step(x) == x else ok(step(x)) && rank(step(x)) < rank(x)
  }

  /** A step that keeps `ok` and lowers `rank` until `done` comes to an end. */
  lemma {:induction false} IterateEnds<S(!new)>(step: S -> S, ok: S -> bool, done: S -> bool, rank: S -> nat, s: S,
    n: nat)
    requires Progress(step, ok, done, rank) && ok(s) && rank(s) <= n
    ensures ok(Iterate(step, s, n)) && done(Iterate(step, s, n))
    decreases n
  {
    var next := step(s);
    if done(s) {
      IterateStays(step, s, n);
    } else {
      IterateEnds(step, ok, done, rank, next, n - 1);
    }
  }

  /** The importer of one operation, left alone for `n` steps. */
  function Alone(w: World, s: Local, n: nat): Local {
    Iterate((x: Local) => Step(w, x), s, n)
  }

  ghost predicate Decided(w: World, s: Local, job: Job, passes: bool) {
    AtWork(w, s, job) && (Passes(w, s, job) <==> passes)
  }

  lemma WorkProgresses(
    w: World, job: Job, passes: bool, step: Local -> Local, ok: Local -> bool, done: Local -> bool, rank: Local -> nat)
    requires Sound(w)
    requires forall x {:trigger Step(w, x)} :: step(x) == Step(w, x)
    requires forall x {:trigger Decided(w, x, job, passes)} :: ok(x) == Decided(w, x, job, passes)
    requires forall x {:trigger Rank(x.pc, |job.manifest.files|)} :: rank(x) == Rank(x.pc, |job.manifest.files|)
    requires forall x {:trigger done(x)} :: done(x) == (x.pc.Done? || x.pc.Failed?)
    ensures Progress(step, ok, done, rank)
  {
    forall x | ok(x) ensures if done(x) then step(x) == x else ok(step(x)) && rank(step(x)) < rank(x) {
      assert ok(x) == Decided(w, x, job, passes) && step(x) == Step(w, x);
      if !done(x) {
        StepAlone(w, x, job);
        assert ok(step(x)) == Decided(w, Step(w, x), job, passes);
        assert rank(x) == Rank(x.pc, |job.manifest.files|);
        assert rank(step(x)) == Rank(Step(w, x).pc, |job.manifest.files|);
      }
    }
  }

  lemma WorkEnds(
    w: World, s: Local, job: Job, passes: bool, n: nat, step: Local -> Local, ok: Local -> bool, done: Local -> bool,
    rank: Local -> nat)
    requires Sound(w) && ok(s) && rank(s) <= n
    requires forall x {:trigger Step(w, x)} :: step(x) == Step(w, x)
    requires forall x {:trigger Decided(w, x, job, passes)} :: ok(x) == Decided(w, x, job, passes)
    requires forall x {:trigger Rank(x.pc, |job.manifest.files|)} :: rank(x) == Rank(x.pc, |job.manifest.files|)
    requires forall x {:trigger done(x)} :: done(x) == (x.pc.Done? || x.pc.Failed?)
    ensures ok(Iterate(step, s, n)) && done(Iterate(step, s, n))
  {
    WorkProgresses(w, job, passes, step, ok, done, rank);
    IterateEnds(step, ok, done, rank, s, n);
  }

  /** Left alone, publication and recovery come to an end: with the report of
      the intent exactly when the rest of the way is free, and otherwise with a
      failure. */
  lemma CompletesAlone(w: World, s: Local, job: Job, n: nat)
    requires Sound(w) && AtWork(w, s, job) && Rank(s.pc, |job.manifest.files|) <= n
    ensures AtWork(w, Alone(w, s, n), job)
    ensures Alone(w, s, n).pc == if Passes(w, s, job) then Done(ReportOf(IntentOf(w, job))) else Failed
  {
    var passes := Passes(w, s, job);
    WorkEnds(w, s, job, passes, n, (x: Local) => Step(w, x), x => Decided(w, x, job, passes),
             (x: Local) => x.pc.Done? || x.pc.Failed?, (x: Local) => Rank(x.pc, |job.manifest.files|));
  }

  ghost predicate Free(w: World, s: Local, job: Job) {
    AtWork(w, s, job) && Passes(w, s, job)
  }

  lemma RecoverEnds(w: World, s: Local, job: Job)
    requires Sound(w) && Free(w, s, job) && s.pc.Recovering?
    ensures Ends(w, Step(w, s), job) == Ends(w, s, job)
  {
    RecoverOk(w, s);
    if s.own.marker.Some? { BlobManifest(w, s.blobs, job); }
  }

  lemma RecoverProbeNext(w: World, s: Local, job: Job)
    requires Free(w, s, job) && (s.pc.RecoverProbe? || s.pc.WriteIntent?)
    ensures Step(w, s).blobs == s.blobs && Step(w, s).own.staging == s.own.staging
    ensures Step(w, s).pc == if s.pc.RecoverProbe? then WriteIntent(job) else DropResume(job, 0)
  {
  }

  lemma SameStaged(w: World, s: Local, t: Local, job: Job)
    requires s.pc.RecoverProbe? || s.pc.WriteIntent?
    requires t.blobs == s.blobs && t.own.staging == s.own.staging
    requires t.pc == if s.pc.RecoverProbe? then WriteIntent(job) else DropResume(job, 0)
    ensures Ends(w, t, job) == Ends(w, s, job)
  {
  }

  lemma RecoverProbeEnds(w: World, s: Local, job: Job)
    requires Free(w, s, job) && (s.pc.RecoverProbe? || s.pc.WriteIntent?)
    ensures Ends(w, Step(w, s), job) == Ends(w, s, job)
  {
    RecoverProbeNext(w, s, job);
    SameStaged(w, s, Step(w, s), job);
  }

  lemma WrappedNext(w: World, dir: Dir, m: Files, k: nat)
    requires k < |m.files|
    ensures Wrapped(w, dir - {ResumeName(m.files[k].path)}, m, k + 1) == Wrapped(w, dir, m, k)
  {
    assert ResumesFrom(m, k) == ResumesFrom(m, k + 1) + {ResumeName(m.files[k].path)};
    assert dir - {ResumeName(m.files[k].path)} - ResumesFrom(m, k + 1) == dir - ResumesFrom(m, k);
  }

  lemma ResumeGone(w: World, s: Local, t: Local, job: Job, k: nat)
    requires s.pc == DropResume(job, k) && k < |job.manifest.files| && t.pc == DropResume(job, k + 1)
    requires t.blobs == s.blobs && s.own.staging.Some?
    requires t.own.staging == Some(s.own.staging.value - {ResumeName(job.manifest.files[k].path)})
    ensures Ends(w, t, job) == Ends(w, s, job)
  {
    WrappedNext(w, s.own.staging.value, job.manifest, k);
  }

  lemma ResumesDone(w: World, s: Local, t: Local, job: Job)
    requires s.pc == DropResume(job, |job.manifest.files|) && t == s.(pc := WriteManifest(job))
    ensures Ends(w, t, job) == Ends(w, s, job)
  {
  }

  lemma DropResumeMoves(w: World, s: Local, job: Job, k: nat)
    requires s.pc == DropResume(job, k) && k < |job.manifest.files| && s.own.staging.Some?
    requires Staged(w, s.own.staging.value, job.manifest) && ResumeClear(w, job.manifest, k)
    ensures Step(w, s).pc == DropResume(job, k + 1) && Step(w, s).blobs == s.blobs
    ensures Step(w, s).own.staging == Some(s.own.staging.value - {ResumeName(job.manifest.files[k].path)})
  {
    ResumeBlocked(w, s.own.staging.value, job.manifest, k);
  }

  lemma DropResumeEnds(w: World, s: Local, job: Job)
    requires Free(w, s, job) && s.pc.DropResume?
    ensures Ends(w, Step(w, s), job) == Ends(w, s, job)
  {
    if s.pc.k < |job.manifest.files| {
      DropResumeMoves(w, s, job, s.pc.k);
      ResumeGone(w, s, Step(w, s), job, s.pc.k);
    } else {
      ResumesDone(w, s, Step(w, s), job);
    }
  }

  lemma ManifestPut(w: World, s: Local, t: Local, job: Job)
    requires s.pc == WriteManifest(job) && t.pc == Inspect(job) && t.blobs == s.blobs && s.own.staging.Some?
    requires t.own.staging == Some(s.own.staging.value[MANIFEST := w.json(job.manifest)])
    ensures Ends(w, t, job) == Ends(w, s, job)
  {
    var dir, m := s.own.staging.value, job.manifest;
    assert ResumesFrom(m, |m.files|) == {};
    assert dir - {} == dir;
    assert Wrapped(w, dir, m, |m.files|) == dir[MANIFEST := w.json(m)];
  }

  lemma WriteManifestEnds(w: World, s: Local, job: Job)
    requires Free(w, s, job) && s.pc.WriteManifest?
    ensures Ends(w, Step(w, s), job) == Ends(w, s, job)
  {
    ManifestNext(w, s, job);
    ManifestPut(w, s, Step(w, s), job);
  }

  lemma InspectEnds(w: World, s: Local, job: Job)
    requires Sound(w) && Free(w, s, job) && (s.pc.Inspect? || s.pc.Probe?)
    ensures Ends(w, Step(w, s), job) == Ends(w, s, job)
  {
    if BlobName(w, job) in s.blobs { BlobManifest(w, s.blobs, job); }
  }

  lemma RenameFound(w: World, s: Local, t: Local, job: Job)
    requires s.pc == Rename(job) && BlobName(w, job) in s.blobs && t == s.(pc := WriteReady(job, true))
    ensures Ends(w, t, job) == Ends(w, s, job)
  {
  }

  lemma RenamedEnds(w: World, s: Local, t: Local, job: Job)
    requires s.pc == Rename(job) && BlobName(w, job) !in s.blobs && s.own.staging.Some?
    requires t.own == s.own.(staging := None) && t.pc == WriteReady(job, false)
    requires t.blobs == s.blobs[BlobName(w, job) := s.own.staging.value]
    ensures Ends(w, t, job) == Ends(w, s, job)
  {
    var d, dir := BlobName(w, job), s.own.staging.value;
    assert s.blobs[d := dir][d := dir[READY := d + "\n"]] == s.blobs[d := dir[READY := d + "\n"]];
  }

  lemma RenameEnds(w: World, s: Local, job: Job)
    requires Sound(w) && Free(w, s, job) && s.pc.Rename?
    ensures Ends(w, Step(w, s), job) == Ends(w, s, job)
  {
    var d := BlobName(w, job);
    if d in s.blobs {
      RenameNext(w, s, job);
      RenameFound(w, s, Step(w, s), job);
    } else {
      RenamedEnds(w, s, Step(w, s), job);
    }
  }

  lemma ReadyPutEnds(w: World, s: Local, t: Local, job: Job, hit: bool)
    requires s.pc == WriteReady(job, hit) && BlobName(w, job) in s.blobs
    requires t == Local(s.own, PutBlob(s.blobs, BlobName(w, job), READY), WriteMarker(job, hit))
    ensures Ends(w, t, job) == Ends(w, s, job)
  {
  }

  lemma WriteReadyEnds(w: World, s: Local, job: Job)
    requires Sound(w) && Free(w, s, job) && s.pc.WriteReady?
    ensures Ends(w, Step(w, s), job) == Ends(w, s, job)
  {
    ReadyPut(w, s, job, s.pc.hit);
    ReadyPutEnds(w, s, Step(w, s), job, s.pc.hit);
  }

  lemma MarkerEnds(w: World, s: Local, job: Job)
    requires Free(w, s, job) && (s.pc.WriteMarker? || s.pc.DropStaging?)
    ensures Ends(w, Step(w, s), job) == Ends(w, s, job)
  {
  }

  lemma StepEnds(w: World, s: Local, job: Job)
    requires Sound(w) && Free(w, s, job)
    ensures Ends(w, Step(w, s), job) == Ends(w, s, job)
  {
    match s.pc {
      case Recovering => RecoverEnds(w, s, job);
      case RecoverProbe(_) => RecoverProbeEnds(w, s, job);
      case WriteIntent(_) => RecoverProbeEnds(w, s, job);
      case DropResume(_, _) => DropResumeEnds(w, s, job);
      case WriteManifest(_) => WriteManifestEnds(w, s, job);
      case Inspect(_) => InspectEnds(w, s, job);
      case Probe(_) => InspectEnds(w, s, job);
      case Rename(_) => RenameEnds(w, s, job);
      case WriteReady(_, _) => WriteReadyEnds(w, s, job);
      case WriteMarker(_, _) => MarkerEnds(w, s, job);
      case DropStaging(_) => MarkerEnds(w, s, job);
      case _ =>
    }
  }

  lemma FreeStep(w: World, s: Local, job: Job)
    requires Sound(w) && Free(w, s, job)
    ensures Free(w, Step(w, s), job) && Ends(w, Step(w, s), job) == Ends(w, s, job)
  {
    StepEnds(w, s, job);
    if !s.pc.Done? { StepAlone(w, s, job); }
  }

  lemma {:induction false} RunEnds(w: World, s: Local, job: Job, n: nat, step: Local -> Local)
    requires Sound(w) && Free(w, s, job) && forall x {:trigger Step(w, x)} :: step(x) == Step(w, x)
    ensures Ends(w, Iterate(step, s, n), job) == Ends(w, s, job)
    decreases n
  {
    if n > 0 {
      assert step(s) == Step(w, s);
      FreeStep(w, s, job);
      RunEnds(w, Step(w, s), job, n - 1, step);
    }
  }

  /** Where a free way ends, exactly: the intent and the marker of the job, and
      one blob more, or READY in the one that was there. */
  lemma EndsExactly(w: World, s: Local, job: Job, n: nat)
    requires Sound(w) && Free(w, s, job) && Rank(s.pc, |job.manifest.files|) <= n
    ensures Alone(w, s, n) == Ends(w, s, job)
  {
    CompletesAlone(w, s, job, n);
    RunEnds(w, s, job, n, (x: Local) => Step(w, x));
  }

  lemma PublishedFiles(w: World, s: Local, job: Job)
    requires s.pc == WriteIntent(job) && s.own.staging.Some?
    ensures var d, dir := BlobName(w, job), s.own.staging.value;
            var resumes := set f | f in job.manifest.files :: f.path + ".resume.json";
            var blob := if d in s.blobs then s.blobs[d] else (dir - resumes)["manifest.json" := w.json(job.manifest)];
            var intent := IntentOf(w, job);
            Ends(w, s, job) == Local(Own(None, Some(intent), Some(MarkerOf(intent))),
                                     s.blobs[d := blob["READY" := d + "\n"]], Done(ReportOf(intent)))
  {
    assert ResumesFrom(job.manifest, 0) == set f | f in job.manifest.files :: f.path + ".resume.json";
  }

  /** A publication left alone, in every reachable state: nothing else becomes
      of the staged files than the blob, which is they without the checkpoints,
      the manifest and READY. */
  lemma PublishesExactly(w: World, s: Sys, op: Op, job: Job, n: nat)
    requires Sound(w) && Reachable(w, s) && At(s, op).pc == WriteIntent(job) && n >= |job.manifest.files| + 9
    requires Movable(w, job.manifest) && Placeable(w, s.blobs, job)
    ensures At(s, op).own.staging.Some?
    ensures var d, dir := BlobName(w, job), At(s, op).own.staging.value;
            var resumes := set f | f in job.manifest.files :: f.path + ".resume.json";
            var blob := if d in s.blobs then s.blobs[d] else (dir - resumes)["manifest.json" := w.json(job.manifest)];
            var intent := IntentOf(w, job);
            Alone(w, At(s, op), n) == Local(Own(None, Some(intent), Some(MarkerOf(intent))),
                                            s.blobs[d := blob["READY" := d + "\n"]], Done(ReportOf(intent)))
  {
    ReachableOk(w, s);
    assert LocalOk(w, At(s, op));
    EndsExactly(w, At(s, op), job, n);
    PublishedFiles(w, At(s, op), job);
  }

  /** On the way from `Publish` to its end nothing but a cache hit keeps the
      staging directory, and a hit removes it last. */
  predicate Tidy(s: Local) {
    match s.pc
    case WriteIntent(_) => true
    case DropResume(_, _) => true
    case WriteManifest(_) => true
    case Inspect(_) => true
    case Probe(_) => true
    case Rename(_) => true
    case WriteReady(_, hit) => hit || s.own.staging.None?
    case WriteMarker(_, hit) => hit || s.own.staging.None?
    case DropStaging(_) => true
    case Done(_) => s.own.staging.None?
    case Failed => true
    case _ => false
  }

  lemma TidyStep(w: World, s: Local)
    requires Tidy(s)
    ensures Tidy(Step(w, s))
  {
  }

  lemma {:induction false} TidyRun(w: World, s: Local, n: nat, step: Local -> Local)
    requires Tidy(s) && forall x {:trigger Step(w, x)} :: step(x) == Step(w, x)
    ensures Tidy(Iterate(step, s, n))
    decreases n
  {
    if n > 0 {
      TidyStep(w, s);
      TidyRun(w, step(s), n - 1, step);
    }
  }

  /** From any disk: a publication that ends leaves no staging directory. */
  lemma LeavesNoStaging(w: World, s: Local, n: nat)
    requires s.pc.WriteIntent? && Alone(w, s, n).pc.Done?
    ensures Alone(w, s, n).own.staging.None?
  {
    TidyRun(w, s, n, (x: Local) => Step(w, x));
  }

  /** From any disk, however damaged: a recovery reports only a complete blob
      with the digests of its manifest and a revision in form, resumes only an
      intent that agrees with itself, commits only staged content that matches
      it; a manifest is written only beside all its files; and READY only into a
      blob that was just renamed or has the content and the manifest of the job. */
  lemma TrustsNothing(w: World, s: Local)
    requires Sound(w)
    ensures var t := Step(w, s);
            && (s.pc.Recovering? && t.pc.Done? ==>
                  var r := t.pc.report;
                  && r.publication in s.blobs && Published(w, s.blobs[r.publication], r.publication)
                  && s.blobs[r.publication][MANIFEST] == w.json(r.manifest)
                  && r.artifact == ArtifactDigest(w, r.manifest) && r.publication == ManifestDigest(w, r.manifest)
                  && (r.revision == "" || ValidCommit(r.revision)))
            && (s.pc.Recovering? && (t.pc.RecoverProbe? || t.pc.WriteReady?) ==>
                  && w.canonical(t.pc.job.manifest) && s.own.intent == Some(IntentOf(w, t.pc.job))
                  && (t.pc.job.revision == "" || ValidCommit(t.pc.job.revision)))
            && (s.pc.WriteManifest? && t.pc.Inspect? ==>
                  forall f :: f in t.pc.job.manifest.files ==> s.own.staging.Some? && f.path in s.own.staging.value)
            && (s.pc.RecoverProbe? && t.pc.WriteIntent? ==>
                  s.own.staging.Some? && ContentOk(w, s.own.staging.value, t.pc.job.manifest))
            && (!s.pc.WriteReady? && t.pc.WriteReady? ==>
                  var d := BlobName(w, t.pc.job);
                  SameBlob(w, t.blobs, t.pc.job) || (s.own.staging.Some? && d !in s.blobs
                      && t.blobs == s.blobs[d := s.own.staging.value]))
  {
    if s.pc.Recovering? { RecoverTrustsNothing(w, s.own, s.blobs); }
    if s.pc.WriteManifest? && Step(w, s).pc.Inspect? { ListedThere(w, s, s.pc.job); }
  }

  lemma ListedThere(w: World, s: Local, job: Job)
    requires s.pc == WriteManifest(job) && Step(w, s).pc.Inspect?
    ensures forall f :: f in job.manifest.files ==> s.own.staging.Some? && f.path in s.own.staging.value
  {
    var dir := if s.own.staging.Some? then s.own.staging.value else map[];
    forall f | f in job.manifest.files ensures s.own.staging.Some? && f.path in s.own.staging.value {
      var i :| 0 <= i < |job.manifest.files| && job.manifest.files[i] == f;
      assert AllListed(dir, job.manifest) && job.manifest.files[i].path in dir;
    }
  }

  lemma RecoverTrustsNothing(w: World, own: Own, blobs: Blobs)
    requires Sound(w)
    ensures var pc := Recover(w, own, blobs);
            && (pc.Done? ==>
                  var r := pc.report;
                  && r.publication in blobs && Published(w, blobs[r.publication], r.publication)
                  && blobs[r.publication][MANIFEST] == w.json(r.manifest)
                  && r.artifact == ArtifactDigest(w, r.manifest) && r.publication == ManifestDigest(w, r.manifest)
                  && (r.revision == "" || ValidCommit(r.revision)))
            && (pc.RecoverProbe? || pc.WriteReady? ==>
                  && w.canonical(pc.job.manifest) && own.intent == Some(IntentOf(w, pc.job))
                  && (pc.job.revision == "" || ValidCommit(pc.job.revision)))
            && (pc.WriteReady? ==> SameBlob(w, blobs, pc.job))
  {
  }

  /** What an artifact digest identifies: of one file its content, of several
      the manifest. */
  lemma ArtifactDigestExact(w: World, m: Files, n: Files)
    requires Sound(w) && |m.files| > 0 && |n.files| > 0
    ensures |m.files| == |n.files| == 1 ==>
              (ArtifactDigest(w, m) == ArtifactDigest(w, n) <==> m.files[0].sha256 == n.files[0].sha256)
    ensures |m.files| > 1 && |n.files| > 1 ==> (ArtifactDigest(w, m) == ArtifactDigest(w, n) <==> m == n)
  {
  }

  /** Recovery, left alone, in every reachable state: it returns exactly what the
      intent says, or fails, and which of the two is decided by the manifest
      and by what is on disk. */
  lemma RecoveryDecides(w: World, s: Sys, op: Op, n: nat)
    requires Sound(w) && Reachable(w, s)
    requires At(s, op).pc.Recovering? && At(s, op).own.intent.Some?
    requires n >= |At(s, op).own.intent.value.manifest.files| + 11
    ensures var l := At(s, op);
            var intent := l.own.intent.value;
            Alone(w, l, n).pc == if RecoverPasses(w, l.own, l.blobs, JobOf(intent)) then Done(ReportOf(intent))
                else Failed
  {
    ReachableOk(w, s);
    RecoveryAlone(w, At(s, op), n);
  }

  lemma RecoveryAlone(w: World, l: Local, n: nat)
    requires Sound(w) && BlobsOk(w, l.blobs) && LocalOk(w, l)
    requires l.pc.Recovering? && l.own.intent.Some? && n >= |l.own.intent.value.manifest.files| + 11
    ensures var intent := l.own.intent.value;
            Alone(w, l, n).pc == if RecoverPasses(w, l.own, l.blobs, JobOf(intent)) then Done(ReportOf(intent))
                else Failed
  {
    CompletesAlone(w, l, JobOf(l.own.intent.value), n);
  }

  // ---- without a cleanup -----------------------------------------------------------------------

  /** The intent has its blob or its files. */
  ghost predicate Intact(w: World, l: Local) {
    l.own.intent.Some? ==>
      var job := JobOf(l.own.intent.value); BlobName(w, job) in l.blobs || InStaging(w, l.own, job)
  }

  /** Wherever the importer writes, its own place says that the intent is intact. */
  lemma PlaceIntact(w: World, l: Local)
    requires LocalOk(w, l) && !l.pc.Failed? && !l.pc.Recovering? && !l.pc.RecoverProbe? && !l.pc.Idle?
    ensures Intact(w, l)
  {
  }

  predicate UnlessPlaced(l: Local, t: Local) {
    && !t.pc.Recovering?
    && (t.pc.Failed? || t.pc.RecoverProbe? || t.pc.Idle? ==> t.own == l.own && t.blobs == l.blobs)
  }

  lemma OthersUnchanged(w: World, l: Local)
    requires !l.pc.WriteManifest?
    ensures UnlessPlaced(l, Step(w, l))
  {
  }

  /** Where the next place says nothing, nothing was written. */
  lemma OwnUnchanged(w: World, l: Local)
    requires LocalOk(w, l)
    ensures UnlessPlaced(l, Step(w, l))
  {
    if l.pc.WriteManifest? { ManifestNext(w, l, l.pc.job); } else { OthersUnchanged(w, l); }
  }

  lemma IntactAfter(w: World, l: Local, t: Local)
    requires LocalOk(w, t) && Intact(w, l) && UnlessPlaced(l, t)
    ensures Intact(w, t)
  {
    if !t.pc.Failed? && !t.pc.RecoverProbe? && !t.pc.Idle? { PlaceIntact(w, t); }
  }

  lemma StepIntact(w: World, l: Local)
    requires Sound(w) && BlobsOk(w, l.blobs) && LocalOk(w, l) && Intact(w, l)
    ensures Intact(w, Step(w, l))
  {
    StepKeeps(w, l);
    OwnUnchanged(w, l);
    IntactAfter(w, l, Step(w, l));
  }

  lemma InterruptedIntact(w: World, l: Local, name: string)
    requires BlobsOk(w, l.blobs) && LocalOk(w, l) && Intact(w, l)
    ensures Intact(w, Interrupted(w, l, name).(pc := Idle))
  {
    if l.pc.WriteManifest? && Leftover(name, MANIFEST) && name !in l.own.staging.value {
      var dir, m := l.own.staging.value, l.pc.job.manifest;
      OwnNamesSlashless(name);
      StrangersKept(dir, dir[name := w.json(m)], m, name);
      forall n | HasGgufExtension(n) ensures n != name { NotListed(n); }
      StagedKept(w, dir, dir[name := w.json(m)], m);
    }
  }

  lemma ReactIntact(w: World, l: Local, e: Event)
    requires Sound(w) && BlobsOk(w, l.blobs) && LocalOk(w, l) && Intact(w, l) && !e.Clean?
    ensures Intact(w, React(w, l, e))
  {
    match e {
      case Advance => StepIntact(w, l);
      case Crash(leftover) => if leftover.Some? { InterruptedIntact(w, l, leftover.value); }
      case _ =>
    }
  }

  lemma NextIntact(w: World, s: Sys, op: Op, o: Op, e: Event)
    requires Sound(w) && Inv(w, s) && Intact(w, At(s, op)) && !(o == op && e.Clean?)
    ensures Intact(w, At(Next(w, s, o, e), op))
  {
    if o == op { ReactIntact(w, At(s, op), e); } else { ReactKeeps(w, At(s, o), e); }
  }

  lemma {:induction false} RunIntact(w: World, s: Sys, actions: seq<(Op, Event)>, op: Op)
    requires Sound(w) && Inv(w, s) && Intact(w, At(s, op)) && Uncleaned(actions, op)
    ensures Intact(w, At(Run(w, s, actions), op))
    decreases |actions|
  {
    if actions != [] {
      assert !(actions[0].0 == op && actions[0].1.Clean?) && Uncleaned(actions[1..], op);
      NextKeeps(w, s, actions[0].0, actions[0].1);
      NextIntact(w, s, op, actions[0].0, actions[0].1);
      RunIntact(w, Next(w, s, actions[0].0, actions[0].1), actions[1..], op);
    }
  }

  ghost predicate ReachableUncleaned(w: World, s: Sys, op: Op) {
    exists actions :: Uncleaned(actions, op) && s == Run(w, EMPTY, actions)
  }

  /** What a caller can look up: no listed file in the way, and documents that
      can be read back. */
  predicate Recoverable(w: World, own: Own, intent: Intent) {
    Clear(w, intent.manifest) && if own.marker.Some? then Readable(w, intent.manifest)
        else w.intentBytes(intent) <= MAX_DOCUMENT
  }

  lemma IntactPasses(w: World, l: Local)
    requires Sound(w) && BlobsOk(w, l.blobs) && LocalOk(w, l) && Intact(w, l) && l.own.intent.Some?
    ensures RecoverPasses(w, l.own, l.blobs, JobOf(l.own.intent.value)) <==> Recoverable(w, l.own, l.own.intent.value)
  {
    var job := JobOf(l.own.intent.value);
    if BlobName(w, job) in l.blobs { BlobManifest(w, l.blobs, job); }
  }

  /** After a crash anywhere behind the intent, as long as the operation was not
      cleaned up, whatever other operations did: recovery alone returns exactly
      what the intent says if and only if no listed file is in the way and the
      documents can be read back; otherwise it fails, every time. */
  lemma RecoveryReturnsIntent(w: World, s: Sys, op: Op, n: nat)
    requires Sound(w) && ReachableUncleaned(w, s, op)
    requires At(s, op).pc.Recovering? && At(s, op).own.intent.Some?
    requires n >= |At(s, op).own.intent.value.manifest.files| + 11
    ensures var l := At(s, op);
            var intent := l.own.intent.value;
            Alone(w, l, n).pc == if Recoverable(w, l.own, intent) then Done(ReportOf(intent)) else Failed
  {
    var actions :| Uncleaned(actions, op) && s == Run(w, EMPTY, actions);
    EmptyOk(w);
    RunIntact(w, EMPTY, actions, op);
    ReachableOk(w, s);
    RecoveryAlone(w, At(s, op), n);
    IntactPasses(w, At(s, op));
  }

  // ---- files in the way ----------------------------------------------------------------------------

  lemma BelowReserved(reserved: string, name: string)
    requires '/' !in reserved && '/' !in name && SafePart(reserved) && SafePart(name)
    requires '\0' !in reserved + name && '\\' !in reserved + name
    ensures ValidRelative(reserved + ['/'] + name) && Under(reserved + ['/'] + name, reserved)
  {
    var path := reserved + ['/'] + name;
    TwoParts(reserved, name);
    forall c | c in path ensures c == '/' || c in reserved + name { }
    assert path[..|reserved|+1] == reserved + "/";
  }

  function OneFile(path: string, sha256: Digest): Files {
    Manifest(SCHEMA_VERSION, FORMAT_GGUF, path, [FileRecord(path, 0, sha256)])
  }

  /** A file below READY, or below manifest.json, passes every check. */
  lemma ReservedNameAccepted(reserved: string, name: string, sha256: Digest)
    requires (reserved == READY || reserved == MANIFEST) && ValidSha256(sha256)
    requires '/' !in name && '\0' !in name && '\\' !in name && HasGgufExtension(name)
    ensures var m := OneFile(reserved + ['/'] + name, sha256);
            CanonicalManifest(m) && GgufNames(m) && Lists(m, reserved)
  {
    var path := reserved + ['/'] + name;
    var m := OneFile(path, sha256);
    BelowReserved(reserved, name);
    assert path[|path|-5..] == name[|name|-5..];
    assert PathsOf(m.files)[0] == path;
    assert Under(m.files[0].path, reserved);
  }

  /** Publishing what a listed file is in the way of always fails. */
  lemma BlockedNeverPublished(w: World, dir: Dir, job: Job, n: nat)
    requires Sound(w) && Staged(w, dir, job.manifest) && ValidRevision(job.revision) && !Clear(w, job.manifest)
    requires n >= |job.manifest.files| + 9
    ensures Alone(w, Local(Own(Some(dir), None, None), map[], WriteIntent(job)), n).pc == Failed
  {
    CompletesAlone(w, Local(Own(Some(dir), None, None), map[], WriteIntent(job)), job, n);
  }

  lemma MarkedClear(w: World, l: Local)
    requires Sound(w) && BlobsOk(w, l.blobs) && LocalOk(w, l)
    ensures l.own.marker.Some? && l.own.intent.Some? ==> Clear(w, l.own.intent.value.manifest)
  {
    if l.own.marker.Some? && l.own.intent.Some? { BlobManifest(w, l.blobs, JobOf(l.own.intent.value)); }
  }

  /** And in no reachable state has an operation on it a marker or a report. */
  lemma BlockedNeverDone(w: World, s: Sys, op: Op)
    requires Sound(w) && Reachable(w, s) && At(s, op).own.intent.Some? && !Clear(w, At(s, op).own.intent.value.manifest)
    ensures At(s, op).own.marker.None? && !At(s, op).pc.Done?
  {
    ReachableOk(w, s);
    assert LocalOk(w, At(s, op));
    MarkedClear(w, At(s, op));
  }

  /** A manifest too large to read back is published once, and from then on its
      own operation can not recover it. */
  lemma LargeNotRecovered(w: World, dir: Dir, job: Job, n: nat)
    requires Sound(w) && Staged(w, dir, job.manifest) && ValidRevision(job.revision) && Clear(w, job.manifest)
    requires !Readable(w, job.manifest) && n >= |job.manifest.files| + 11
    ensures var t := Alone(w, Local(Own(Some(dir), None, None), map[], WriteIntent(job)), n);
            t.pc == Done(ReportOf(IntentOf(w, job))) && Alone(w, t.(pc := Recovering), n).pc == Failed
  {
    var s := Local(Own(Some(dir), None, None), map[], WriteIntent(job));
    CompletesAlone(w, s, job, n);
    var t := Alone(w, s, n);
    IntentWritten(w, s, job, n, (x: Local) => Step(w, x));
    RecoveryAlone(w, t.(pc := Recovering), n);
  }

  lemma IntentWritten(w: World, s: Local, job: Job, n: nat, step: Local -> Local)
    requires s.pc == WriteIntent(job) && n > 0 && forall x {:trigger Step(w, x)} :: step(x) == Step(w, x)
    ensures Iterate(step, s, n).own.intent == Some(IntentOf(w, job))
  {
    assert step(s) == Step(w, s);
    IntentStays(w, Step(w, s), job, n - 1, step);
  }

  lemma {:induction false} IntentStays(w: World, s: Local, job: Job, n: nat, step: Local -> Local)
    requires s.own.intent == Some(IntentOf(w, job)) && BehindIntent(s.pc, job)
    requires forall x {:trigger Step(w, x)} :: step(x) == Step(w, x)
    ensures Iterate(step, s, n).own.intent == Some(IntentOf(w, job))
    decreases n
  {
    if n > 0 {
      assert step(s) == Step(w, s);
      IntentStays(w, Step(w, s), job, n - 1, step);
    }
  }

  predicate BehindIntent(pc: Pc, job: Job) {
    match pc
    case DropResume(j, _) => j == job
    case WriteManifest(j) => j == job
    case Inspect(j) => j == job
    case Probe(j) => j == job
    case Rename(j) => j == job
    case WriteReady(j, _) => j == job
    case WriteMarker(j, _) => j == job
    case DropStaging(j) => j == job
    case Done(_) => true
    case Failed => true
    case _ => false
  }

  // ---- the one race -------------------------------------------------------------------------------

  /** No listed file in the way, and the intent can be read back. */
  predicate Storable(w: World, job: Job) {
    Clear(w, job.manifest) && w.intentBytes(IntentOf(w, job)) <= MAX_DOCUMENT
  }

  /** The blob is there and the importer is not between the two reads. */
  ghost predicate Settled(w: World, l: Local) {
    && l.own.intent.Some? && Storable(w, JobOf(l.own.intent.value)) && BlobName(w, JobOf(l.own.intent.value)) in l.blobs
    && !l.pc.Failed? && !l.pc.Probe? && !l.pc.RecoverProbe?
  }

  lemma SettledAdvance(w: World, l: Local)
    requires Sound(w) && BlobsOk(w, l.blobs) && LocalOk(w, l) && Settled(w, l)
    ensures !Step(w, l).pc.Probe? && !Step(w, l).pc.RecoverProbe? && !Fails(w, l)
  {
    var intent := l.own.intent.value;
    BlobManifest(w, l.blobs, JobOf(intent));
    assert |w.json(intent.manifest)| <= w.intentBytes(intent);
    if l.pc.Recovering? { RecoverOk(w, l); }
  }

  lemma SettledStep(w: World, l: Local, e: Event)
    requires Sound(w) && BlobsOk(w, l.blobs) && LocalOk(w, l) && Settled(w, l) && !e.Clean?
    ensures Settled(w, React(w, l, e))
  {
    if e.Advance? {
      StepKeeps(w, l);
      SettledAdvance(w, l);
    } else {
      ReactKeeps(w, l, e);
    }
  }

  lemma SettledNext(w: World, s: Sys, op: Op, o: Op, e: Event)
    requires Sound(w) && Inv(w, s) && Settled(w, At(s, op)) && !(o == op && e.Clean?)
    ensures Settled(w, At(Next(w, s, o, e), op))
  {
    if o == op { SettledStep(w, At(s, op), e); } else { ReactKeeps(w, At(s, o), e); }
  }

  lemma {:induction false} SettledRun(w: World, s: Sys, actions: seq<(Op, Event)>, op: Op)
    requires Sound(w) && Inv(w, s) && Settled(w, At(s, op)) && Uncleaned(actions, op)
    ensures Settled(w, At(Run(w, s, actions), op))
    decreases |actions|
  {
    if actions != [] {
      assert !(actions[0].0 == op && actions[0].1.Clean?) && Uncleaned(actions[1..], op);
      NextKeeps(w, s, actions[0].0, actions[0].1);
      SettledNext(w, s, op, actions[0].0, actions[0].1);
      SettledRun(w, Next(w, s, actions[0].0, actions[0].1), actions[1..], op);
    }
  }

  /** A rival makes an operation fail at most once: when it has failed and the
      blob is there, then after a restart it never fails again, whatever all
      the importers do, until it is cleaned up. */
  lemma FailsOnce(w: World, s: Sys, op: Op, later: seq<(Op, Event)>)
    requires Sound(w) && Reachable(w, s) && At(s, op).pc.Failed? && At(s, op).own.intent.Some?
    requires var job := JobOf(At(s, op).own.intent.value); Storable(w, job) && BlobName(w, job) in s.blobs
    requires Uncleaned(later, op)
    ensures !At(Run(w, Next(w, s, op, Begin), later), op).pc.Failed?
  {
    ReachableOk(w, s);
    NextKeeps(w, s, op, Begin);
    SettledRun(w, Next(w, s, op, Begin), later, op);
  }

  lemma {:induction false} RunAppend(w: World, s: Sys, actions: seq<(Op, Event)>, op: Op, e: Event)
    ensures Run(w, s, actions + [(op, e)]) == Next(w, Run(w, s, actions), op, e)
    decreases |actions|
  {
    if actions == [] {
      assert actions + [(op, e)] == [(op, e)];
      assert Run(w, Next(w, s, op, e), []) == Next(w, s, op, e);
    } else {
      assert (actions + [(op, e)])[1..] == actions[1..] + [(op, e)];
      RunAppend(w, Next(w, s, actions[0].0, actions[0].1), actions[1..], op, e);
    }
  }

  ghost predicate OnlyMoved(s: Sys, t: Sys, op: Op) {
    forall o :: o != op ==> At(t, o) == At(s, o).(blobs := t.blobs)
  }

  lemma Reach(w: World, s: Sys, op: Op, e: Event, next: Local) returns (t: Sys)
    requires Reachable(w, s) && React(w, At(s, op), e) == next
    ensures Reachable(w, t) && At(t, op) == next && t.blobs == next.blobs && OnlyMoved(s, t, op)
  {
    var actions :| s == Run(w, EMPTY, actions);
    RunAppend(w, EMPTY, actions, op, e);
    t := Next(w, s, op, e);
  }

  lemma ReachStaged(w: World, s: Sys, op: Op, dir: Dir, job: Job) returns (t: Sys)
    requires Reachable(w, s) && At(s, op) == Local(Own(None, None, None), s.blobs, Idle)
    requires Staged(w, dir, job.manifest) && ValidRevision(job.revision)
    ensures Reachable(w, t) && OnlyMoved(s, t, op)
    ensures At(t, op) == Local(Own(Some(dir), None, None), s.blobs, WriteIntent(job))
  {
    var own := Own(None, None, None);
    var s1 := Reach(w, s, op, Begin, Local(own, s.blobs, Recovering));
    var s2 := Reach(w, s1, op, Advance, Local(own, s.blobs, Importing));
    var s3 := Reach(w, s2, op, Import(dir), Local(own.(staging := Some(dir)), s.blobs, Importing));
    t := Reach(w, s3, op, Validated(job), Local(own.(staging := Some(dir)), s.blobs, WriteIntent(job)));
  }

  lemma ReachCommitted(w: World, s: Sys, op: Op, dir: Dir, job: Job) returns (t: Sys, after: Dir)
    requires Reachable(w, s) && At(s, op) == Local(Own(Some(dir), None, None), s.blobs, WriteIntent(job))
    requires |job.manifest.files| == 1 && Staged(w, dir, job.manifest) && Movable(w, job.manifest)
    ensures Reachable(w, t) && OnlyMoved(s, t, op) && Staged(w, after, job.manifest)
    ensures At(t, op) == Local(Own(Some(after), Some(IntentOf(w, job)), None), s.blobs, WriteManifest(job))
  {
    var own := Own(Some(dir), Some(IntentOf(w, job)), None);
    after := dir - {ResumeName(job.manifest.files[0].path)};
    ResumeBlocked(w, dir, job.manifest, 0);
    ResumeStaged(w, dir, job.manifest, job.manifest.files[0].path);
    var s1 := Reach(w, s, op, Advance, Local(own, s.blobs, DropResume(job, 0)));
    var s2 := Reach(w, s1, op, Advance, Local(own.(staging := Some(after)), s.blobs, DropResume(job, 1)));
    t := Reach(w, s2, op, Advance, Local(own.(staging := Some(after)), s.blobs, WriteManifest(job)));
  }

  lemma ReachProbe(w: World, s: Sys, op: Op, dir: Dir, job: Job) returns (t: Sys)
    requires Reachable(w, s) && At(s, op) == Local(Own(Some(dir), Some(IntentOf(w, job)), None), s.blobs,
            WriteManifest(job))
    requires BlobName(w, job) !in s.blobs && !IsDir(dir, MANIFEST) && AllListed(dir, job.manifest)
    ensures Reachable(w, t) && t.blobs == s.blobs && At(t, op).pc == Probe(job) && At(t, op).own.staging.Some?
    ensures OnlyMoved(s, t, op)
  {
    var own := Own(Some(dir[MANIFEST := w.json(job.manifest)]), Some(IntentOf(w, job)), None);
    var s1 := Reach(w, s, op, Advance, Local(own, s.blobs, Inspect(job)));
    t := Reach(w, s1, op, Advance, Local(own, s.blobs, Probe(job)));
  }

  ghost predicate Publishable(w: World, dir: Dir, job: Job) {
    Staged(w, dir, job.manifest) && |job.manifest.files| == 1 && ValidRevision(job.revision) && Storable(w, job)
  }

  /** A new operation imports `dir` and gets as far as finding no blob. */
  lemma Prepare(w: World, s: Sys, op: Op, dir: Dir, job: Job) returns (t: Sys)
    requires Reachable(w, s) && At(s, op) == Local(Own(None, None, None), s.blobs, Idle)
    requires Publishable(w, dir, job) && BlobName(w, job) !in s.blobs
    ensures Reachable(w, t) && t.blobs == s.blobs && At(t, op).pc == Probe(job) && At(t, op).own.staging.Some?
    ensures OnlyMoved(s, t, op)
  {
    var s1 := ReachStaged(w, s, op, dir, job);
    var s2, after := ReachCommitted(w, s1, op, dir, job);
    DirectoryListed(after, job.manifest, MANIFEST);
    t := ReachProbe(w, s2, op, after, job);
  }

  /** Two importers of one artifact: the first reads that there is no blob, the
      second publishes it, and the first then reports a conflict although the
      blob is exactly what it was about to publish. */
  lemma RivalMakesItFail(w: World, dir: Dir, job: Job) returns (s: Sys)
    requires Sound(w) && Publishable(w, dir, job)
    ensures Reachable(w, s) && At(s, "a").pc.Failed? && SameBlob(w, s.blobs, job)
  {
    assert Run(w, EMPTY, []) == EMPTY;
    var s1 := Prepare(w, EMPTY, "a", dir, job);
    s := RivalPublishes(w, s1, dir, job);
    ReachableOk(w, s);
    BlobManifest(w, s.blobs, job);
    assert |w.json(job.manifest)| <= w.intentBytes(IntentOf(w, job));
  }

  lemma RivalPublishes(w: World, s: Sys, dir: Dir, job: Job) returns (t: Sys)
    requires Reachable(w, s) && At(s, "a").pc == Probe(job) && At(s, "b") == Local(Own(None, None, None), s.blobs, Idle)
    requires Publishable(w, dir, job) && BlobName(w, job) !in s.blobs
    ensures Reachable(w, t) && At(t, "a").pc.Failed? && BlobName(w, job) in t.blobs
  {
    var s1 := Prepare(w, s, "b", dir, job);
    assert At(s1, "a") == At(s, "a").(blobs := s1.blobs);
    t := RivalMoves(w, s1, job);
  }

  lemma RivalMoves(w: World, s: Sys, job: Job) returns (t: Sys)
    requires Reachable(w, s) && At(s, "a").pc == Probe(job) && BlobName(w, job) !in s.blobs
    requires At(s, "b").pc == Probe(job) && At(s, "b").own.staging.Some?
    ensures Reachable(w, t) && At(t, "a").pc.Failed? && BlobName(w, job) in t.blobs
  {
    var s1 := ReachPublished(w, s, "b", job);
    assert At(s1, "a") == At(s, "a").(blobs := s1.blobs);
    t := Reach(w, s1, "a", Advance, At(s1, "a").(pc := Failed));
  }

  lemma ReachPublished(w: World, s: Sys, op: Op, job: Job) returns (t: Sys)
    requires Reachable(w, s) && At(s, op).pc == Probe(job) && At(s, op).own.staging.Some?
            && BlobName(w, job) !in s.blobs
    ensures Reachable(w, t) && OnlyMoved(s, t, op) && BlobName(w, job) in t.blobs
  {
    var l := At(s, op);
    var s1 := Reach(w, s, op, Advance, l.(pc := Rename(job)));
    t := Reach(w, s1, op, Advance,
               Local(l.own.(staging := None), l.blobs[BlobName(w, job) := l.own.staging.value],
                   WriteReady(job, false)));
  }
}
