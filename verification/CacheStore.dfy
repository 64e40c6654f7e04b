/** The cache root as the importer writes it.

    Every method that touches the file system does what one step of the
    publication protocol says; a process that dies after any number of such
    steps has taken exactly that many.
 */
module CacheStore {
  import opened Basics
  import opened Shards
  import opened Publication

  /** How a call ends for its caller; `Died` stands for a crash on the way. */
  datatype Outcome = Returned(report: Report) | NotFound | Conflict | Died

  function OutcomeOf(pc: Pc): Outcome {
    match pc
    case Done(report) => Returned(report)
    case Importing => NotFound
    case Failed => Conflict
    case _ => Died
  }

  /** `Step`, by name only. */
  ghost predicate Steps(w: World, step: Local -> Local) {
    forall s {:trigger Step(w, s)} :: step(s) == Step(w, s)
  }

  class CacheRoot {
    const w: World
    var staging: map<Op, Dir>
    var intents: map<Op, Intent>
    var markers: map<Op, Marker>
    var blobs: Blobs

    constructor (w: World)
      ensures this.w == w && staging == map[] && intents == map[] && markers == map[] && blobs == map[]
    {
      this.w := w;
      staging, intents, markers, blobs := map[], map[], map[], map[];
    }

    /** The part of the cache one importer sees. */
    ghost function View(op: Op, pc: Pc): Local
      reads this
    {
      Local(OwnOf(op), blobs, pc)
    }

    ghost function OwnOf(op: Op): Own
      reads this
    {
      Own(if op in staging then Some(staging[op]) else None,
          if op in intents then Some(intents[op]) else None,
          if op in markers then Some(markers[op]) else None)
    }

    twostate predicate OthersAlone(op: Op)
      reads this
    {
      forall o :: o != op ==> OwnOf(o) == old(OwnOf(o))
    }

    // ---- validation -----------------------------------------------------------------

    /** `validateManifestContent`: every listed file is hashed. */
    method ValidateManifestContent(dir: Dir, m: Files) returns (ok: bool)
      requires Sound(w)
      ensures ok <==> ContentOk(w, dir, m)
    {
      var canonical := ValidateManifest(m);
      if !canonical { return false; }
      var i := 0;
      while i < |m.files|
        invariant 0 <= i <= |m.files|
        invariant forall k :: 0 <= k < i ==>
          var f := m.files[k]; f.path in dir && |dir[f.path]| == f.size && w.sha(dir[f.path]) == f.sha256
      {
        var f := m.files[i];
        if f.path !in dir || |dir[f.path]| != f.size || w.sha(dir[f.path]) != f.sha256 { return false; }
        i := i + 1;
      }
      return w.gguf(m, ListedFiles(dir, m));
    }

    /** `validatePublishedContent`. */
    method ValidatePublishedContent(d: Digest) returns (r: Option<Files>)
      requires Sound(w)
      ensures r.Some? <==> HasBlob(w, blobs, d)
      ensures r.Some? ==> r == w.parse(blobs[d][MANIFEST])
    {
      if d !in blobs || MANIFEST !in blobs[d] || |blobs[d][MANIFEST]| > MAX_DOCUMENT { return None; }
      var m := w.parse(blobs[d][MANIFEST]);
      if m.None? || ManifestDigest(w, m.value) != d { return None; }
      var ok := ValidateManifestContent(blobs[d], m.value);
      return if ok then m else None;
    }

    /** `ValidatePublished`. */
    method ValidateReady(d: Digest) returns (r: Option<Files>)
      requires Sound(w)
      ensures r.Some? <==> d in blobs && Published(w, blobs[d], d)
      ensures r.Some? ==> r == w.parse(blobs[d][MANIFEST])
    {
      r := ValidatePublishedContent(d);
      if r.None? || READY !in blobs[d] || blobs[d][READY] != ReadyText(d) { return None; }
    }

    // ---- one file system action each -----------------------------------------------------

    method PutIntent(op: Op, job: Job, ghost step: Local -> Local)
      requires Steps(w, step)
      modifies this`intents
      ensures View(op, DropResume(job, 0)) == step(old(View(op, WriteIntent(job)))) && OthersAlone(op)
    {
      assert step(View(op, WriteIntent(job))) == Step(w, View(op, WriteIntent(job)));
      intents := intents[op := Intent(ArtifactDigest(w, job.manifest), ManifestDigest(w, job.manifest), job.revision,
          job.manifest)];
    }

    /** A checkpoint that is missing is fine, a directory in its place is not. */
    method DropResumeFile(op: Op, job: Job, k: nat, ghost step: Local -> Local) returns (pc: Pc)
      requires Steps(w, step) && k < |job.manifest.files|
      modifies this`staging
      ensures View(op, pc) == step(old(View(op, DropResume(job, k)))) && OthersAlone(op)
      ensures pc == DropResume(job, k + 1) || pc == Failed
      ensures pc != Failed && op in staging ==>
                op in old(staging) && staging[op] == old(staging)[op] - {job.manifest.files[k].path + ".resume.json"}
    {
      assert step(View(op, DropResume(job, k))) == Step(w, View(op, DropResume(job, k)));
      if op !in staging { return DropResume(job, k + 1); }
      var name := job.manifest.files[k].path + ".resume.json";
      if !w.fits(name) || exists path :: path in staging[op] && Under(path, name) { return Failed; }
      staging := staging[op := staging[op] - {name}];
      return DropResume(job, k + 1);
    }

    method PutManifest(op: Op, job: Job, ghost step: Local -> Local) returns (pc: Pc)
      requires Steps(w, step)
      modifies this`staging
      ensures View(op, pc) == step(old(View(op, WriteManifest(job)))) && OthersAlone(op)
      ensures pc == Inspect(job) || pc == Failed
      ensures pc == Inspect(job) && job.manifest.files != [] ==>
                op in staging && op in old(staging) && staging[op] == old(staging)[op][MANIFEST := w.json(job.manifest)]
    {
      assert step(View(op, WriteManifest(job))) == Step(w, View(op, WriteManifest(job)));
      var dir := if op in staging then staging[op] else map[];
      if exists path :: path in dir && Under(path, MANIFEST) { return Failed; }
      staging := staging[op := dir[MANIFEST := w.json(job.manifest)]];
      if !forall i :: 0 <= i < |job.manifest.files| ==> job.manifest.files[i].path in dir { return Failed; }
      assert job.manifest.files != [] ==> job.manifest.files[0].path in dir;
      return Inspect(job);
    }

    /** The existing publication, if its content is valid. */
    method InspectBlob(op: Op, job: Job, ghost step: Local -> Local) returns (pc: Pc)
      requires Steps(w, step) && Sound(w)
      ensures View(op, pc) == step(View(op, Inspect(job)))
      ensures pc == WriteReady(job, true) || pc == Probe(job) || pc == Failed
    {
      assert step(View(op, Inspect(job))) == Step(w, View(op, Inspect(job)));
      var d := ManifestDigest(w, job.manifest);
      var existing := ValidatePublishedContent(d);
      if existing.None? { return Probe(job); }
      if w.json(existing.value) != w.json(job.manifest) { return Failed; }
      return WriteReady(job, true);
    }

    method ProbeBlob(op: Op, job: Job, ghost step: Local -> Local) returns (pc: Pc)
      requires Steps(w, step)
      ensures View(op, pc) == step(View(op, Probe(job)))
      ensures pc == Rename(job) || pc == Failed
    {
      assert step(View(op, Probe(job))) == Step(w, View(op, Probe(job)));
      return if ManifestDigest(w, job.manifest) in blobs then Failed else Rename(job);
    }

    /** The rename fails when the destination exists; then its content decides. */
    method RenameStaging(op: Op, job: Job, ghost step: Local -> Local) returns (pc: Pc)
      requires Steps(w, step) && Sound(w)
      modifies this`staging, this`blobs
      ensures View(op, pc) == step(old(View(op, Rename(job)))) && OthersAlone(op)
      ensures (pc.WriteReady? && pc.job == job) || pc == Failed
    {
      assert step(View(op, Rename(job))) == Step(w, View(op, Rename(job)));
      var d := ManifestDigest(w, job.manifest);
      if d in blobs || op !in staging {
        var retry := ValidatePublishedContent(d);
        if retry.None? || w.json(retry.value) != w.json(job.manifest) { return Failed; }
        return WriteReady(job, true);
      }
      blobs := blobs[d := staging[op]];
      staging := staging - {op};
      return WriteReady(job, false);
    }

    method PutReady(op: Op, job: Job, hit: bool, ghost step: Local -> Local) returns (pc: Pc)
      requires Steps(w, step)
      modifies this`blobs
      ensures View(op, pc) == step(old(View(op, WriteReady(job, hit)))) && OthersAlone(op)
      ensures pc == WriteMarker(job, hit) || pc == Failed
    {
      assert step(View(op, WriteReady(job, hit))) == Step(w, View(op, WriteReady(job, hit)));
      var d := ManifestDigest(w, job.manifest);
      if d !in blobs || exists path :: path in blobs[d] && Under(path, READY) { return Failed; }
      blobs := blobs[d := blobs[d][READY := d + "\n"]];
      return WriteMarker(job, hit);
    }

    method PutMarker(op: Op, job: Job, hit: bool, ghost step: Local -> Local) returns (pc: Pc)
      requires Steps(w, step)
      modifies this`markers
      ensures View(op, pc) == step(old(View(op, WriteMarker(job, hit)))) && OthersAlone(op)
      ensures pc == (if hit then DropStaging(job) else Done(ReportOf(IntentOf(w, job))))
    {
      assert step(View(op, WriteMarker(job, hit))) == Step(w, View(op, WriteMarker(job, hit)));
      markers := markers[op := Marker(ArtifactDigest(w, job.manifest), ManifestDigest(w, job.manifest), job.revision)];
      return if hit then DropStaging(job) else Done(ReportOf(IntentOf(w, job)));
    }

    method RemoveStaging(op: Op, job: Job, ghost step: Local -> Local) returns (pc: Pc)
      requires Steps(w, step)
      modifies this`staging
      ensures View(op, pc) == step(old(View(op, DropStaging(job)))) && OthersAlone(op)
      ensures pc == Done(ReportOf(IntentOf(w, job)))
    {
      assert step(View(op, DropStaging(job))) == Step(w, View(op, DropStaging(job)));
      staging := staging - {op};
      return Done(ReportOf(IntentOf(w, job)));
    }

    /** The reads at the head of `RecoverPublished`. */
    method ReadRecovery(op: Op, ghost step: Local -> Local) returns (pc: Pc)
      requires Steps(w, step) && Sound(w)
      ensures View(op, pc) == step(View(op, Recovering))
      ensures pc.Done? || pc.Importing? || pc.Failed? || pc.RecoverProbe? || (pc.WriteReady? && !pc.hit)
    {
      assert step(View(op, Recovering)) == Step(w, View(op, Recovering));
      if op in markers {
        var marker := markers[op];
        if !ValidRevision(marker.revision) { return Failed; }
        var m := ValidateReady(marker.publication);
        if m.None? || ArtifactDigest(w, m.value) != marker.artifact { return Failed; }
        return Done(Report(m.value, marker.artifact, marker.publication, marker.revision));
      }
      if op !in intents { return Importing; }
      pc := ReadIntent(intents[op]);
    }

    method ReadIntent(intent: Intent) returns (pc: Pc)
      requires Sound(w)
      ensures pc == Publication.RecoverIntent(w, intent, blobs)
      ensures pc.Failed? || pc.RecoverProbe? || (pc.WriteReady? && !pc.hit)
    {
      if w.intentBytes(intent) > MAX_DOCUMENT || !ValidRevision(intent.revision) { return Failed; }
      var canonical := ValidateManifest(intent.manifest);
      if !canonical || intent.artifact != ArtifactDigest(w, intent.manifest)
         || intent.publication != ManifestDigest(w, intent.manifest) { return Failed; }
      var existing := ValidatePublishedContent(intent.publication);
      if existing.None? { return RecoverProbe(JobOf(intent)); }
      return if existing.value == intent.manifest then WriteReady(JobOf(intent), false) else Failed;
    }

    method ProbeRecovery(op: Op, job: Job, ghost step: Local -> Local) returns (pc: Pc)
      requires Steps(w, step) && Sound(w)
      ensures View(op, pc) == step(View(op, RecoverProbe(job)))
      ensures pc == WriteIntent(job) || pc == Failed
    {
      assert step(View(op, RecoverProbe(job))) == Step(w, View(op, RecoverProbe(job)));
      if ManifestDigest(w, job.manifest) in blobs || op !in staging { return Failed; }
      var ok := ValidateManifestContent(staging[op], job.manifest);
      return if ok then WriteIntent(job) else Failed;
    }

    // ---- the calls ---------------------------------------------------------------------------

    /** Running on from `pc` with `left` steps is running the call as a whole. */
    ghost predicate GoesOn(step: Local -> Local, start: Local, fuel: nat, op: Op, pc: Pc, left: nat)
      reads this
    {
      Iterate(step, start, fuel) == Iterate(step, View(op, pc), left)
    }

    lemma Stops(op: Op, pc: Pc, n: nat, step: Local -> Local)
      requires Steps(w, step) && (pc.Done? || pc.Failed? || pc.Importing?)
      ensures Iterate(step, View(op, pc), n) == View(op, pc)
    {
      assert step(View(op, pc)) == Step(w, View(op, pc));
      IterateStays(step, View(op, pc), n);
    }

    /** The marker, and the removal of staging after a hit. */
    method Record(op: Op, job: Job, hit: bool, fuel: nat, ghost step: Local -> Local) returns (pc: Pc)
      requires Steps(w, step)
      modifies this`markers, this`staging
      ensures View(op, pc) == Iterate(step, old(View(op, WriteMarker(job, hit))), fuel) && OthersAlone(op)
    {
      ghost var start := View(op, WriteMarker(job, hit));
      if fuel == 0 { return WriteMarker(job, hit); }
      pc := PutMarker(op, job, hit, step);
      assert GoesOn(step, start, fuel, op, pc, fuel - 1);
      if fuel == 1 { return; }
      if hit {
        pc := RemoveStaging(op, job, step);
        assert GoesOn(step, start, fuel, op, pc, fuel - 2);
        Stops(op, pc, fuel - 2, step);
      } else {
        Stops(op, pc, fuel - 1, step);
      }
    }

    /** `finalizePublication`. */
    method Finalize(op: Op, job: Job, hit: bool, fuel: nat, ghost step: Local -> Local) returns (pc: Pc)
      requires Steps(w, step)
      modifies this
      ensures View(op, pc) == Iterate(step, old(View(op, WriteReady(job, hit))), fuel) && OthersAlone(op)
    {
      if fuel == 0 { return WriteReady(job, hit); }
      pc := PutReady(op, job, hit, step);
      if pc.Failed? {
        Stops(op, pc, fuel - 1, step);
      } else {
        pc := Record(op, job, hit, fuel - 1, step);
      }
    }

    /** The loop that removes the checkpoints. */
    method DropResumes(op: Op, job: Job, fuel: nat, ghost step: Local -> Local) returns (pc: Pc, left: nat)
      requires Steps(w, step)
      modifies this`staging
      ensures GoesOn(step, old(View(op, DropResume(job, 0))), fuel, op, pc, left) && OthersAlone(op)
      ensures left == 0 || pc == DropResume(job, |job.manifest.files|) || pc == Failed
      ensures (pc.DropResume? && pc.job == job && pc.k <= |job.manifest.files|) || pc == Failed
      ensures pc.DropResume? && op in staging ==> NoResumes(staging[op], job.manifest, pc.k)
    {
      ghost var start := View(op, DropResume(job, 0));
      var k: nat := 0;
      left := fuel;
      while k < |job.manifest.files| && left > 0
        invariant 0 <= k <= |job.manifest.files|
        invariant GoesOn(step, start, fuel, op, DropResume(job, k), left) && OthersAlone(op)
        invariant op in staging ==> NoResumes(staging[op], job.manifest, k)
      {
        pc := DropResumeFile(op, job, k, step);
        k, left := k + 1, left - 1;
        if pc.Failed? {
          assert GoesOn(step, start, fuel, op, pc, left);
          return;
        }
      }
      pc := DropResume(job, k);
    }

    /** The part of `Publish` that commits the intent and completes staging. */
    method Commit(op: Op, job: Job, fuel: nat, ghost step: Local -> Local) returns (pc: Pc, left: nat)
      requires Steps(w, step)
      modifies this`intents, this`staging
      ensures GoesOn(step, old(View(op, WriteIntent(job))), fuel, op, pc, left) && OthersAlone(op)
      ensures left == 0 || pc == Inspect(job) || pc == Failed
      ensures pc == Inspect(job) && job.manifest.files != [] ==>
                && op in staging && MANIFEST in staging[op] && staging[op][MANIFEST] == w.json(job.manifest)
                && NoResumes(staging[op], job.manifest, |job.manifest.files|)
    {
      ghost var start := View(op, WriteIntent(job));
      pc, left := WriteIntent(job), fuel;
      if left == 0 { return; }
      PutIntent(op, job, step);
      pc, left := DropResumes(op, job, left - 1, step);
      assert GoesOn(step, start, fuel, op, pc, left);
      if left == 0 || pc.Failed? { return; }
      assert step(View(op, pc)) == Step(w, View(op, pc));
      pc, left := WriteManifest(job), left - 1;
      assert GoesOn(step, start, fuel, op, pc, left);
      if left == 0 { return; }
      pc := CompleteStaging(op, job, step);
      left := left - 1;
    }

    /** The manifest, beside files without checkpoints. */
    method CompleteStaging(op: Op, job: Job, ghost step: Local -> Local) returns (pc: Pc)
      requires Steps(w, step) && (op in staging ==> NoResumes(staging[op], job.manifest, |job.manifest.files|))
      modifies this`staging
      ensures View(op, pc) == step(old(View(op, WriteManifest(job)))) && OthersAlone(op)
      ensures pc == Inspect(job) || pc == Failed
      ensures pc == Inspect(job) && job.manifest.files != [] ==>
                && op in staging && MANIFEST in staging[op] && staging[op][MANIFEST] == w.json(job.manifest)
                && NoResumes(staging[op], job.manifest, |job.manifest.files|)
    {
      ghost var dir := if op in staging then staging[op] else map[];
      pc := PutManifest(op, job, step);
      if pc == Inspect(job) && job.manifest.files != [] {
        ResumesGone(dir, staging[op], job.manifest, |job.manifest.files|, MANIFEST);
      }
    }

    /** The part of `Publish` that finds or makes the blob. */
    method Place(op: Op, job: Job, fuel: nat, ghost step: Local -> Local) returns (pc: Pc, left: nat)
      requires Steps(w, step) && Sound(w)
      modifies this`staging, this`blobs
      ensures GoesOn(step, old(View(op, Inspect(job))), fuel, op, pc, left) && OthersAlone(op)
      ensures left == 0 || (pc.WriteReady? && pc.job == job) || pc == Failed
    {
      ghost var start := View(op, Inspect(job));
      pc, left := Inspect(job), fuel;
      if left == 0 { return; }
      pc := InspectBlob(op, job, step);
      left := left - 1;
      assert GoesOn(step, start, fuel, op, pc, left);
      if left == 0 || !pc.Probe? { return; }
      pc := ProbeBlob(op, job, step);
      left := left - 1;
      assert GoesOn(step, start, fuel, op, pc, left);
      if left == 0 || pc.Failed? { return; }
      pc := RenameStaging(op, job, step);
      left := left - 1;
    }

    /** `Publish`, dying after `fuel` actions: the cache is where that many
        steps of the protocol lead. */
    method Publish(op: Op, job: Job, fuel: nat, ghost step: Local -> Local) returns (outcome: Outcome, pc: Pc)
      requires Steps(w, step) && Sound(w)
      modifies this
      ensures View(op, pc) == Iterate(step, old(View(op, WriteIntent(job))), fuel) && OthersAlone(op)
      ensures outcome == OutcomeOf(pc)
    {
      var left;
      pc, left := Commit(op, job, fuel, step);
      if pc == Inspect(job) && left > 0 { pc, left := Place(op, job, left, step); }
      if pc.WriteReady? && left > 0 {
        pc := Finalize(op, job, pc.hit, left, step);
      } else if pc.Failed? {
        Stops(op, pc, left, step);
      }
      return OutcomeOf(pc), pc;
    }

    /** `RecoverPublished`, likewise. */
    method RecoverPublished(op: Op, fuel: nat, ghost step: Local -> Local) returns (outcome: Outcome, pc: Pc)
      requires Steps(w, step) && Sound(w)
      modifies this
      ensures View(op, pc) == Iterate(step, old(View(op, Recovering)), fuel) && OthersAlone(op)
      ensures outcome == OutcomeOf(pc)
    {
      if fuel == 0 { return Died, Recovering; }
      pc := ReadRecovery(op, step);
      if pc.Done? || pc.Importing? || pc.Failed? {
        Stops(op, pc, fuel - 1, step);
        return OutcomeOf(pc), pc;
      }
      if pc.WriteReady? {
        pc := Finalize(op, pc.job, false, fuel - 1, step);
        return OutcomeOf(pc), pc;
      }
      if fuel == 1 { return Died, pc; }
      var job := pc.job;
      pc := ProbeRecovery(op, job, step);
      if pc.Failed? {
        Stops(op, pc, fuel - 2, step);
        return OutcomeOf(pc), pc;
      }
      outcome, pc := Publish(op, job, fuel - 2, step);
    }
  }
}
