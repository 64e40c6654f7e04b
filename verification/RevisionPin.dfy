/** The revision pin of a Hub import.

    A branch or tag may move between the retries of one operation. The first
    attempt that resolves it writes down the commit before it stages a byte;
    later attempts ask for that commit. Cleanup removes the pin last.
 */
module RevisionPin {
  import opened Basics

  type Commit = string

  /** Everything a pin must agree with, and the revision asked for. */
  datatype Source = Source(endpoint: string, repository: string, revision: string, entrypoint: string,
    selectors: seq<string>)

  datatype Pin = Pin(source: Source, commit: Commit)

  /** The name of a blob: the digest of its manifest. */
  type Artifact = string

  /** What an intent says, as far as it matters here: the commit, the files of
      the manifest, and its digest. */
  datatype Intent = Intent(commit: Commit, names: set<string>, artifact: Artifact)

  /** The state of the operation on disk. For every staged file, the commits
      its bytes were downloaded from. */
  datatype Files = Files(staged: map<string, set<Commit>>, pin: Option<Pin>, intent: Option<Intent>,
    marker: Option<Commit>)

  datatype Pc =
    | Idle
    | Recover(source: Source)
    | RecoverLook(intent: Intent)
    | RecoverProbe(intent: Intent)
    | ReadPin(source: Source)
    | Resolve(source: Source, pinned: Option<Commit>)
    | WritePin(source: Source, commit: Commit)
    | Fetch(commit: Commit)
    | WriteIntent(intent: Intent)
    | Inspect(intent: Intent)
    | Probe(intent: Intent)
    | Rename(intent: Intent)
    | WriteMarker(intent: Intent, hit: bool)
    | DropStaging(intent: Intent)
    | Done(commit: Commit)
    | Failed
    | CleanStaging
    | CleanIntents
    | CleanMarkers
    | CleanPin

  /** `blobs` are the artifacts published in the cache, by anybody and from any
      commit. */
  datatype State = State(files: Files, blobs: set<Artifact>, pc: Pc)

  /** `Answer` is whatever the Hub answers for the revision asked for at that
      moment; `Download` is some bytes of one file, `Unlink` the removal of one;
      `Complete` is the end of the downloads, with the digest of the selected
      files and whether they form a valid artifact; `Rival` is the publication
      of an artifact by another operation; `Obstruct` is a file or a limit in
      the way of a recovery or a publication. */
  datatype Event =
    | Begin(source: Source)
    | BeginCleanup
    | Crash
    | Advance
    | Answer(commit: string)
    | Download(name: string)
    | Unlink(name: string)
    | Complete(names: set<string>, artifact: Artifact, valid: bool)
    | Rival(artifact: Artifact)
    | Obstruct

  function Fetched(staged: map<string, set<Commit>>, name: string, commit: Commit): map<string, set<Commit>> {
    staged[name := (if name in staged then staged[name] else {}) + {commit}]
  }

  /** `Resolve`: a full commit is answered by itself or not at all. */
  function Resolved(source: Source, pinned: Option<Commit>, answer: string): Pc {
    var revision := if pinned.Some? then pinned.value else source.revision;
    if !ValidCommit(answer) || (ValidCommit(revision) && answer != revision) then Failed
    else if pinned.Some? then Fetch(answer)
    else WritePin(source, answer)
  }

  predicate Staged(files: Files, i: Intent) {
    i.names <= files.staged.Keys
  }

  /** What recovery decides from marker and intent. */
  function Recovered(files: Files, source: Source): Pc {
    if files.marker.Some? then Done(files.marker.value)
    else if files.intent.Some? then RecoverLook(files.intent.value)
    else ReadPin(source)
  }

  function PinRead(files: Files, source: Source): Pc {
    if files.pin.None? then Resolve(source, None)
    else if files.pin.value.source == source then Resolve(source, Some(files.pin.value.commit))
    else Failed
  }

  /** The end of a publication or a recovery: two looks at the blob, and the
      rename. A blob that appears between the looks is a conflict, and so is a
      recovery that finds neither the blob nor all staged files. */
  function Placed(s: State, e: Event): State {
    match (s.pc, e)
    case (RecoverLook(i), Advance) => s.(pc := if i.artifact in s.blobs then WriteMarker(i, false) else RecoverProbe(i))
    case (RecoverProbe(i), Advance) => s.(pc := if i.artifact in s.blobs || !Staged(s.files, i) then Failed
        else WriteIntent(i))
    case (WriteIntent(i), Advance) => s.(files := s.files.(intent := Some(i)), pc := Inspect(i))
    case (Inspect(i), Advance) => s.(pc := if i.artifact in s.blobs then WriteMarker(i, true) else Probe(i))
    case (Probe(i), Advance) => s.(pc := if i.artifact in s.blobs then Failed else Rename(i))
    case (Rename(i), Advance) =>
      if i.artifact in s.blobs then s.(pc := WriteMarker(i, true))
      else State(s.files.(staged := map[]), s.blobs + {i.artifact}, WriteMarker(i, false))
    case (WriteMarker(i, hit), Advance) =>
      s.(files := s.files.(marker := Some(i.commit)), pc := if hit then DropStaging(i) else Done(i.commit))
    case (DropStaging(i), Advance) => s.(files := s.files.(staged := map[]), pc := Done(i.commit))
    case _ => s
  }

  /** Where something can be in the way: reading marker and intent, completing
      staging, a blob found at the rename, and READY. */
  predicate Obstructible(pc: Pc) {
    pc.Recover? || pc.Inspect? || pc.Rename? || pc.WriteMarker?
  }

  predicate Cleaning(pc: Pc) {
    pc.CleanStaging? || pc.CleanIntents? || pc.CleanMarkers? || pc.CleanPin?
  }

  function Cleaned(s: State, e: Event): State {
    var files := s.files;
    match (s.pc, e)
    case (CleanStaging, Unlink(name)) => s.(files := files.(staged := files.staged - {name}))
    case (CleanStaging, Advance) => s.(files := files.(staged := map[]), pc := CleanIntents)
    case (CleanIntents, Advance) => s.(files := files.(intent := None), pc := CleanMarkers)
    case (CleanMarkers, Advance) => s.(files := files.(marker := None), pc := CleanPin)
    case (CleanPin, Advance) => s.(files := files.(pin := None), pc := Idle)
    case _ => s
  }

  function Step(s: State, e: Event): State {
    var files := s.files;
    match (s.pc, e)
    case (_, Rival(artifact)) => s.(blobs := s.blobs + {artifact})
    case (_, Obstruct) => if Obstructible(s.pc) then s.(pc := Failed) else s
    case (_, Crash) => s.(pc := Idle)
    case (Idle, Begin(source)) => s.(pc := Recover(source))
    case (Done(_), Begin(source)) => s.(pc := Recover(source))
    case (Failed, Begin(source)) => s.(pc := Recover(source))
    case (Idle, BeginCleanup) => s.(pc := CleanStaging)
    case (Done(_), BeginCleanup) => s.(pc := CleanStaging)
    case (Failed, BeginCleanup) => s.(pc := CleanStaging)
    case (Recover(source), Advance) => s.(pc := Recovered(files, source))
    case (ReadPin(source), Advance) => s.(pc := PinRead(files, source))
    case (Resolve(source, pinned), Answer(answer)) => s.(pc := Resolved(source, pinned, answer))
    case (WritePin(source, commit), Advance) => s.(files := files.(pin := Some(Pin(source, commit))), pc :=
        Fetch(commit))
    case (Fetch(commit), Download(name)) => s.(files := files.(staged := Fetched(files.staged, name, commit)))
    case (Fetch(commit), Complete(names, artifact, valid)) =>
      var i := Intent(commit, names, artifact);
      s.(pc := if valid && Staged(files, i) then WriteIntent(i) else Failed)
    case _ => if Cleaning(s.pc) then Cleaned(s, e) else Placed(s, e)
  }

  function Run(s: State, events: seq<Event>): State
    decreases |events|
  {
    if events == [] then s else Run(Step(s, events[0]), events[1..])
  }

  const NOTHING := Files(map[], None, None, None)

  const START := State(NOTHING, {}, Idle)

  // ---- the invariant ----------------------------------------------------------------------

  /** A commit the source can stand for: itself, if it names one in full. */
  predicate Names(source: Source, commit: Commit) {
    ValidCommit(commit) && (ValidCommit(source.revision) ==> commit == source.revision)
  }

  /** Bytes, intent and marker exist only with a pin, and are of its commit. */
  predicate FilesOk(files: Files) {
    && (files.pin.Some? ==> Names(files.pin.value.source, files.pin.value.commit))
    && (forall name :: name in files.staged ==> files.pin.Some? && files.staged[name] == {files.pin.value.commit})
    && (files.intent.Some? ==> files.pin.Some? && files.intent.value.commit == files.pin.value.commit)
    && (files.marker.Some? ==> files.pin.Some? && files.marker.value == files.pin.value.commit)
  }

  predicate Pinned(files: Files, commit: Commit) {
    files.pin.Some? && files.pin.value.commit == commit
  }

  predicate PcOk(s: State) {
    var files := s.files;
    match s.pc
    case Resolve(source, pinned) => if pinned.None? then files.pin.None?
        else files.pin == Some(Pin(source, pinned.value))
    case WritePin(source, commit) => files.pin.None? && Names(source, commit)
    case Fetch(commit) => Pinned(files, commit)
    case RecoverLook(i) => Pinned(files, i.commit)
    case RecoverProbe(i) => Pinned(files, i.commit)
    case WriteIntent(i) => Pinned(files, i.commit)
    case Inspect(i) => Pinned(files, i.commit)
    case Probe(i) => Pinned(files, i.commit)
    case Rename(i) => Pinned(files, i.commit)
    case WriteMarker(i, _) => Pinned(files, i.commit)
    case DropStaging(i) => Pinned(files, i.commit)
    case Done(commit) => Pinned(files, commit)
    case CleanIntents => files.staged == map[]
    case CleanMarkers => files.staged == map[] && files.intent.None?
    case CleanPin => files.staged == map[] && files.intent.None? && files.marker.None?
    case _ => true
  }

  predicate Inv(s: State) {
    FilesOk(s.files) && PcOk(s)
  }

  /** The step that ends a cleanup. */
  predicate Unpins(s: State, e: Event) {
    s.pc.CleanPin? && e.Advance?
  }

  predicate Kept(s: State, e: Event, after: State) {
    Inv(after) && (s.files.pin.Some? && !Unpins(s, e) ==> after.files.pin == s.files.pin)
  }

  lemma CleaningKeeps(s: State, e: Event)
    requires Inv(s) && Cleaning(s.pc)
    ensures Kept(s, e, Step(s, e))
  {
  }

  lemma ImportingKeeps(s: State, e: Event)
    requires Inv(s) && !Cleaning(s.pc)
    ensures Kept(s, e, Step(s, e))
  {
    if s.pc.Fetch? && e.Download? {
      var staged := Fetched(s.files.staged, e.name, s.pc.commit);
      assert forall name :: name in staged ==> name == e.name || name in s.files.staged;
    }
  }

  /** What every event keeps; only the last step of a cleanup drops a pin. */
  lemma StepKeeps(s: State, e: Event)
    requires Inv(s)
    ensures Kept(s, e, Step(s, e))
  {
    if Cleaning(s.pc) { CleaningKeeps(s, e); } else { ImportingKeeps(s, e); }
  }

  predicate UnpinsIn(s: State, events: seq<Event>)
    decreases |events|
  {
    events != [] && (Unpins(s, events[0]) || UnpinsIn(Step(s, events[0]), events[1..]))
  }

  lemma {:induction false} RunKeeps(s: State, events: seq<Event>)
    requires Inv(s)
    ensures Inv(Run(s, events))
    ensures s.files.pin.Some? && !UnpinsIn(s, events) ==> Run(s, events).files.pin == s.files.pin
    decreases |events|
  {
    if events != [] {
      StepKeeps(s, events[0]);
      RunKeeps(Step(s, events[0]), events[1..]);
    }
  }

  /** After every run: staged bytes exist only with a pin and come from the
      pinned commit, and what an import or a recovery reports is that commit. */
  lemma StagedFromPin(events: seq<Event>)
    ensures var s := Run(START, events);
            && (forall name :: name in s.files.staged ==>
                  s.files.pin.Some? && s.files.staged[name] == {s.files.pin.value.commit})
            && (s.pc.Done? ==> Pinned(s.files, s.pc.commit))
  {
    RunKeeps(START, events);
  }

  /** An import of a commit named in full is pinned to it and to nothing else,
      whatever the Hub answers. */
  lemma FullCommitPinned(events: seq<Event>)
    ensures var s := Run(START, events);
            s.files.pin.Some? && ValidCommit(s.files.pin.value.source.revision) ==>
              s.files.pin.value.commit == s.files.pin.value.source.revision
  {
    RunKeeps(START, events);
  }

  /** Until a cleanup ends, all reports of an operation name one commit,
      however the branch or tag moves. */
  lemma ReportsAgree(events: seq<Event>, later: seq<Event>)
    requires var s := Run(START, events); s.pc.Done? && Run(s, later).pc.Done? && !UnpinsIn(s, later)
    ensures Run(Run(START, events), later).pc.commit == Run(START, events).pc.commit
  {
    RunKeeps(START, events);
    RunKeeps(Run(START, events), later);
  }

  /** A pinned retry can fetch from nothing but the pinned commit. */
  lemma PinnedRetry(events: seq<Event>, later: seq<Event>, commit: Commit)
    requires Pinned(Run(START, events).files, commit) && !UnpinsIn(Run(START, events), later)
    requires Run(Run(START, events), later).pc.Fetch?
    ensures Run(Run(START, events), later).pc.commit == commit
  {
    RunKeeps(START, events);
    RunKeeps(Run(START, events), later);
  }

  /** Why the pin goes last: staged bytes that outlived their pin are continued
      from whatever the tag names next. */
  lemma PinFirstWouldMix(source: Source, name: string, first: Commit, second: Commit)
    requires ValidCommit(first) && ValidCommit(second) && first != second && !ValidCommit(source.revision)
    ensures var s := State(NOTHING.(staged := map[name := {first}]), {}, Idle);
            var t := Run(s, [Begin(source), Advance, Advance, Answer(second), Advance, Download(name)]);
            name in t.files.staged && t.files.staged[name] == {first, second}
  {
    var s := State(NOTHING.(staged := map[name := {first}]), {}, Idle);
    var s1 := Step(s, Begin(source));
    var s2 := Step(s1, Advance);
    var s3 := Step(s2, Advance);
    var s4 := Step(s3, Answer(second));
    var s5 := Step(s4, Advance);
    var s6 := Step(s5, Download(name));
    assert Run(s6, []) == s6;
    assert Run(s5, [Download(name)]) == s6;
    assert Run(s4, [Advance, Download(name)]) == s6;
    assert Run(s3, [Answer(second), Advance, Download(name)]) == s6;
    assert Run(s2, [Advance, Answer(second), Advance, Download(name)]) == s6;
    assert Run(s1, [Advance, Advance, Answer(second), Advance, Download(name)]) == s6;
  }

  // ---- an intent without its files ---------------------------------------------------------

  /** The intent can still be recovered: its blob or all its files are there. */
  predicate Recoverable(s: State) {
    s.files.intent.Some? ==> s.files.intent.value.artifact in s.blobs || Staged(s.files, s.files.intent.value)
  }

  predicate OnIntent(s: State, i: Intent) {
    s.files.intent == Some(i) && (i.artifact in s.blobs || Staged(s.files, i))
  }

  predicate PcRecoverable(s: State) {
    match s.pc
    case ReadPin(_) => s.files.intent.None?
    case Resolve(_, _) => s.files.intent.None?
    case WritePin(_, _) => s.files.intent.None?
    case Fetch(_) => s.files.intent.None?
    case RecoverLook(i) => OnIntent(s, i)
    case RecoverProbe(i) => OnIntent(s, i)
    case WriteIntent(i) => (i.artifact in s.blobs || Staged(s.files, i))
        && (s.files.intent.None? || s.files.intent == Some(i))
    case Inspect(i) => OnIntent(s, i)
    case Probe(i) => OnIntent(s, i)
    case Rename(i) => OnIntent(s, i)
    case WriteMarker(i, _) => s.files.intent == Some(i) && i.artifact in s.blobs
    case DropStaging(i) => s.files.intent == Some(i) && i.artifact in s.blobs
    case _ => !Cleaning(s.pc)
  }

  lemma PlacedRecoverable(s: State, e: Event)
    requires Recoverable(s) && PcRecoverable(s)
    ensures Recoverable(Placed(s, e)) && PcRecoverable(Placed(s, e))
  {
  }

  lemma StepRecoverable(s: State, e: Event)
    requires Recoverable(s) && PcRecoverable(s) && !e.BeginCleanup?
    ensures Recoverable(Step(s, e)) && PcRecoverable(Step(s, e))
  {
    PlacedRecoverable(s, e);
  }

  lemma {:induction false} RunRecoverable(s: State, events: seq<Event>)
    requires Recoverable(s) && PcRecoverable(s) && forall e :: e in events ==> !e.BeginCleanup?
    ensures Recoverable(Run(s, events)) && PcRecoverable(Run(s, events))
    decreases |events|
  {
    if events != [] {
      assert !events[0].BeginCleanup?;
      StepRecoverable(s, events[0]);
      RunRecoverable(Step(s, events[0]), events[1..]);
    }
  }

  /** As long as no cleanup begins, over all retries, crashes and rivals, a
      committed intent has its blob or all of its files. */
  lemma NeverStranded(events: seq<Event>)
    requires forall e :: e in events ==> !e.BeginCleanup?
    ensures Recoverable(Run(START, events))
  {
    RunRecoverable(START, events);
  }

  lemma {:induction false} RunSnoc(s: State, events: seq<Event>, e: Event)
    ensures Run(s, events + [e]) == Step(Run(s, events), e)
    decreases |events|
  {
    if events == [] {
      assert events + [e] == [e];
      assert Run(Step(s, e), []) == Step(s, e);
    } else {
      assert (events + [e])[1..] == events[1..] + [e];
      RunSnoc(Step(s, events[0]), events[1..], e);
    }
  }

  ghost predicate Reachable(s: State) {
    exists events :: s == Run(START, events)
  }

  lemma Reach(s: State, e: Event, t: State)
    requires Reachable(s) && t == Step(s, e)
    ensures Reachable(t)
  {
    var events :| s == Run(START, events);
    RunSnoc(START, events, e);
  }

  /** An import that died right behind its intent. */
  function Committed(source: Source, commit: Commit, name: string, artifact: Artifact): State {
    State(Files(map[name := {commit}], Some(Pin(source, commit)), Some(Intent(commit, {name}, artifact)), None), {},
        Idle)
  }

  lemma FetchReachable(source: Source, commit: Commit)
    requires ValidCommit(commit) && !ValidCommit(source.revision)
    ensures Reachable(State(NOTHING.(pin := Some(Pin(source, commit))), {}, Fetch(commit)))
  {
    assert Run(START, []) == START;
    var s1 := START.(pc := Recover(source));
    Reach(START, Begin(source), s1);
    var s2 := START.(pc := ReadPin(source));
    Reach(s1, Advance, s2);
    var s3 := START.(pc := Resolve(source, None));
    Reach(s2, Advance, s3);
    var s4 := START.(pc := WritePin(source, commit));
    Reach(s3, Answer(commit), s4);
    Reach(s4, Advance, State(NOTHING.(pin := Some(Pin(source, commit))), {}, Fetch(commit)));
  }

  lemma CommittedReachable(source: Source, commit: Commit, name: string, artifact: Artifact)
    requires ValidCommit(commit) && !ValidCommit(source.revision)
    ensures Reachable(Committed(source, commit, name, artifact))
  {
    FetchReachable(source, commit);
    var i := Intent(commit, {name}, artifact);
    var s5 := State(NOTHING.(pin := Some(Pin(source, commit))), {}, Fetch(commit));
    var s6 := s5.(files := s5.files.(staged := map[name := {commit}]));
    var none: set<Commit> := {};
    assert none + {commit} == {commit};
    Reach(s5, Download(name), s6);
    var s7 := s6.(pc := WriteIntent(i));
    Reach(s6, Complete({name}, artifact, true), s7);
    var s8 := s7.(files := s7.files.(intent := Some(i)), pc := Inspect(i));
    Reach(s7, Advance, s8);
    Reach(s8, Crash, Committed(source, commit, name, artifact));
  }

  /** A cleanup that stops between staging and intents strands the intent, and
      an import on it then ends in a conflict. */
  lemma CleanupStrands(source: Source, commit: Commit, name: string, artifact: Artifact)
    requires ValidCommit(commit) && !ValidCommit(source.revision)
    ensures var s := Run(Committed(source, commit, name, artifact), [BeginCleanup, Unlink(name), Crash]);
            && Reachable(Committed(source, commit, name, artifact))
                && Recoverable(Committed(source, commit, name, artifact)) && !Recoverable(s)
            && Run(s, [Begin(source), Advance, Advance, Advance]).pc == Failed
  {
    CommittedReachable(source, commit, name, artifact);
    CleanupStops(source, commit, name, artifact);
    var i := Intent(commit, {name}, artifact);
    var t := Committed(source, commit, name, artifact).(files :=
        Committed(source, commit, name, artifact).files.(staged := map[]));
    var f := t.(pc := Failed);
    assert name in i.names && !Staged(t.files, i);
    assert Run(f, []) == f;
    assert Run(t.(pc := RecoverProbe(i)), [Advance]) == f;
    assert Run(t.(pc := RecoverLook(i)), [Advance, Advance]) == f;
    assert Run(t.(pc := Recover(source)), [Advance, Advance, Advance]) == f;
  }

  lemma CleanupStops(source: Source, commit: Commit, name: string, artifact: Artifact)
    ensures var s := Committed(source, commit, name, artifact);
            Run(s, [BeginCleanup, Unlink(name), Crash]) == s.(files := s.files.(staged := map[]))
  {
    var s := Committed(source, commit, name, artifact);
    var t := s.(files := s.files.(staged := map[]));
    assert s.files.staged - {name} == map[];
    assert Run(t, []) == t && Step(t.(pc := CleanStaging), Crash) == t;
    assert Run(t.(pc := CleanStaging), [Crash]) == t;
    assert Run(s.(pc := CleanStaging), [Unlink(name), Crash]) == t;
  }

  // ---- what is published was valid ------------------------------------------------------------

  function Past(events: seq<Event>, i: nat): State
    requires i <= |events|
  {
    Run(START, events[..i])
  }

  /** At step `j` the downloads from the commit ended with the files of the
      intent, all staged and a valid artifact of that digest. */
  ghost predicate ValidatedAt(events: seq<Event>, j: nat, i: Intent) {
    && j < |events| && events[j] == Complete(i.names, i.artifact, true)
    && Past(events, j).pc == Fetch(i.commit) && i.names <= Past(events, j).files.staged.Keys
  }

  ghost predicate Validated(events: seq<Event>, i: Intent) {
    exists j: nat :: ValidatedAt(events, j, i)
  }

  /** The intent the operation is at work on. */
  function Working(pc: Pc): Option<Intent> {
    match pc
    case RecoverLook(i) => Some(i)
    case RecoverProbe(i) => Some(i)
    case WriteIntent(i) => Some(i)
    case Inspect(i) => Some(i)
    case Probe(i) => Some(i)
    case Rename(i) => Some(i)
    case WriteMarker(i, _) => Some(i)
    case DropStaging(i) => Some(i)
    case _ => None
  }

  /** Where an intent comes from. */
  predicate Inherits(s: State, e: Event, t: State) {
    && (t.files.intent.Some? ==> t.files.intent == s.files.intent || t.files.intent == Working(s.pc))
    && (Working(t.pc).Some? ==>
          || Working(t.pc) == Working(s.pc) || Working(t.pc) == s.files.intent
          || (s.pc.Fetch? && e.Complete? && e.valid && e.names <= s.files.staged.Keys
              && Working(t.pc) == Some(Intent(s.pc.commit, e.names, e.artifact))))
  }

  lemma StepInherits(s: State, e: Event)
    ensures Inherits(s, e, Step(s, e))
  {
  }

  ghost predicate IntentsValidated(events: seq<Event>, s: State) {
    && (s.files.intent.Some? ==> Validated(events, s.files.intent.value))
    && (Working(s.pc).Some? ==> Validated(events, Working(s.pc).value))
  }

  lemma ValidatedStays(events: seq<Event>, e: Event, i: Intent)
    requires Validated(events, i)
    ensures Validated(events + [e], i)
  {
    var j: nat :| ValidatedAt(events, j, i);
    assert (events + [e])[..j] == events[..j];
    assert ValidatedAt(events + [e], j, i);
  }

  lemma ValidatedNow(events: seq<Event>, s: State, e: Event)
    requires s == Run(START, events) && s.pc.Fetch? && e.Complete? && e.valid && e.names <= s.files.staged.Keys
    ensures Validated(events + [e], Intent(s.pc.commit, e.names, e.artifact))
  {
    assert (events + [e])[..|events|] == events;
    assert ValidatedAt(events + [e], |events|, Intent(s.pc.commit, e.names, e.artifact));
  }

  lemma ValidatedStep(events: seq<Event>, s: State, e: Event, t: State)
    requires s == Run(START, events) && IntentsValidated(events, s) && Inherits(s, e, t)
    ensures IntentsValidated(events + [e], t)
  {
    if s.files.intent.Some? { ValidatedStays(events, e, s.files.intent.value); }
    if Working(s.pc).Some? { ValidatedStays(events, e, Working(s.pc).value); }
    if s.pc.Fetch? && e.Complete? && e.valid && e.names <= s.files.staged.Keys { ValidatedNow(events, s, e); }
  }

  lemma {:induction false} IntentsAlwaysValidated(events: seq<Event>)
    ensures IntentsValidated(events, Run(START, events))
    decreases |events|
  {
    if events != [] {
      var before, e := events[..|events|-1], events[|events|-1];
      assert events == before + [e];
      IntentsAlwaysValidated(before);
      RunSnoc(START, before, e);
      StepInherits(Run(START, before), e);
      ValidatedStep(before, Run(START, before), e, Step(Run(START, before), e));
    }
  }

  /** In every run: an intent, and whatever is published on it, names files that
      one download from its commit had staged completely and that were found a
      valid artifact of its digest. */
  lemma IntentWasValidated(events: seq<Event>)
    ensures var s := Run(START, events);
            && (s.files.intent.Some? ==> Validated(events, s.files.intent.value))
            && (s.pc.Rename? ==> Validated(events, s.pc.intent))
  {
    IntentsAlwaysValidated(events);
  }

  // ---- the same, as the importer does it -------------------------------------------------------

  datatype Outcome = Reported(commit: Commit) | Error | Died

  /** When another operation publishes the same artifact during an import:
      between the looks of a recovery, and before each of the three looks of a
      publication. */
  datatype Rivals = Rivals(recovery: bool, inspect: bool, probe: bool, rename: bool)

  /** What is in the way: of reading the marker, of reading the intent, of
      completing staging, of reading the blob of a rival that came before the
      rename, and of writing READY. */
  datatype Obstacles = Obstacles(marker: bool, intent: bool, staging: bool, rename: bool, ready: bool)

  const FREE := Obstacles(false, false, false, false, false)

  /** What the Hub and the machine do during one import: the answer to the
      resolution, the files downloaded (in pieces, so a name may repeat), which
      of them are selected, their digest and whether they form a valid artifact,
      what rivals do, what is in the way, and after how many writes the process
      dies. */
  datatype Attempt = Attempt(
    answer: Option<string>, downloads: seq<string>, names: set<string>, artifact: Artifact, valid: bool,
    rivals: Rivals, obstacles: Obstacles, writes: nat)

  /** A publication fails exactly when something is in its way or a rival comes
      between its two looks. */
  function Publishes(i: Intent, blobs: set<Artifact>, a: Attempt): Outcome {
    if a.obstacles.staging || a.obstacles.ready then Error
    else if i.artifact in blobs || a.rivals.inspect then Reported(i.commit)
    else if a.rivals.probe || (a.rivals.rename && a.obstacles.rename) then Error
    else Reported(i.commit)
  }

  /** A recovery fails exactly when something is in its way, when a rival comes
      between its looks, when neither the blob nor all files are there, or when
      its publication does. */
  function Recovers(files: Files, i: Intent, blobs: set<Artifact>, a: Attempt): Outcome {
    if a.obstacles.intent then Error
    else if i.artifact in blobs then if a.obstacles.ready then Error else Reported(i.commit)
    else if a.rivals.recovery || !Staged(files, i) then Error
    else Publishes(i, blobs, a)
  }

  /** What an import comes to when the process lives to its end. */
  function Verdict(files: Files, blobs: set<Artifact>, source: Source, a: Attempt): Outcome {
    if files.marker.Some? then if a.obstacles.marker then Error else Reported(files.marker.value)
    else if files.intent.Some? then Recovers(files, files.intent.value, blobs, a)
    else if files.pin.Some? && files.pin.value.source != source then Error
    else if a.answer.None? || !ValidCommit(a.answer.value) then Error
    else
      var revision := if files.pin.Some? then files.pin.value.commit else source.revision;
      if ValidCommit(revision) && a.answer.value != revision then Error
      else if !a.valid || !(a.names <= files.staged.Keys + (set name | name in a.downloads)) then Error
      else Publishes(Intent(a.answer.value, a.names, a.artifact), blobs, a)
  }

  /** Without a cleanup, without a rival in between and with nothing in the way,
      an intent is always recovered. */
  lemma IntentRecovered(events: seq<Event>, source: Source, a: Attempt)
    requires forall e :: e in events ==> !e.BeginCleanup?
    requires var s := Run(START, events);
            s.files.intent.Some? && s.files.marker.None? && !a.rivals.recovery && !a.rivals.probe && a.obstacles == FREE
    ensures var s := Run(START, events); Verdict(s.files, s.blobs, source, a) == Reported(s.files.intent.value.commit)
  {
    NeverStranded(events);
  }

  /** And without an intent, a Hub that answers with a commit the source stands
      for, and with the pinned one if there is a pin, gets it imported. */
  lemma ImportReports(files: Files, blobs: set<Artifact>, source: Source, a: Attempt, commit: Commit)
    requires files.marker.None? && files.intent.None? && a.answer == Some(commit) && Names(source, commit)
    requires files.pin.None? || files.pin == Some(Pin(source, commit))
    requires a.valid && (forall name :: name in a.names ==> name in a.downloads || name in files.staged)
    requires !a.rivals.probe && a.obstacles == FREE
    ensures Verdict(files, blobs, source, a) == Reported(commit)
  {
    assert a.names <= files.staged.Keys + (set name | name in a.downloads);
  }

  /** The events are those of one import of `source`, and lead from `s` to `t`. */
  ghost predicate Leads(source: Source, s: State, events: seq<Event>, t: State) {
    && (forall e :: e in events ==> !e.BeginCleanup? && (e.Begin? ==> e.source == source))
    && Run(s, events) == t
  }

  /** One more event. */
  ghost function Then(source: Source, s: State, events: seq<Event>, t: State, e: Event, u: State): (r: seq<Event>)
    requires Leads(source, s, events, t) && Step(t, e) == u && !e.BeginCleanup? && (e.Begin? ==> e.source == source)
    ensures Leads(source, s, r, u)
  {
    RunSnoc(s, events, e);
    events + [e]
  }

  lemma {:induction false} NeverCleans(s: State, events: seq<Event>)
    requires !Cleaning(s.pc) && forall e :: e in events ==> !e.BeginCleanup?
    ensures !UnpinsIn(s, events)
    decreases |events|
  {
    if events != [] {
      assert !events[0].BeginCleanup?;
      NeverCleans(Step(s, events[0]), events[1..]);
    }
  }

  /** An import keeps provenance and the pin, and reports the pinned commit. */
  lemma ImportKeeps(source: Source, s: State, events: seq<Event>, t: State)
    requires FilesOk(s.files) && s.pc.Idle? && Leads(source, s, events, t)
    ensures FilesOk(t.files) && (s.files.pin.Some? ==> t.files.pin == s.files.pin)
    ensures t.pc.Done? ==> Pinned(t.files, t.pc.commit)
  {
    RunKeeps(s, events);
    NeverCleans(s, events);
  }

  /** Nothing but removals. */
  ghost predicate Within(after: map<string, set<Commit>>, before: map<string, set<Commit>>) {
    forall name :: name in after ==> name in before && after[name] == before[name]
  }

  lemma Shrinks(staged: map<string, set<Commit>>, name: string)
    requires name in staged
    ensures |staged - {name}| + 1 == |staged|
  {
    var rest := staged - {name};
    assert staged.Keys == rest.Keys + {name};
    assert |staged.Keys| == |staged| && |rest.Keys| == |rest|;
  }

  /** Cleanup stopped anywhere leaves provenance in order. */
  lemma CleanupKeeps(files: Files, after: Files)
    requires FilesOk(files) && Within(after.staged, files.staged)
    requires after.intent.None? || after.intent == files.intent
    requires after.marker.None? || after.marker == files.marker
    requires after.pin == files.pin || after == NOTHING
    ensures FilesOk(after)
  {
  }

  class HubOperation {
    var staged: map<string, set<Commit>>
    var pin: Option<Pin>
    var intent: Option<Intent>
    var marker: Option<Commit>
    var blobs: set<Artifact>

    constructor (blobs: set<Artifact>)
      ensures OnDisk() == NOTHING && this.blobs == blobs
    {
      staged, pin, intent, marker := map[], None, None, None;
      this.blobs := blobs;
    }

    function OnDisk(): Files
      reads this
    {
      Files(staged, pin, intent, marker)
    }

    ghost function At(pc: Pc): State
      reads this
    {
      State(OnDisk(), blobs, pc)
    }

    /** Reported, failed or dead: where the machine stands. */
    ghost predicate Matches(outcome: Outcome, t: State)
      reads this
    {
      && t.files == OnDisk() && t.blobs == blobs
      && (outcome.Reported? ==> t.pc == Done(outcome.commit)) && (outcome.Error? ==> t.pc == Failed)
    }

    /** `executeHub`. Whenever the process dies, what it leaves is what a run
        of the machine leaves, and if it lives its outcome is the verdict. */
    method Execute(source: Source, a: Attempt) returns (outcome: Outcome, ghost events: seq<Event>, ghost t: State)
      modifies this
      ensures Leads(source, old(At(Idle)), events, t) && Matches(outcome, t)
      ensures !outcome.Died? || a.writes >= |a.downloads| + 4 ==>
              outcome == Verdict(old(OnDisk()), old(blobs), source, a)
      ensures FilesOk(old(OnDisk())) ==> FilesOk(OnDisk()) && (old(pin).Some? ==> pin == old(pin))
      ensures FilesOk(old(OnDisk())) && outcome.Reported? ==> Pinned(OnDisk(), outcome.commit)
    {
      ghost var s := At(Idle);
      events := Then(source, s, [], s, Begin(source), At(Recover(source)));
      if (marker.Some? && a.obstacles.marker) || (marker.None? && intent.Some? && a.obstacles.intent) {
        events := Then(source, s, events, At(Recover(source)), Obstruct, At(Failed));
        outcome, t := Error, At(Failed);
        if FilesOk(s.files) { ImportKeeps(source, s, events, t); }
        return;
      }
      t := At(Recovered(OnDisk(), source));
      events := Then(source, s, events, At(Recover(source)), Advance, t);
      if marker.Some? {
        outcome := Reported(marker.value);
      } else if intent.Some? {
        outcome, events, t := RecoverIntent(intent.value, a, source, s, events);
      } else {
        outcome, events, t := Import(source, a, s, events);
      }
      if FilesOk(s.files) { ImportKeeps(source, s, events, t); }
    }

    /** What others publish in the meantime. */
    method Meanwhile(i: Intent, rival: bool, pc: Pc, ghost source: Source, ghost s: State, ghost events0: seq<Event>)
      returns (ghost events: seq<Event>)
      requires Leads(source, s, events0, At(pc))
      modifies this`blobs
      ensures blobs == old(blobs) + (if rival then {i.artifact} else {}) && Leads(source, s, events, At(pc))
    {
      events := events0;
      if rival {
        ghost var t := At(pc);
        blobs := blobs + {i.artifact};
        events := Then(source, s, events, t, Rival(i.artifact), At(pc));
      }
    }

    /** A recovery that has found an intent and no marker. */
    method RecoverIntent(i: Intent, a: Attempt, ghost source: Source, ghost s: State, ghost events0: seq<Event>)
      returns (outcome: Outcome, ghost events: seq<Event>, ghost t: State)
      requires intent == Some(i) && !a.obstacles.intent && Leads(source, s, events0, At(RecoverLook(i)))
      modifies this`staged, this`intent, this`marker, this`blobs
      ensures Leads(source, s, events, t) && Matches(outcome, t)
      ensures !outcome.Died? || a.writes >= 3 ==> outcome == Recovers(old(OnDisk()), i, old(blobs), a)
    {
      if i.artifact in blobs {
        events := Then(source, s, events0, At(RecoverLook(i)), Advance, At(WriteMarker(i, false)));
        outcome, events, t := Finalize(i, false, a, a.writes, source, s, events);
        return;
      }
      events := Then(source, s, events0, At(RecoverLook(i)), Advance, At(RecoverProbe(i)));
      events := Meanwhile(i, a.rivals.recovery, RecoverProbe(i), source, s, events);
      if i.artifact in blobs || !(i.names <= staged.Keys) {
        events := Then(source, s, events, At(RecoverProbe(i)), Advance, At(Failed));
        return Error, events, At(Failed);
      }
      events := Then(source, s, events, At(RecoverProbe(i)), Advance, At(WriteIntent(i)));
      outcome, events, t := Publish(i, a, a.writes, source, s, events);
    }

    /** From the read of the pin on. */
    method Import(source: Source, a: Attempt, ghost s: State, ghost events0: seq<Event>)
      returns (outcome: Outcome, ghost events: seq<Event>, ghost t: State)
      requires marker.None? && intent.None? && Leads(source, s, events0, At(ReadPin(source)))
      modifies this
      ensures Leads(source, s, events, t) && Matches(outcome, t)
      ensures !outcome.Died? || a.writes >= |a.downloads| + 4 ==>
              outcome == Verdict(old(OnDisk()), old(blobs), source, a)
    {
      t := At(PinRead(OnDisk(), source));
      events := Then(source, s, events0, At(ReadPin(source)), Advance, t);
      if pin.Some? && pin.value.source != source { return Error, events, t; }
      var revision := if pin.Some? then pin.value.commit else source.revision;
      var answer := if a.answer.Some? then a.answer.value else "";
      if !ValidCommit(answer) || (ValidCommit(revision) && answer != revision) {
        events := Then(source, s, events, t, Answer(answer), At(Failed));
        return Error, events, At(Failed);
      }
      if pin.None? {
        events := Then(source, s, events, t, Answer(answer), At(WritePin(source, answer)));
        t := At(WritePin(source, answer));
        if a.writes == 0 { return Died, events, t; }
        pin := Some(Pin(source, answer));
        events := Then(source, s, events, t, Advance, At(Fetch(answer)));
        outcome, events, t := Transfer(answer, a, a.writes - 1, source, s, events);
      } else {
        events := Then(source, s, events, t, Answer(answer), At(Fetch(answer)));
        outcome, events, t := Transfer(answer, a, a.writes, source, s, events);
      }
    }

    /** From the first download on. */
    method Transfer(commit: Commit, a: Attempt, writes: nat, ghost source: Source, ghost s: State,
      ghost events0: seq<Event>)
      returns (outcome: Outcome, ghost events: seq<Event>, ghost t: State)
      requires Leads(source, s, events0, At(Fetch(commit)))
      modifies this`staged, this`intent, this`marker, this`blobs
      ensures Leads(source, s, events, t) && Matches(outcome, t)
      ensures !outcome.Died? || writes >= |a.downloads| + 3 ==>
                outcome == if a.valid && a.names <= old(staged).Keys + (set name | name in a.downloads)
                           then Publishes(Intent(commit, a.names, a.artifact), old(blobs), a) else Error
    {
      var alive;
      alive, events := DownloadAll(commit, a.downloads, writes, source, s, events0);
      t := At(Fetch(commit));
      if !alive { return Died, events, t; }
      if !a.valid || !(a.names <= staged.Keys) {
        events := Then(source, s, events, t, Complete(a.names, a.artifact, a.valid), At(Failed));
        return Error, events, At(Failed);
      }
      var i := Intent(commit, a.names, a.artifact);
      events := Then(source, s, events, t, Complete(a.names, a.artifact, a.valid), At(WriteIntent(i)));
      outcome, events, t := Publish(i, a, writes - |a.downloads|, source, s, events);
    }

    method DownloadAll(commit: Commit, names: seq<string>, writes: nat, ghost source: Source, ghost s: State,
      ghost events0: seq<Event>)
      returns (alive: bool, ghost events: seq<Event>)
      requires Leads(source, s, events0, At(Fetch(commit)))
      modifies this`staged
      ensures Leads(source, s, events, At(Fetch(commit)))
      ensures alive <==> |names| <= writes
      ensures alive ==> staged.Keys == old(staged).Keys + (set name | name in names)
    {
      events := events0;
      var i := 0;
      while i < |names|
        invariant 0 <= i <= |names| && i <= writes && Leads(source, s, events, At(Fetch(commit)))
        invariant staged.Keys == old(staged).Keys + (set name | name in names[..i])
      {
        if i == writes { return false, events; }
        ghost var t := At(Fetch(commit));
        var before := if names[i] in staged then staged[names[i]] else {};
        staged := staged[names[i] := before + {commit}];
        events := Then(source, s, events, t, Download(names[i]), At(Fetch(commit)));
        assert names[..i+1] == names[..i] + [names[i]];
        i := i + 1;
      }
      assert names[..|names|] == names;
      return true, events;
    }

    /** `Publish`, as far as the commit goes. */
    method Publish(i: Intent, a: Attempt, writes: nat, ghost source: Source, ghost s: State, ghost events0: seq<Event>)
      returns (outcome: Outcome, ghost events: seq<Event>, ghost t: State)
      requires Leads(source, s, events0, At(WriteIntent(i)))
      modifies this`staged, this`intent, this`marker, this`blobs
      ensures Leads(source, s, events, t) && Matches(outcome, t)
      ensures !outcome.Died? || writes >= 3 ==> outcome == Publishes(i, old(blobs), a)
    {
      events, t := events0, At(WriteIntent(i));
      if writes == 0 { return Died, events, t; }
      intent := Some(i);
      events := Then(source, s, events, t, Advance, At(Inspect(i)));
      if a.obstacles.staging {
        events := Then(source, s, events, At(Inspect(i)), Obstruct, At(Failed));
        return Error, events, At(Failed);
      }
      events := Meanwhile(i, a.rivals.inspect, Inspect(i), source, s, events);
      if i.artifact in blobs {
        events := Then(source, s, events, At(Inspect(i)), Advance, At(WriteMarker(i, true)));
        outcome, events, t := Finalize(i, true, a, writes - 1, source, s, events);
        return;
      }
      events := Then(source, s, events, At(Inspect(i)), Advance, At(Probe(i)));
      outcome, events, t := Move(i, a, writes - 1, source, s, events);
    }

    /** The second look, and the rename. */
    method Move(i: Intent, a: Attempt, writes: nat, ghost source: Source, ghost s: State, ghost events0: seq<Event>)
      returns (outcome: Outcome, ghost events: seq<Event>, ghost t: State)
      requires i.artifact !in blobs && Leads(source, s, events0, At(Probe(i)))
      modifies this`staged, this`marker, this`blobs
      ensures Leads(source, s, events, t) && Matches(outcome, t)
      ensures !outcome.Died? || writes >= 2 ==>
                outcome == if a.rivals.probe || (a.rivals.rename && a.obstacles.rename) || a.obstacles.ready
                    then Error else Reported(i.commit)
    {
      events := events0;
      events := Meanwhile(i, a.rivals.probe, Probe(i), source, s, events);
      if i.artifact in blobs {
        events := Then(source, s, events, At(Probe(i)), Advance, At(Failed));
        return Error, events, At(Failed);
      }
      events := Then(source, s, events, At(Probe(i)), Advance, At(Rename(i)));
      events := Meanwhile(i, a.rivals.rename, Rename(i), source, s, events);
      t := At(Rename(i));
      if i.artifact in blobs {
        if a.obstacles.rename {
          events := Then(source, s, events, t, Obstruct, At(Failed));
          return Error, events, At(Failed);
        }
        events := Then(source, s, events, t, Advance, At(WriteMarker(i, true)));
        outcome, events, t := Finalize(i, true, a, writes, source, s, events);
        return;
      }
      if writes == 0 { return Died, events, t; }
      staged := map[];
      blobs := blobs + {i.artifact};
      events := Then(source, s, events, t, Advance, At(WriteMarker(i, false)));
      outcome, events, t := Finalize(i, false, a, writes - 1, source, s, events);
    }

    /** READY, the marker and, after a hit, the removal of staging. */
    method Finalize(i: Intent, hit: bool, a: Attempt, writes: nat, ghost source: Source, ghost s: State,
      ghost events0: seq<Event>)
      returns (outcome: Outcome, ghost events: seq<Event>, ghost t: State)
      requires Leads(source, s, events0, At(WriteMarker(i, hit)))
      modifies this`staged, this`marker
      ensures Leads(source, s, events, t) && Matches(outcome, t)
      ensures outcome == if a.obstacles.ready then Error else if writes < (if hit then 2 else 1) then Died
              else Reported(i.commit)
    {
      events, t := events0, At(WriteMarker(i, hit));
      if a.obstacles.ready {
        events := Then(source, s, events, t, Obstruct, At(Failed));
        return Error, events, At(Failed);
      }
      if writes == 0 { return Died, events, t; }
      marker := Some(i.commit);
      if hit {
        events := Then(source, s, events, t, Advance, At(DropStaging(i)));
        t := At(DropStaging(i));
        if writes == 1 { return Died, events, t; }
        staged := map[];
      }
      events := Then(source, s, events, t, Advance, At(Done(i.commit)));
      return Reported(i.commit), events, At(Done(i.commit));
    }

    /** The staging area goes first, one file at a time. */
    method RemoveStaging(removals: nat) returns (left: Option<nat>)
      modifies this`staged
      ensures Within(staged, old(staged))
      ensures left == if removals < |old(staged)| then None else Some(removals - |old(staged)|)
      ensures left.Some? ==> staged == map[]
    {
      var n: nat := removals;
      while staged != map[]
        invariant Within(staged, old(staged)) && n <= removals && removals - n + |staged| == |old(staged)|
        decreases |staged|
      {
        if n == 0 { return None; }
        var name :| name in staged;
        Shrinks(staged, name);
        staged := staged - {name};
        n := n - 1;
      }
      return Some(n);
    }

    /** The cleanup of the operation, stopped after any number of removals:
        the pin is gone only when everything else is. */
    method Cleanup(removals: nat)
      modifies this
      ensures Within(staged, old(staged)) && (FilesOk(old(OnDisk())) ==> FilesOk(OnDisk()))
      ensures removals < |old(staged)| ==> intent == old(intent) && marker == old(marker) && pin == old(pin)
      ensures removals >= |old(staged)| ==>
                var left := removals - |old(staged)|;
                OnDisk() == Files(map[], if left > 2 then None else old(pin), if left > 0 then None
                    else old(intent), if left > 1 then None else old(marker))
    {
      ghost var before := OnDisk();
      var left := RemoveStaging(removals);
      if left.Some? && left.value > 0 { intent := None; }
      if left.Some? && left.value > 1 { marker := None; }
      if left.Some? && left.value > 2 { pin := None; }
      if FilesOk(before) { CleanupKeeps(before, OnDisk()); }
    }
  }
}
