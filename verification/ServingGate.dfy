/** The scheduling gate of serving Pods against the artifact finalizer.

    A serving Pod is created gated. The deployment controller removes the gate
    after a live look at the ModelDeployment and the artifact, the artifact
    controller removes the finalizer after a live look at ModelDeployments and
    Pods. Every look and every versioned write is a step of its own.
 */
module ServingGate {
  import opened Basics

  type Name = string

  type Uid = nat

  /** Claim, claim identity and sub-path, as the artifact reports them. */
  type Location = string

  datatype Artifact = Artifact(uid: Uid, rv: nat, deleting: bool, ready: bool, location: Option<Location>)

  /** `spec` stands for everything in the specification but the model. */
  datatype Deployment = Deployment(uid: Uid, generation: nat, deleting: bool, model: Name, spec: nat)

  /** What the runtime fingerprint of a Pod is computed from. The artifact
      label and the mount of the Pod come from the same values. */
  datatype Fingerprint = Fingerprint(deployment: Uid, model: Name, spec: nat, artifact: Uid, location: Location)

  datatype Pod = Pod(rv: nat, gated: bool, fingerprint: Fingerprint)

  /** A Pod in the API server, and as the informer last saw it. */
  datatype Slot = Slot(live: Option<Pod>, seen: Option<Pod>)

  /** The removal of one gate, by one deployment's reconcile. */
  datatype Ungating =
    | Resting
    | Listed(pod: Name, copy: Pod)
    | DeploymentSeen(pod: Name, copy: Pod, deployment: Deployment)
    | Allowed(pod: Name, copy: Pod)

  /** The end of one artifact, by its reconcile. */
  datatype Finalizing =
    | Idle
    | Copied(copy: Artifact)
    | NoDeployments(copy: Artifact)
    | NoPods(copy: Artifact)

  /** `owners` records, for every identity ever given out, the name it was
      given out for, `finalized` the artifacts whose finalizer was removed, with their location. */
  datatype History = History(clock: nat, owners: map<Uid, Name>, finalized: set<(Uid, Location)>)

  /** `seen` holds the artifacts as the informer last saw them. */
  datatype State = State(
    h: History,
    artifacts: map<Name, Artifact>,
    seen: map<Name, Artifact>,
    deployments: map<Name, Deployment>,
    slots: map<Name, Slot>,
    ungating: map<Name, Ungating>,
    finalizing: map<Name, Finalizing>)

  function SlotAt(s: State, p: Name): Slot {
    if p in s.slots then s.slots[p] else Slot(None, None)
  }

  function UngatingAt(s: State, d: Name): Ungating {
    if d in s.ungating then s.ungating[d] else Resting
  }

  function FinalizingAt(s: State, n: Name): Finalizing {
    if n in s.finalizing then s.finalizing[n] else Idle
  }

  function ArtifactAt(s: State, n: Name): Option<Artifact> {
    if n in s.artifacts then Some(s.artifacts[n]) else None
  }

  function Tick(h: History): History {
    h.(clock := h.clock + 1)
  }

  // ---- users, the API server and the importer ----------------------------------------------

  datatype ArtifactChange =
    | CreateArtifact
    | SetStatus(ready: bool, location: Option<Location>)
    | DeleteArtifact
    | DropArtifact

  function ChangedArtifact(now: nat, x: Option<Artifact>, c: ArtifactChange): Option<Artifact> {
    if x.None? then if c.CreateArtifact? then Some(Artifact(now, now, false, false, None)) else None
    else
      match c
      case CreateArtifact => x
      case SetStatus(ready, location) => Some(x.value.(rv := now, ready := ready, location := location))
      case DeleteArtifact => Some(x.value.(rv := now, deleting := true))
      case DropArtifact => None
  }

  function PutArtifact(s: State, n: Name, y: Option<Artifact>): State {
    var h := Tick(s.h).(owners := s.h.owners[s.h.clock := n]);
    s.(h := h, artifacts := if y.Some? then s.artifacts[n := y.value] else s.artifacts - {n})
  }

  datatype DeploymentChange =
    | CreateDeployment(model: Name, spec: nat)
    | Retarget(model: Name, spec: nat)
    | DeleteDeployment
    | DropDeployment

  function ChangedDeployment(now: nat, x: Option<Deployment>, c: DeploymentChange): Option<Deployment> {
    if x.None? then if c.CreateDeployment? then Some(Deployment(now, 1, false, c.model, c.spec)) else None
    else
      match c
      case CreateDeployment(_, _) => x
      case Retarget(model, spec) => Some(x.value.(generation := x.value.generation + 1, model := model, spec := spec))
      case DeleteDeployment => Some(x.value.(deleting := true))
      case DropDeployment => None
  }

  function PutDeployment(s: State, d: Name, y: Option<Deployment>): State {
    s.(h := Tick(s.h), deployments := if y.Some? then s.deployments[d := y.value] else s.deployments - {d})
  }

  /** Pods come from a template, always gated; others may touch or remove them. */
  datatype PodChange = CreatePod(fingerprint: Fingerprint) | TouchPod | RemovePod | Observe

  function ChangedPod(now: nat, x: Slot, c: PodChange): Slot {
    match c
    case CreatePod(fingerprint) => if x.live.Some? then x else x.(live := Some(Pod(now, true, fingerprint)))
    case TouchPod => if x.live.None? then x else x.(live := Some(x.live.value.(rv := now)))
    case RemovePod => x.(live := None)
    case Observe => x.(seen := x.live)
  }

  // ---- the deployment controller ------------------------------------------------------------

  datatype DeploymentStep = ListPods(pod: Name) | ReadDeployment(uid: Uid, generation: nat) | ReadArtifact | RemoveGate

  function Current(d: Deployment, a: Artifact, location: Location): Fingerprint {
    Fingerprint(d.uid, d.model, d.spec, a.uid, location)
  }

  /** `currentArtifactAllowsScheduling`, its last part. */
  predicate Allows(artifacts: map<Name, Artifact>, d: Deployment, fingerprint: Fingerprint) {
    && d.model in artifacts
    && var a := artifacts[d.model];
    !a.deleting && a.ready && a.location.Some? && Current(d, a, a.location.value) == fingerprint
  }

  /** What the reconcile of a deployment decides from what it reads. Its own
      copies of the deployment and the artifact may be anything; what counts
      is that the live ones have the identity, the generation and the
      fingerprint it expects. */
  function Proceeds(s: State, d: Name, w: Ungating, step: DeploymentStep): Ungating {
    match step
    case ListPods(pod) =>
      var seen := SlotAt(s, pod).seen;
      if seen.Some? && seen.value.gated then Listed(pod, seen.value) else Resting
    case ReadDeployment(uid, generation) =>
      if !w.Listed? then w
      else if d in s.deployments && s.deployments[d].uid == uid && s.deployments[d].generation == generation
          && !s.deployments[d].deleting
      then DeploymentSeen(w.pod, w.copy, s.deployments[d])
      else Resting
    case ReadArtifact =>
      if !w.DeploymentSeen? then w
      else if Allows(s.artifacts, w.deployment, w.copy.fingerprint) then Allowed(w.pod, w.copy) else Resting
    case RemoveGate => if w.Allowed? then Resting else w
  }

  /** The versioned write that removes the gate. */
  function GateRemoved(s: State, w: Ungating): State {
    if !w.Allowed? then s
    else
      var x := SlotAt(s, w.pod);
      if x.live.Some? && x.live.value.rv == w.copy.rv
      then s.(h := Tick(s.h), slots := s.slots[w.pod :=
          x.(live := Some(x.live.value.(rv := s.h.clock, gated := false)))])
      else s
  }

  function StepDeployment(s: State, d: Name, step: DeploymentStep): State {
    var w := UngatingAt(s, d);
    var t := if step.RemoveGate? then GateRemoved(s, w) else s;
    t.(ungating := t.ungating[d := Proceeds(s, d, w, step)])
  }

  // ---- the artifact controller ---------------------------------------------------------------

  datatype ArtifactStep = StartDelete | ScanDeployments | ScanPods | RemoveFinalizer

  predicate ReferencedBy(s: State, n: Name) {
    exists d :: d in s.deployments && s.deployments[d].model == n
  }

  /** A Pod of the artifact that mounts its location, gated or not. */
  predicate Mounts(p: Pod, copy: Artifact) {
    copy.location.Some? && p.fingerprint.artifact == copy.uid && p.fingerprint.location == copy.location.value
  }

  predicate Mounted(s: State, copy: Artifact) {
    exists p :: p in s.slots && s.slots[p].live.Some? && Mounts(s.slots[p].live.value, copy)
  }

  function Decided(s: State, n: Name, f: Finalizing, step: ArtifactStep): Finalizing {
    match step
    case StartDelete => if n in s.seen && s.seen[n].deleting then Copied(s.seen[n]) else Idle
    case ScanDeployments => if !f.Copied? then f else if ReferencedBy(s, n) then Idle else NoDeployments(f.copy)
    case ScanPods => if !f.NoDeployments? then f else if Mounted(s, f.copy) then Idle else NoPods(f.copy)
    case RemoveFinalizer => if f.NoPods? then Idle else f
  }

  predicate Finalizes(s: State, n: Name, f: Finalizing) {
    f.NoPods? && n in s.artifacts && s.artifacts[n].rv == f.copy.rv
  }

  /** The versioned write that removes the finalizer, and the object with it. */
  function FinalizerRemoved(s: State, n: Name, f: Finalizing): State {
    if !Finalizes(s, n, f) then s
    else
      var a := s.artifacts[n];
      var gone := if a.location.Some? then {(a.uid, a.location.value)} else {};
      s.(h := Tick(s.h).(finalized := s.h.finalized + gone), artifacts := s.artifacts - {n})
  }

  function StepArtifact(s: State, n: Name, step: ArtifactStep): State {
    var f := FinalizingAt(s, n);
    var t := if step.RemoveFinalizer? then FinalizerRemoved(s, n, f) else s;
    t.(finalizing := t.finalizing[n := Decided(s, n, f, step)])
  }

  // ---- runs --------------------------------------------------------------------------------------

  datatype Event =
    | ArtifactChanges(n: Name, artifactChange: ArtifactChange)
    | ObserveArtifact(n: Name)
    | DeploymentChanges(d: Name, deploymentChange: DeploymentChange)
    | PodChanges(p: Name, podChange: PodChange)
    | DeploymentSteps(d: Name, deploymentStep: DeploymentStep)
    | ArtifactSteps(n: Name, artifactStep: ArtifactStep)

  function PutSlot(s: State, p: Name, x: Slot): State {
    s.(h := Tick(s.h), slots := s.slots[p := x])
  }

  function Next(s: State, e: Event): State {
    match e
    case ArtifactChanges(n, c) => PutArtifact(s, n, ChangedArtifact(s.h.clock, ArtifactAt(s, n), c))
    case ObserveArtifact(n) => if n in s.artifacts then s.(seen := s.seen[n := s.artifacts[n]]) else s
    case DeploymentChanges(d, c) => PutDeployment(s, d,
        ChangedDeployment(s.h.clock, if d in s.deployments then Some(s.deployments[d]) else None, c))
    case PodChanges(p, c) => PutSlot(s, p, ChangedPod(s.h.clock, SlotAt(s, p), c))
    case DeploymentSteps(d, step) => StepDeployment(s, d, step)
    case ArtifactSteps(n, step) => StepArtifact(s, n, step)
  }

  function Run(s: State, events: seq<Event>): State
    decreases |events|
  {
    if events == [] then s else Run(Next(s, events[0]), events[1..])
  }

  const START := State(History(0, map[], {}), map[], map[], map[], map[], map[], map[])

  // ---- the invariant -------------------------------------------------------------------------------

  function Home(p: Pod): (Uid, Location) {
    (p.fingerprint.artifact, p.fingerprint.location)
  }

  ghost predicate HistoryOk(h: History) {
    && (forall u :: u in h.owners ==> u < h.clock)
    && (forall f :: f in h.finalized ==> f.0 in h.owners)
  }

  ghost predicate ArtifactOk(h: History, n: Name, a: Artifact) {
    && a.rv < h.clock && a.uid in h.owners && h.owners[a.uid] == n
    && forall f :: f in h.finalized ==> f.0 != a.uid
  }

  ghost predicate SameVersion(h: History, x: Slot, copy: Pod) {
    copy.rv < h.clock && (x.live.Some? && x.live.value.rv == copy.rv ==> x.live.value == copy)
  }

  ghost predicate SlotOk(h: History, x: Slot) {
    && (x.live.Some? ==> x.live.value.rv < h.clock && (!x.live.value.gated ==> Home(x.live.value) !in h.finalized))
    && (x.seen.Some? ==> SameVersion(h, x, x.seen.value))
  }

  /** The gate removal can still go through. */
  predicate Pending(x: Slot, w: Ungating) {
    w.Allowed? && x.live.Some? && x.live.value.rv == w.copy.rv
  }

  ghost predicate UngatingOk(h: History, x: Slot, w: Ungating) {
    && (!w.Resting? ==> SameVersion(h, x, w.copy))
    && (Pending(x, w) ==> Home(w.copy) !in h.finalized)
  }

  /** A copy of the artifact named `n`: with its version it is the object, and
      deletion is for good. */
  ghost predicate CopyOk(h: History, a: Option<Artifact>, n: Name, copy: Artifact) {
    && copy.rv < h.clock && copy.uid in h.owners && h.owners[copy.uid] == n
    && (a.Some? && a.value.rv == copy.rv ==> a.value == copy)
    && (a.Some? && a.value.uid == copy.uid && copy.deleting ==> a.value.deleting)
  }

  ghost predicate FinalizingOk(h: History, a: Option<Artifact>, n: Name, f: Finalizing) {
    !f.Idle? ==> f.copy.deleting && CopyOk(h, a, n, f.copy)
  }

  /** After the scan for Pods: none of them can be or become ungated. */
  ghost predicate SlotExcluded(f: Finalizing, x: Slot) {
    f.NoPods? && x.live.Some? && Mounts(x.live.value, f.copy) ==> x.live.value.gated
  }

  ghost predicate PendingExcluded(f: Finalizing, x: Slot, w: Ungating) {
    f.NoPods? && Pending(x, w) ==> !Mounts(w.copy, f.copy)
  }

  /** The slot of the Pod a gate removal is about. */
  function Target(s: State, w: Ungating): Slot {
    if w.Resting? then Slot(None, None) else SlotAt(s, w.pod)
  }

  ghost predicate ArtifactsOk(s: State) {
    forall n :: n in s.artifacts ==> ArtifactOk(s.h, n, s.artifacts[n])
  }

  ghost predicate SlotsOk(s: State) {
    forall p :: SlotOk(s.h, SlotAt(s, p))
  }

  ghost predicate UngatingsOk(s: State) {
    forall d :: UngatingOk(s.h, Target(s, UngatingAt(s, d)), UngatingAt(s, d))
  }

  ghost predicate FinalizingsOk(s: State) {
    forall n ::
      && FinalizingOk(s.h, ArtifactAt(s, n), n, FinalizingAt(s, n))
      && (n in s.seen ==> CopyOk(s.h, ArtifactAt(s, n), n, s.seen[n]))
  }

  ghost predicate Exclusion(s: State) {
    && (forall n, p :: SlotExcluded(FinalizingAt(s, n), SlotAt(s, p)))
    && (forall n, d :: PendingExcluded(FinalizingAt(s, n), Target(s, UngatingAt(s, d)), UngatingAt(s, d)))
  }

  ghost predicate Inv(s: State) {
    HistoryOk(s.h) && ArtifactsOk(s) && SlotsOk(s) && UngatingsOk(s) && FinalizingsOk(s) && Exclusion(s)
  }

  // ---- users, the API server and the importer ----------------------------------------------

  ghost predicate Grows(h: History, g: History) {
    && h.clock <= g.clock && g.finalized == h.finalized
    && forall u :: u in h.owners ==> u in g.owners && g.owners[u] == h.owners[u]
  }

  /** Pods and reconciles are untouched. */
  lemma FrameKeeps(s: State, t: State)
    requires Inv(s) && Grows(s.h, t.h) && t.slots == s.slots && t.ungating == s.ungating && t.finalizing == s.finalizing
    ensures SlotsOk(t) && UngatingsOk(t) && Exclusion(t)
  {
    forall p ensures SlotOk(t.h, SlotAt(t, p)) { assert SlotOk(s.h, SlotAt(s, p)); }
    forall d ensures UngatingOk(t.h, Target(t, UngatingAt(t, d)), UngatingAt(t, d)) {
      assert UngatingOk(s.h, Target(s, UngatingAt(s, d)), UngatingAt(s, d));
    }
    forall n, p ensures SlotExcluded(FinalizingAt(t, n), SlotAt(t, p)) {
      assert SlotExcluded(FinalizingAt(s, n), SlotAt(s, p));
    }
    forall n, d ensures PendingExcluded(FinalizingAt(t, n), Target(t, UngatingAt(t, d)), UngatingAt(t, d)) {
      assert PendingExcluded(FinalizingAt(s, n), Target(s, UngatingAt(s, d)), UngatingAt(s, d));
    }
  }

  lemma ArtifactGrows(h: History, g: History, n: Name, a: Artifact)
    requires ArtifactOk(h, n, a) && Grows(h, g)
    ensures ArtifactOk(g, n, a)
  {
  }

  lemma CopyGrows(h: History, g: History, a: Option<Artifact>, n: Name, copy: Artifact)
    requires CopyOk(h, a, n, copy) && Grows(h, g)
    ensures CopyOk(g, a, n, copy)
  {
  }

  lemma CopiesGrow(s: State, t: State)
    requires Inv(s) && Grows(s.h, t.h) && t.artifacts == s.artifacts && t.seen == s.seen && t.finalizing == s.finalizing
    ensures ArtifactsOk(t) && FinalizingsOk(t)
  {
    forall n | n in t.artifacts ensures ArtifactOk(t.h, n, t.artifacts[n]) {
      ArtifactGrows(s.h, t.h, n, s.artifacts[n]);
    }
    forall n ensures FinalizingOk(t.h, ArtifactAt(t, n), n, FinalizingAt(t, n))
        && (n in t.seen ==> CopyOk(t.h, ArtifactAt(t, n), n, t.seen[n])) {
      assert FinalizingOk(s.h, ArtifactAt(s, n), n, FinalizingAt(s, n));
      if !FinalizingAt(s, n).Idle? { CopyGrows(s.h, t.h, ArtifactAt(s, n), n, FinalizingAt(s, n).copy); }
      if n in s.seen { CopyGrows(s.h, t.h, ArtifactAt(s, n), n, s.seen[n]); }
    }
  }

  lemma ChangedArtifactOk(h: History, n: Name, x: Option<Artifact>, c: ArtifactChange)
    requires HistoryOk(h) && (x.Some? ==> ArtifactOk(h, n, x.value))
    ensures var g := Tick(h).(owners := h.owners[h.clock := n]);
            var y := ChangedArtifact(h.clock, x, c);
            HistoryOk(g) && Grows(h, g) && (y.Some? ==> ArtifactOk(g, n, y.value))
  {
  }

  lemma ChangedCopyOk(h: History, n: Name, x: Option<Artifact>, c: ArtifactChange, copy: Artifact)
    requires HistoryOk(h) && CopyOk(h, x, n, copy)
    ensures CopyOk(h, ChangedArtifact(h.clock, x, c), n, copy)
  {
  }

  lemma ChangeArtifactCopies(s: State, m: Name, c: ArtifactChange, n: Name, copy: Artifact)
    requires HistoryOk(s.h) && CopyOk(s.h, ArtifactAt(s, n), n, copy)
    ensures var t := PutArtifact(s, m, ChangedArtifact(s.h.clock, ArtifactAt(s, m), c));
            Grows(s.h, t.h) ==> CopyOk(t.h, ArtifactAt(t, n), n, copy)
  {
    var t := PutArtifact(s, m, ChangedArtifact(s.h.clock, ArtifactAt(s, m), c));
    if Grows(s.h, t.h) {
      if n == m { ChangedCopyOk(s.h, n, ArtifactAt(s, n), c, copy); }
      CopyGrows(s.h, t.h, ArtifactAt(t, n), n, copy);
    }
  }

  lemma ChangeArtifactKeeps(s: State, m: Name, c: ArtifactChange)
    requires Inv(s)
    ensures Inv(PutArtifact(s, m, ChangedArtifact(s.h.clock, ArtifactAt(s, m), c)))
  {
    var t := PutArtifact(s, m, ChangedArtifact(s.h.clock, ArtifactAt(s, m), c));
    if m in s.artifacts { assert ArtifactOk(s.h, m, s.artifacts[m]); }
    ChangedArtifactOk(s.h, m, ArtifactAt(s, m), c);
    FrameKeeps(s, t);
    forall n | n in t.artifacts ensures ArtifactOk(t.h, n, t.artifacts[n]) {
      if n != m { ArtifactGrows(s.h, t.h, n, s.artifacts[n]); }
    }
    forall n ensures FinalizingOk(t.h, ArtifactAt(t, n), n, FinalizingAt(t, n))
        && (n in t.seen ==> CopyOk(t.h, ArtifactAt(t, n), n, t.seen[n])) {
      assert FinalizingOk(s.h, ArtifactAt(s, n), n, FinalizingAt(s, n));
      if !FinalizingAt(s, n).Idle? { ChangeArtifactCopies(s, m, c, n, FinalizingAt(s, n).copy); }
      if n in s.seen { ChangeArtifactCopies(s, m, c, n, s.seen[n]); }
    }
  }

  lemma ObserveArtifactKeeps(s: State, m: Name)
    requires Inv(s) && m in s.artifacts
    ensures Inv(s.(seen := s.seen[m := s.artifacts[m]]))
  {
    var t := s.(seen := s.seen[m := s.artifacts[m]]);
    FrameKeeps(s, t);
    forall n | n in t.artifacts ensures ArtifactOk(t.h, n, t.artifacts[n]) {
      assert ArtifactOk(s.h, n, s.artifacts[n]);
    }
    forall n ensures FinalizingOk(t.h, ArtifactAt(t, n), n, FinalizingAt(t, n))
        && (n in t.seen ==> CopyOk(t.h, ArtifactAt(t, n), n, t.seen[n])) {
      assert FinalizingOk(s.h, ArtifactAt(s, n), n, FinalizingAt(s, n)) && ArtifactOk(s.h, m, s.artifacts[m]);
    }
  }

  lemma PutDeploymentKeeps(s: State, d: Name, y: Option<Deployment>)
    requires Inv(s)
    ensures Inv(PutDeployment(s, d, y))
  {
    FrameKeeps(s, PutDeployment(s, d, y));
    CopiesGrow(s, PutDeployment(s, d, y));
  }

  /** One Pod changes; nothing but its slot and the clock. */
  ghost predicate Replaces(h: History, x: Slot, y: Slot) {
    && SlotOk(Tick(h), y)
    && (y.live.Some? && !(x.live.Some? && x.live.value == y.live.value) ==> y.live.value.rv == h.clock)
  }

  lemma PutSlotKeeps(s: State, p: Name, y: Slot)
    requires Inv(s) && Replaces(s.h, SlotAt(s, p), y) && (forall n :: SlotExcluded(FinalizingAt(s, n), y))
    ensures Inv(PutSlot(s, p, y))
  {
    var t := PutSlot(s, p, y);
    CopiesGrow(s, t);
    forall q ensures SlotOk(t.h, SlotAt(t, q)) { assert SlotOk(s.h, SlotAt(s, q)); }
    forall d ensures UngatingOk(t.h, Target(t, UngatingAt(t, d)), UngatingAt(t, d)) {
      assert UngatingOk(s.h, Target(s, UngatingAt(s, d)), UngatingAt(s, d));
    }
    forall n, q ensures SlotExcluded(FinalizingAt(t, n), SlotAt(t, q)) {
      assert SlotExcluded(FinalizingAt(s, n), SlotAt(s, q));
    }
    forall n, d ensures PendingExcluded(FinalizingAt(t, n), Target(t, UngatingAt(t, d)), UngatingAt(t, d)) {
      assert PendingExcluded(FinalizingAt(s, n), Target(s, UngatingAt(s, d)), UngatingAt(s, d));
      assert UngatingOk(s.h, Target(s, UngatingAt(s, d)), UngatingAt(s, d));
    }
  }

  lemma ChangePodKeeps(s: State, p: Name, c: PodChange)
    requires Inv(s)
    ensures Inv(PutSlot(s, p, ChangedPod(s.h.clock, SlotAt(s, p), c)))
  {
    var x := SlotAt(s, p);
    var y := ChangedPod(s.h.clock, x, c);
    assert SlotOk(s.h, x);
    forall n ensures SlotExcluded(FinalizingAt(s, n), y) { assert SlotExcluded(FinalizingAt(s, n), x); }
    PutSlotKeeps(s, p, y);
  }

  // ---- the deployment controller -------------------------------------------------------------

  lemma PutUngatingKeeps(s: State, d: Name, w: Ungating)
    requires Inv(s) && UngatingOk(s.h, Target(s, w), w)
    requires forall n :: PendingExcluded(FinalizingAt(s, n), Target(s, w), w)
    ensures Inv(s.(ungating := s.ungating[d := w]))
  {
    var t := s.(ungating := s.ungating[d := w]);
    CopiesGrow(s, t);
    forall q ensures SlotOk(t.h, SlotAt(t, q)) { assert SlotOk(s.h, SlotAt(s, q)); }
    forall e ensures UngatingOk(t.h, Target(t, UngatingAt(t, e)), UngatingAt(t, e)) {
      assert UngatingOk(s.h, Target(s, UngatingAt(s, e)), UngatingAt(s, e));
    }
    forall n, q ensures SlotExcluded(FinalizingAt(t, n), SlotAt(t, q)) {
      assert SlotExcluded(FinalizingAt(s, n), SlotAt(s, q));
    }
    forall n, e ensures PendingExcluded(FinalizingAt(t, n), Target(t, UngatingAt(t, e)), UngatingAt(t, e)) {
      assert PendingExcluded(FinalizingAt(s, n), Target(s, UngatingAt(s, e)), UngatingAt(s, e));
    }
  }

  /** The live artifact that allows a Pod is neither finalized nor about to be. */
  lemma AllowedIsSafe(s: State, deployment: Deployment, copy: Pod, n: Name)
    requires Inv(s) && Allows(s.artifacts, deployment, copy.fingerprint)
    ensures Home(copy) !in s.h.finalized && (FinalizingAt(s, n).NoPods? ==> !Mounts(copy, FinalizingAt(s, n).copy))
  {
    assert ArtifactOk(s.h, deployment.model, s.artifacts[deployment.model]);
    assert FinalizingOk(s.h, ArtifactAt(s, n), n, FinalizingAt(s, n));
  }

  lemma ProceedKeeps(s: State, d: Name, step: DeploymentStep)
    requires Inv(s)
    ensures Inv(s.(ungating := s.ungating[d := Proceeds(s, d, UngatingAt(s, d), step)]))
  {
    var w := UngatingAt(s, d);
    var v := Proceeds(s, d, w, step);
    assert UngatingOk(s.h, Target(s, w), w);
    if step.ListPods? { assert SlotOk(s.h, SlotAt(s, step.pod)); }
    forall n ensures PendingExcluded(FinalizingAt(s, n), Target(s, v), v)
        && (v.Allowed? ==> Home(v.copy) !in s.h.finalized || v == w) {
      assert PendingExcluded(FinalizingAt(s, n), Target(s, w), w);
      if step.ReadArtifact? && w.DeploymentSeen? && v.Allowed? { AllowedIsSafe(s, w.deployment, w.copy, n); }
    }
    PutUngatingKeeps(s, d, v);
  }

  lemma RemoveGateKeeps(s: State, d: Name)
    requires Inv(s) && Pending(Target(s, UngatingAt(s, d)), UngatingAt(s, d))
    ensures Inv(StepDeployment(s, d, RemoveGate))
  {
    var w := UngatingAt(s, d);
    ProceedKeeps(s, d, RemoveGate);
    var rest := s.(ungating := s.ungating[d := Resting]);
    var x := SlotAt(s, w.pod);
    var y := x.(live := Some(x.live.value.(rv := s.h.clock, gated := false)));
    assert UngatingOk(s.h, x, w) && SlotOk(s.h, x);
    forall n ensures SlotExcluded(FinalizingAt(rest, n), y) { assert PendingExcluded(FinalizingAt(s, n), x, w); }
    PutSlotKeeps(rest, w.pod, y);
  }

  lemma StepDeploymentKeeps(s: State, d: Name, step: DeploymentStep)
    requires Inv(s)
    ensures Inv(StepDeployment(s, d, step))
  {
    if step.RemoveGate? && Pending(Target(s, UngatingAt(s, d)), UngatingAt(s, d)) {
      RemoveGateKeeps(s, d);
    } else {
      ProceedKeeps(s, d, step);
    }
  }

  // ---- the artifact controller ------------------------------------------------------------------

  lemma PutFinalizingKeeps(s: State, m: Name, f: Finalizing)
    requires Inv(s) && FinalizingOk(s.h, ArtifactAt(s, m), m, f)
    requires forall p :: SlotExcluded(f, SlotAt(s, p))
    requires forall d :: PendingExcluded(f, Target(s, UngatingAt(s, d)), UngatingAt(s, d))
    ensures Inv(s.(finalizing := s.finalizing[m := f]))
  {
    var t := s.(finalizing := s.finalizing[m := f]);
    forall n | n in t.artifacts ensures ArtifactOk(t.h, n, t.artifacts[n]) {
      assert ArtifactOk(s.h, n, s.artifacts[n]);
    }
    forall q ensures SlotOk(t.h, SlotAt(t, q)) { assert SlotOk(s.h, SlotAt(s, q)); }
    forall e ensures UngatingOk(t.h, Target(t, UngatingAt(t, e)), UngatingAt(t, e)) {
      assert UngatingOk(s.h, Target(s, UngatingAt(s, e)), UngatingAt(s, e));
    }
    forall n ensures FinalizingOk(t.h, ArtifactAt(t, n), n, FinalizingAt(t, n))
        && (n in t.seen ==> CopyOk(t.h, ArtifactAt(t, n), n, t.seen[n])) {
      assert FinalizingOk(s.h, ArtifactAt(s, n), n, FinalizingAt(s, n));
    }
    forall n, q ensures SlotExcluded(FinalizingAt(t, n), SlotAt(t, q)) {
      assert SlotExcluded(FinalizingAt(s, n), SlotAt(s, q));
    }
    forall n, e ensures PendingExcluded(FinalizingAt(t, n), Target(t, UngatingAt(t, e)), UngatingAt(t, e)) {
      assert PendingExcluded(FinalizingAt(s, n), Target(s, UngatingAt(s, e)), UngatingAt(s, e));
    }
  }

  lemma NotMounted(s: State, p: Name, copy: Artifact)
    requires !Mounted(s, copy) && SlotAt(s, p).live.Some?
    ensures !Mounts(SlotAt(s, p).live.value, copy)
  {
    assert p in s.slots;
  }

  lemma ScanPodsExcludes(s: State, copy: Artifact, p: Name, d: Name)
    requires Inv(s) && !Mounted(s, copy)
    ensures SlotExcluded(NoPods(copy), SlotAt(s, p))
    ensures PendingExcluded(NoPods(copy), Target(s, UngatingAt(s, d)), UngatingAt(s, d))
  {
    if SlotAt(s, p).live.Some? { NotMounted(s, p, copy); }
    var w := UngatingAt(s, d);
    assert UngatingOk(s.h, Target(s, w), w);
    if Pending(Target(s, w), w) { NotMounted(s, w.pod, copy); }
  }

  lemma DecideKeeps(s: State, m: Name, step: ArtifactStep)
    requires Inv(s)
    ensures Inv(s.(finalizing := s.finalizing[m := Decided(s, m, FinalizingAt(s, m), step)]))
  {
    var f := FinalizingAt(s, m);
    var g := Decided(s, m, f, step);
    assert FinalizingOk(s.h, ArtifactAt(s, m), m, f);
    forall p ensures SlotExcluded(g, SlotAt(s, p)) {
      assert SlotExcluded(f, SlotAt(s, p));
      if step.ScanPods? && f.NoDeployments? && !Mounted(s, f.copy) { ScanPodsExcludes(s, f.copy, p, m); }
    }
    forall d ensures PendingExcluded(g, Target(s, UngatingAt(s, d)), UngatingAt(s, d)) {
      assert PendingExcluded(f, Target(s, UngatingAt(s, d)), UngatingAt(s, d));
      if step.ScanPods? && f.NoDeployments? && !Mounted(s, f.copy) { ScanPodsExcludes(s, f.copy, m, d); }
    }
    PutFinalizingKeeps(s, m, g);
  }

  lemma RemoveFinalizerArtifacts(s: State, m: Name, f: Finalizing)
    requires HistoryOk(s.h) && ArtifactsOk(s) && Finalizes(s, m, f) && FinalizingOk(s.h, ArtifactAt(s, m), m, f)
    ensures var t := FinalizerRemoved(s, m, f); HistoryOk(t.h) && ArtifactsOk(t)
  {
    var t := FinalizerRemoved(s, m, f);
    assert ArtifactOk(s.h, m, s.artifacts[m]);
    forall n | n in t.artifacts ensures ArtifactOk(t.h, n, t.artifacts[n]) {
      assert ArtifactOk(s.h, n, s.artifacts[n]);
    }
  }

  lemma RemoveFinalizerPods(s: State, m: Name, f: Finalizing)
    requires Inv(s) && Finalizes(s, m, f) && f == FinalizingAt(s, m)
    ensures var t := FinalizerRemoved(s, m, f); SlotsOk(t) && UngatingsOk(t)
  {
    var t := FinalizerRemoved(s, m, f);
    assert FinalizingOk(s.h, ArtifactAt(s, m), m, f);
    assert s.artifacts[m] == f.copy;
    forall p ensures SlotOk(t.h, SlotAt(t, p)) { assert SlotOk(s.h, SlotAt(s, p)) && SlotExcluded(f, SlotAt(s, p)); }
    forall d ensures UngatingOk(t.h, Target(t, UngatingAt(t, d)), UngatingAt(t, d)) {
      assert UngatingOk(s.h, Target(s, UngatingAt(s, d)), UngatingAt(s, d));
      assert PendingExcluded(f, Target(s, UngatingAt(s, d)), UngatingAt(s, d));
    }
  }

  lemma RemoveFinalizerKeeps(s: State, m: Name)
    requires Inv(s) && Finalizes(s, m, FinalizingAt(s, m))
    ensures Inv(StepArtifact(s, m, RemoveFinalizer))
  {
    var f := FinalizingAt(s, m);
    var t := StepArtifact(s, m, RemoveFinalizer);
    assert FinalizingOk(s.h, ArtifactAt(s, m), m, f);
    RemoveFinalizerArtifacts(s, m, f);
    RemoveFinalizerPods(s, m, f);
    var u := FinalizerRemoved(s, m, f);
    forall p ensures SlotOk(t.h, SlotAt(t, p)) { assert SlotOk(u.h, SlotAt(u, p)); }
    forall d ensures UngatingOk(t.h, Target(t, UngatingAt(t, d)), UngatingAt(t, d)) {
      assert UngatingOk(u.h, Target(u, UngatingAt(u, d)), UngatingAt(u, d));
    }
    forall n ensures FinalizingOk(t.h, ArtifactAt(t, n), n, FinalizingAt(t, n))
        && (n in t.seen ==> CopyOk(t.h, ArtifactAt(t, n), n, t.seen[n])) {
      assert FinalizingOk(s.h, ArtifactAt(s, n), n, FinalizingAt(s, n));
    }
    forall n, q ensures SlotExcluded(FinalizingAt(t, n), SlotAt(t, q)) {
      assert SlotExcluded(FinalizingAt(s, n), SlotAt(s, q));
    }
    forall n, e ensures PendingExcluded(FinalizingAt(t, n), Target(t, UngatingAt(t, e)), UngatingAt(t, e)) {
      assert PendingExcluded(FinalizingAt(s, n), Target(s, UngatingAt(s, e)), UngatingAt(s, e));
    }
  }

  lemma StepArtifactKeeps(s: State, m: Name, step: ArtifactStep)
    requires Inv(s)
    ensures Inv(StepArtifact(s, m, step))
  {
    if step.RemoveFinalizer? && Finalizes(s, m, FinalizingAt(s, m)) {
      RemoveFinalizerKeeps(s, m);
    } else {
      DecideKeeps(s, m, step);
    }
  }

  // ---- whole runs ------------------------------------------------------------------------------------

  lemma NextKeeps(s: State, e: Event)
    requires Inv(s)
    ensures Inv(Next(s, e))
  {
    match e {
      case ArtifactChanges(n, c) => ChangeArtifactKeeps(s, n, c);
      case ObserveArtifact(n) => if n in s.artifacts { ObserveArtifactKeeps(s, n); }
      case DeploymentChanges(d, c) =>
        PutDeploymentKeeps(s, d, ChangedDeployment(s.h.clock, if d in s.deployments then Some(s.deployments[d])
            else None, c));
      case PodChanges(p, c) => ChangePodKeeps(s, p, c);
      case DeploymentSteps(d, step) => StepDeploymentKeeps(s, d, step);
      case ArtifactSteps(n, step) => StepArtifactKeeps(s, n, step);
    }
  }

  lemma {:induction false} RunKeeps(s: State, events: seq<Event>)
    requires Inv(s)
    ensures Inv(Run(s, events))
    decreases |events|
  {
    if events != [] {
      NextKeeps(s, events[0]);
      RunKeeps(Next(s, events[0]), events[1..]);
    }
  }

  ghost predicate Reachable(s: State) {
    exists events :: s == Run(START, events)
  }

  lemma NextFinalized(s: State, e: Event)
    ensures s.h.finalized <= Next(s, e).h.finalized
  {
  }

  lemma {:induction false} FinalizedStays(s: State, events: seq<Event>)
    ensures s.h.finalized <= Run(s, events).h.finalized
    decreases |events|
  {
    if events != [] {
      var next := Next(s, events[0]);
      NextFinalized(s, events[0]);
      FinalizedStays(next, events[1..]);
    }
  }

  /** In every interleaving: once the finalizer of an artifact is gone, no
      ungated Pod of it mounts its location, and none ever will again. */
  lemma FinalizedNotServed(s: State, later: seq<Event>, p: Name, u: Uid, location: Location)
    requires Reachable(s) && (u, location) in s.h.finalized
    ensures var pod := SlotAt(Run(s, later), p).live; pod.Some? && Home(pod.value) == (u, location) ==> pod.value.gated
  {
    var events :| s == Run(START, events);
    RunKeeps(START, events);
    RunKeeps(s, later);
    FinalizedStays(s, later);
    assert SlotOk(Run(s, later).h, SlotAt(Run(s, later), p));
  }

  // ---- both things happen -----------------------------------------------------------------------------

  lemma {:induction false} RunAppend(s: State, events: seq<Event>, e: Event)
    ensures Run(s, events + [e]) == Next(Run(s, events), e)
    decreases |events|
  {
    if events == [] {
      assert events + [e] == [e];
      assert Run(Next(s, e), []) == Next(s, e);
    } else {
      assert (events + [e])[1..] == events[1..] + [e];
      RunAppend(Next(s, events[0]), events[1..], e);
    }
  }

  lemma Reach(s: State, e: Event, t: State)
    requires Reachable(s) && t == Next(s, e)
    ensures Reachable(t)
  {
    var events :| s == Run(START, events);
    RunAppend(START, events, e);
  }

  lemma ArtifactReady(n: Name, location: Location) returns (s: State)
    ensures Reachable(s) && s.artifacts == map[n := Artifact(0, 1, false, true, Some(location))] && s.h.clock == 2
    ensures s.seen == map[] && s.deployments == map[] && s.slots == map[] && s.ungating == map[]
            && s.finalizing == map[]
    ensures s.h.finalized == {}
  {
    assert Run(START, []) == START;
    var s1 := Next(START, ArtifactChanges(n, CreateArtifact));
    Reach(START, ArtifactChanges(n, CreateArtifact), s1);
    s := Next(s1, ArtifactChanges(n, SetStatus(true, Some(location))));
    Reach(s1, ArtifactChanges(n, SetStatus(true, Some(location))), s);
  }

  lemma PodWaits(n: Name, d: Name, p: Name, location: Location, pod: Pod) returns (s: State)
    requires pod == Pod(3, true, Fingerprint(2, n, 0, 0, location))
    ensures Reachable(s) && s.artifacts == map[n := Artifact(0, 1, false, true, Some(location))]
    ensures s.deployments == map[d := Deployment(2, 1, false, n, 0)]
            && s.slots == map[p := Slot(Some(pod), Some(pod))] && s.ungating == map[]
  {
    var s0 := ArtifactReady(n, location);
    var s1 := s0.(h := Tick(s0.h), deployments := map[d := Deployment(2, 1, false, n, 0)]);
    Reach(s0, DeploymentChanges(d, CreateDeployment(n, 0)), s1);
    var s2 := s1.(h := Tick(s1.h), slots := map[p := Slot(Some(pod), None)]);
    Reach(s1, PodChanges(p, CreatePod(pod.fingerprint)), s2);
    s := s2.(h := Tick(s2.h), slots := map[p := Slot(Some(pod), Some(pod))]);
    Reach(s2, PodChanges(p, Observe), s);
  }

  /** A Pod for a ready artifact loses its gate. */
  lemma GateOpens(n: Name, d: Name, p: Name, location: Location) returns (s: State)
    ensures Reachable(s) && p in s.slots && s.slots[p].live.Some? && !s.slots[p].live.value.gated
  {
    var pod := Pod(3, true, Fingerprint(2, n, 0, 0, location));
    var s3 := PodWaits(n, d, p, location, pod);
    var s4 := s3.(ungating := map[d := Listed(p, pod)]);
    Reach(s3, DeploymentSteps(d, ListPods(p)), s4);
    var s5 := s3.(ungating := map[d := DeploymentSeen(p, pod, Deployment(2, 1, false, n, 0))]);
    Reach(s4, DeploymentSteps(d, ReadDeployment(2, 1)), s5);
    var s6 := s3.(ungating := map[d := Allowed(p, pod)]);
    Reach(s5, DeploymentSteps(d, ReadArtifact), s6);
    s := Next(s6, DeploymentSteps(d, RemoveGate));
    Reach(s6, DeploymentSteps(d, RemoveGate), s);
  }

  lemma ArtifactGone(n: Name, location: Location, gone: Artifact) returns (s: State)
    requires gone == Artifact(0, 2, true, true, Some(location))
    ensures Reachable(s) && s.artifacts == map[n := gone] && s.seen == map[n := gone] && s.h.finalized == {}
    ensures s.deployments == map[] && s.slots == map[] && s.finalizing == map[]
  {
    var s0 := ArtifactReady(n, location);
    var s1 := Next(s0, ArtifactChanges(n, DeleteArtifact));
    Reach(s0, ArtifactChanges(n, DeleteArtifact), s1);
    assert s1.artifacts == map[n := gone];
    s := s1.(seen := map[n := gone]);
    Reach(s1, ObserveArtifact(n), s);
  }

  /** An artifact that nobody serves is finalized. */
  lemma FinalizerGoes(n: Name, location: Location) returns (s: State)
    ensures Reachable(s) && s.h.finalized == {(0, location)}
  {
    var gone := Artifact(0, 2, true, true, Some(location));
    var s2 := ArtifactGone(n, location, gone);
    var s3 := s2.(finalizing := map[n := Copied(gone)]);
    Reach(s2, ArtifactSteps(n, StartDelete), s3);
    var s4 := s2.(finalizing := map[n := NoDeployments(gone)]);
    Reach(s3, ArtifactSteps(n, ScanDeployments), s4);
    var s5 := s2.(finalizing := map[n := NoPods(gone)]);
    Reach(s4, ArtifactSteps(n, ScanPods), s5);
    s := Next(s5, ArtifactSteps(n, RemoveFinalizer));
    Reach(s5, ArtifactSteps(n, RemoveFinalizer), s);
  }
}
