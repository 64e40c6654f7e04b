/** What the two writes of the serving protocol rest on, over whole runs.

    A Pod without a gate was let go after its deployment and its artifact were
    looked at and found as the Pod wants them; an artifact without a finalizer
    was, after its deletion began, referenced by no deployment.
 */
module ServingTrace {
  import opened Basics
  import opened ServingGate

  function Past(events: seq<Event>, i: nat): State
    requires i <= |events|
  {
    Run(START, events[..i])
  }

  // ---- the gate -----------------------------------------------------------------------------

  /** At step `i` the reconcile of `d`, expecting this identity and generation,
      found the deployment, live and not terminating. */
  ghost predicate LookedAt(events: seq<Event>, i: nat, d: Name, found: Deployment) {
    && i < |events| && events[i] == DeploymentSteps(d, ReadDeployment(found.uid, found.generation))
    && d in Past(events, i).deployments && Past(events, i).deployments[d] == found && !found.deleting
  }

  /** From `i` to `j` the reconcile of `d` has not started over. */
  predicate SameReconcile(events: seq<Event>, i: nat, j: nat, d: Name) {
    forall k :: i <= k < j && k < |events| ==>
        !(events[k].DeploymentSteps? && events[k].d == d && events[k].deploymentStep.ListPods?)
  }

  ghost predicate Looked(events: seq<Event>, d: Name, found: Deployment) {
    exists i: nat :: LookedAt(events, i, d, found) && SameReconcile(events, i, |events|, d)
  }

  /** The artifact the Pod wants is there, ready, not terminating, and where
      the Pod wants it. */
  predicate ServableIn(s: State, f: Fingerprint) {
    && f.model in s.artifacts
    && var a := s.artifacts[f.model];
    !a.deleting && a.ready && a.uid == f.artifact && a.location == Some(f.location)
  }

  predicate Wants(found: Deployment, f: Fingerprint) {
    found.uid == f.deployment && found.model == f.model && found.spec == f.spec
  }

  /** One reconcile of `d` looked at the deployment at step `i` and then at the
      artifact at step `j`, and found both as the Pod wants them. */
  ghost predicate BackedBy(events: seq<Event>, f: Fingerprint, d: Name, found: Deployment, i: nat, j: nat) {
    && LookedAt(events, i, d, found) && Wants(found, f)
    && i < j < |events| && events[j] == DeploymentSteps(d, ReadArtifact) && SameReconcile(events, i, j, d)
    && ServableIn(Past(events, j), f)
  }

  /** The reconcile of `d` that looked so has not started over since. */
  ghost predicate Backed(events: seq<Event>, d: Name, f: Fingerprint) {
    exists found, i: nat, j: nat :: BackedBy(events, f, d, found, i, j) && SameReconcile(events, i, |events|, d)
  }

  /** At step `k` the Pod lost its gate. */
  ghost predicate GateGoesAt(events: seq<Event>, k: nat, p: Name, f: Fingerprint) {
    && k < |events|
    && var before, after := SlotAt(Past(events, k), p).live, SlotAt(Past(events, k + 1), p).live;
    && before.Some? && before.value.gated && before.value.fingerprint == f
    && after.Some? && !after.value.gated && after.value.fingerprint == f
  }

  /** One reconcile looked at the deployment at step `i`, then at the artifact at
      step `j`, and then removed the gate of the Pod at step `k`. */
  ghost predicate LetGoBy(events: seq<Event>, p: Name, f: Fingerprint, d: Name, found: Deployment, i: nat, j: nat,
    k: nat) {
    && BackedBy(events, f, d, found, i, j) && j < k < |events| && events[k] == DeploymentSteps(d, RemoveGate)
    && SameReconcile(events, i, k, d) && GateGoesAt(events, k, p, f)
  }

  ghost predicate LetGo(events: seq<Event>, p: Name, f: Fingerprint) {
    exists d, found, i: nat, j: nat, k: nat :: LetGoBy(events, p, f, d, found, i, j, k)
  }

  lemma LookedAtStays(events: seq<Event>, e: Event, i: nat, d: Name, found: Deployment)
    requires LookedAt(events, i, d, found)
    ensures LookedAt(events + [e], i, d, found)
  {
    assert (events + [e])[..i] == events[..i];
  }

  lemma LookedStays(events: seq<Event>, e: Event, d: Name, found: Deployment)
    requires Looked(events, d, found) && !(e.DeploymentSteps? && e.d == d && e.deploymentStep.ListPods?)
    ensures Looked(events + [e], d, found)
  {
    var i: nat :| LookedAt(events, i, d, found) && SameReconcile(events, i, |events|, d);
    LookedAtStays(events, e, i, d, found);
    assert SameReconcile(events + [e], i, |events| + 1, d);
  }

  lemma BackedByStays(events: seq<Event>, e: Event, f: Fingerprint, d: Name, found: Deployment, i: nat, j: nat)
    requires BackedBy(events, f, d, found, i, j)
    ensures BackedBy(events + [e], f, d, found, i, j)
  {
    LookedAtStays(events, e, i, d, found);
    assert (events + [e])[..j] == events[..j];
    assert SameReconcile(events + [e], i, j, d);
  }

  lemma BackedStays(events: seq<Event>, e: Event, d: Name, f: Fingerprint)
    requires Backed(events, d, f) && !(e.DeploymentSteps? && e.d == d && e.deploymentStep.ListPods?)
    ensures Backed(events + [e], d, f)
  {
    var found, i: nat, j: nat :| BackedBy(events, f, d, found, i, j) && SameReconcile(events, i, |events|, d);
    BackedByStays(events, e, f, d, found, i, j);
    assert SameReconcile(events + [e], i, |events| + 1, d);
  }

  lemma LetGoStays(events: seq<Event>, e: Event, p: Name, f: Fingerprint)
    requires LetGo(events, p, f)
    ensures LetGo(events + [e], p, f)
  {
    var d, found, i: nat, j: nat, k: nat :| LetGoBy(events, p, f, d, found, i, j, k);
    BackedByStays(events, e, f, d, found, i, j);
    assert (events + [e])[..k] == events[..k] && (events + [e])[..k+1] == events[..k+1];
    assert SameReconcile(events + [e], i, k, d);
    assert LetGoBy(events + [e], p, f, d, found, i, j, k);
  }

  ghost predicate UngatingBacked(events: seq<Event>, d: Name, w: Ungating) {
    && (w.DeploymentSeen? ==> Looked(events, d, w.deployment))
    && (w.Allowed? ==> Backed(events, d, w.copy.fingerprint))
  }

  ghost predicate SlotBacked(events: seq<Event>, p: Name, x: Slot) {
    x.live.Some? && !x.live.value.gated ==> LetGo(events, p, x.live.value.fingerprint)
  }

  ghost predicate GatesBacked(events: seq<Event>, s: State) {
    && (forall d :: UngatingBacked(events, d, UngatingAt(s, d)))
    && forall p :: SlotBacked(events, p, SlotAt(s, p))
  }

  lemma UngatingStays(events: seq<Event>, e: Event, d: Name, w: Ungating)
    requires UngatingBacked(events, d, w) && !(e.DeploymentSteps? && e.d == d && e.deploymentStep.ListPods?)
    ensures UngatingBacked(events + [e], d, w)
  {
    if w.DeploymentSeen? { LookedStays(events, e, d, w.deployment); }
    if w.Allowed? { BackedStays(events, e, d, w.copy.fingerprint); }
  }

  lemma SlotStays(events: seq<Event>, e: Event, p: Name, x: Slot)
    requires SlotBacked(events, p, x)
    ensures SlotBacked(events + [e], p, x)
  {
    if x.live.Some? && !x.live.value.gated { LetGoStays(events, e, p, x.live.value.fingerprint); }
  }

  /** A look at the deployment or the artifact backs what follows from it. */
  lemma LookBacks(events: seq<Event>, s: State, d: Name, step: DeploymentStep)
    requires s == Run(START, events) && UngatingBacked(events, d, UngatingAt(s, d))
    ensures UngatingBacked(events + [DeploymentSteps(d, step)], d, Proceeds(s, d, UngatingAt(s, d), step))
  {
    var e := DeploymentSteps(d, step);
    var more := events + [e];
    var w, v := UngatingAt(s, d), Proceeds(s, d, UngatingAt(s, d), step);
    assert more[..|events|] == events;
    if step.ReadDeployment? && w.Listed? && v.DeploymentSeen? {
      assert LookedAt(more, |events|, d, v.deployment);
      assert SameReconcile(more, |events|, |more|, d);
    } else if step.ReadArtifact? && w.DeploymentSeen? && v.Allowed? {
      ArtifactBacks(events, s, d, w);
    } else if v == w && !step.ListPods? {
      UngatingStays(events, e, d, w);
    }
  }

  lemma ArtifactBacks(events: seq<Event>, s: State, d: Name, w: Ungating)
    requires s == Run(START, events) && w.DeploymentSeen? && Looked(events, d, w.deployment)
    requires Allows(s.artifacts, w.deployment, w.copy.fingerprint)
    ensures Backed(events + [DeploymentSteps(d, ReadArtifact)], d, w.copy.fingerprint)
  {
    var e := DeploymentSteps(d, ReadArtifact);
    var more := events + [e];
    assert more[..|events|] == events;
    var i: nat :| LookedAt(events, i, d, w.deployment) && SameReconcile(events, i, |events|, d);
    LookedAtStays(events, e, i, d, w.deployment);
    assert SameReconcile(more, i, |events|, d);
    assert BackedBy(more, w.copy.fingerprint, d, w.deployment, i, |events|);
    assert SameReconcile(more, i, |more|, d);
  }

  /** What the removal of a gate does to a slot. */
  lemma RemovalSlot(s: State, d: Name, p: Name)
    requires UngatingsOk(s)
    ensures var w, x, y := UngatingAt(s, d), SlotAt(s, p), SlotAt(GateRemoved(s, UngatingAt(s, d)), p);
            || y == x
            || (w.Allowed? && w.pod == p && x.live == Some(w.copy)
                && y.live == Some(w.copy.(rv := s.h.clock, gated := false)))
  {
    var w := UngatingAt(s, d);
    assert UngatingOk(s.h, Target(s, w), w);
  }

  lemma NextSlot(s: State, d: Name, p: Name)
    ensures SlotAt(Next(s, DeploymentSteps(d, RemoveGate)), p) == SlotAt(GateRemoved(s, UngatingAt(s, d)), p)
  {
  }

  /** The gate goes only from the Pod that was looked at. */
  lemma RemovalBacked(events: seq<Event>, s: State, d: Name, p: Name)
    requires s == Run(START, events) && UngatingsOk(s)
    requires UngatingBacked(events, d, UngatingAt(s, d)) && SlotBacked(events, p, SlotAt(s, p))
    ensures SlotBacked(events + [DeploymentSteps(d, RemoveGate)], p, SlotAt(GateRemoved(s, UngatingAt(s, d)), p))
  {
    var w := UngatingAt(s, d);
    RemovalSlot(s, d, p);
    SlotStays(events, DeploymentSteps(d, RemoveGate), p, SlotAt(s, p));
    if w.Allowed? && w.pod == p && SlotAt(s, p).live == Some(w.copy) && w.copy.gated {
      GateRemovalBacked(events, s, d, p, w.copy);
    }
  }

  lemma GateGoes(events: seq<Event>, s: State, d: Name, p: Name, copy: Pod)
    requires s == Run(START, events) && SlotAt(s, p).live == Some(copy) && copy.gated
            && UngatingAt(s, d) == Allowed(p, copy)
    ensures GateGoesAt(events + [DeploymentSteps(d, RemoveGate)], |events|, p, copy.fingerprint)
  {
    var e := DeploymentSteps(d, RemoveGate);
    var more, k := events + [e], |events|;
    assert more[..k] == events && more[..k+1] == more;
    RunAppend(START, events, e);
    NextSlot(s, d, p);
  }

  lemma GateRemovalBacked(events: seq<Event>, s: State, d: Name, p: Name, copy: Pod)
    requires s == Run(START, events) && SlotAt(s, p).live == Some(copy) && copy.gated
            && UngatingAt(s, d) == Allowed(p, copy)
    requires Backed(events, d, copy.fingerprint)
    ensures LetGo(events + [DeploymentSteps(d, RemoveGate)], p, copy.fingerprint)
  {
    var e, f := DeploymentSteps(d, RemoveGate), copy.fingerprint;
    var found, i: nat, j: nat :| BackedBy(events, f, d, found, i, j) && SameReconcile(events, i, |events|, d);
    BackedByStays(events, e, f, d, found, i, j);
    GateGoes(events, s, d, p, copy);
    assert SameReconcile(events + [e], i, |events|, d);
    assert LetGoBy(events + [e], p, f, d, found, i, j, |events|);
  }

  lemma UngatingsStep(events: seq<Event>, s: State, e: Event, d: Name)
    requires s == Run(START, events) && UngatingBacked(events, d, UngatingAt(s, d))
    ensures UngatingBacked(events + [e], d, UngatingAt(Next(s, e), d))
  {
    if e.DeploymentSteps? && e.d == d { LookBacks(events, s, d, e.deploymentStep); }
    else { UngatingStays(events, e, d, UngatingAt(s, d)); }
  }

  /** Nothing but the removal of a gate leaves a Pod without one. */
  lemma OtherSlot(s: State, e: Event, p: Name)
    requires !(e.DeploymentSteps? && e.deploymentStep.RemoveGate?)
    ensures var x, y := SlotAt(s, p).live, SlotAt(Next(s, e), p).live;
            y.Some? && !y.value.gated ==> x.Some? && !x.value.gated && x.value.fingerprint == y.value.fingerprint
  {
  }

  lemma SlotsStep(events: seq<Event>, s: State, e: Event, p: Name)
    requires s == Run(START, events) && UngatingsOk(s) && SlotBacked(events, p, SlotAt(s, p))
    requires e.DeploymentSteps? ==> UngatingBacked(events, e.d, UngatingAt(s, e.d))
    ensures SlotBacked(events + [e], p, SlotAt(Next(s, e), p))
  {
    if e.DeploymentSteps? && e.deploymentStep.RemoveGate? {
      RemovalBacked(events, s, e.d, p);
      NextSlot(s, e.d, p);
    } else {
      SlotStays(events, e, p, SlotAt(s, p));
      OtherSlot(s, e, p);
    }
  }

  lemma GatesStep(events: seq<Event>, s: State, e: Event)
    requires s == Run(START, events) && Inv(s) && GatesBacked(events, s)
    ensures GatesBacked(events + [e], Next(s, e))
  {
    forall d ensures UngatingBacked(events + [e], d, UngatingAt(Next(s, e), d)) {
      assert UngatingBacked(events, d, UngatingAt(s, d));
      UngatingsStep(events, s, e, d);
    }
    forall p ensures SlotBacked(events + [e], p, SlotAt(Next(s, e), p)) { SlotsStep(events, s, e, p); }
  }

  lemma {:induction false} GatesAlways(events: seq<Event>)
    ensures Inv(Run(START, events)) && GatesBacked(events, Run(START, events))
    decreases |events|
  {
    RunKeeps(START, events);
    if events != [] {
      var before, e := events[..|events|-1], events[|events|-1];
      assert events == before + [e];
      GatesAlways(before);
      RunAppend(START, before, e);
      GatesStep(before, Run(START, before), e);
    }
  }

  /** In every run a Pod without a gate was let go by one reconcile, which found
      its deployment live as the Pod wants it, after that its artifact, ready
      and in place, and after that removed this gate. */
  lemma UngatedWasLetGo(events: seq<Event>, p: Name)
    ensures var x := SlotAt(Run(START, events), p);
            x.live.Some? && !x.live.value.gated ==> LetGo(events, p, x.live.value.fingerprint)
  {
    GatesAlways(events);
    assert SlotBacked(events, p, SlotAt(Run(START, events), p));
  }

  // ---- the finalizer --------------------------------------------------------------------------

  predicate DeletingIn(s: State, n: Name, u: Uid) {
    n in s.artifacts && s.artifacts[n].uid == u && s.artifacts[n].deleting
  }

  ghost predicate DeletingAt(events: seq<Event>, i: nat, n: Name, u: Uid) {
    i <= |events| && DeletingIn(Past(events, i), n, u)
  }

  /** No deployment names the artifact, terminating or not. */
  predicate UnnamedIn(s: State, n: Name) {
    forall d :: d in s.deployments ==> s.deployments[d].model != n
  }

  /** No Pod of the artifact mounts the location, gated or not. */
  predicate UnmountedIn(s: State, u: Uid, location: Option<Location>) {
    forall p :: p in s.slots && s.slots[p].live.Some? ==>
      s.slots[p].live.value.fingerprint.artifact != u || location != Some(s.slots[p].live.value.fingerprint.location)
  }

  /** After its deletion began there was a moment at which no deployment named
      the artifact. */
  ghost predicate ReleasedAt(events: seq<Event>, i: nat, j: nat, n: Name, u: Uid) {
    i <= j <= |events| && DeletingAt(events, i, n, u) && UnnamedIn(Past(events, j), n)
  }

  /** And after that one at which no Pod mounted it. */
  ghost predicate ClearedAt(events: seq<Event>, i: nat, j: nat, k: nat, n: Name, u: Uid, location: Option<Location>) {
    ReleasedAt(events, i, j, n, u) && j <= k <= |events| && UnmountedIn(Past(events, k), u, location)
  }

  ghost predicate Begun(events: seq<Event>, n: Name, u: Uid) {
    exists i: nat :: DeletingAt(events, i, n, u)
  }

  ghost predicate Released(events: seq<Event>, n: Name, u: Uid) {
    exists i: nat, j: nat :: ReleasedAt(events, i, j, n, u)
  }

  ghost predicate Cleared(events: seq<Event>, n: Name, u: Uid, location: Option<Location>) {
    exists i: nat, j: nat, k: nat :: ClearedAt(events, i, j, k, n, u, location)
  }

  lemma BegunStays(events: seq<Event>, e: Event, n: Name, u: Uid)
    requires Begun(events, n, u)
    ensures Begun(events + [e], n, u)
  {
    var i: nat :| DeletingAt(events, i, n, u);
    assert (events + [e])[..i] == events[..i];
    assert DeletingAt(events + [e], i, n, u);
  }

  lemma ReleasedStays(events: seq<Event>, e: Event, n: Name, u: Uid)
    requires Released(events, n, u)
    ensures Released(events + [e], n, u)
  {
    var i: nat, j: nat :| ReleasedAt(events, i, j, n, u);
    assert (events + [e])[..i] == events[..i] && (events + [e])[..j] == events[..j];
    assert ReleasedAt(events + [e], i, j, n, u);
  }

  lemma ClearedStays(events: seq<Event>, e: Event, n: Name, u: Uid, location: Option<Location>)
    requires Cleared(events, n, u, location)
    ensures Cleared(events + [e], n, u, location)
  {
    var i: nat, j: nat, k: nat :| ClearedAt(events, i, j, k, n, u, location);
    assert (events + [e])[..i] == events[..i] && (events + [e])[..j] == events[..j];
    assert (events + [e])[..k] == events[..k];
    assert ClearedAt(events + [e], i, j, k, n, u, location);
  }

  ghost predicate FinalizingBacked(events: seq<Event>, n: Name, f: Finalizing) {
    && (f.Copied? ==> Begun(events, n, f.copy.uid))
    && (f.NoDeployments? ==> Released(events, n, f.copy.uid))
    && (f.NoPods? ==> Cleared(events, n, f.copy.uid, f.copy.location))
  }

  ghost predicate SeenBacked(events: seq<Event>, s: State, n: Name) {
    n in s.seen && s.seen[n].deleting ==> Begun(events, n, s.seen[n].uid)
  }

  ghost predicate FinalizedBacked(events: seq<Event>, u: Uid, location: Location) {
    exists n :: Cleared(events, n, u, Some(location))
  }

  ghost predicate EndsBacked(events: seq<Event>, s: State) {
    && (forall n :: FinalizingBacked(events, n, FinalizingAt(s, n)) && SeenBacked(events, s, n))
    && forall f :: f in s.h.finalized ==> FinalizedBacked(events, f.0, f.1)
  }

  lemma FinalizingStays(events: seq<Event>, e: Event, n: Name, f: Finalizing)
    requires FinalizingBacked(events, n, f)
    ensures FinalizingBacked(events + [e], n, f)
  {
    if f.Copied? { BegunStays(events, e, n, f.copy.uid); }
    if f.NoDeployments? { ReleasedStays(events, e, n, f.copy.uid); }
    if f.NoPods? { ClearedStays(events, e, n, f.copy.uid, f.copy.location); }
  }

  /** What a scan decides is backed by the state it saw. */
  lemma ScanBacks(events: seq<Event>, s: State, n: Name, step: ArtifactStep)
    requires s == Run(START, events) && FinalizingBacked(events, n, FinalizingAt(s, n)) && SeenBacked(events, s, n)
    ensures FinalizingBacked(events + [ArtifactSteps(n, step)], n, Decided(s, n, FinalizingAt(s, n), step))
  {
    var e := ArtifactSteps(n, step);
    var f, g := FinalizingAt(s, n), Decided(s, n, FinalizingAt(s, n), step);
    if step.ScanDeployments? && f.Copied? && g.NoDeployments? {
      var i: nat :| DeletingAt(events, i, n, f.copy.uid);
      assert events[..|events|] == events;
      assert ReleasedAt(events, i, |events|, n, f.copy.uid);
    } else if step.ScanPods? && f.NoDeployments? && g.NoPods? {
      var i: nat, j: nat :| ReleasedAt(events, i, j, n, f.copy.uid);
      assert events[..|events|] == events;
      assert ClearedAt(events, i, j, |events|, n, f.copy.uid, f.copy.location);
    }
    if !g.Idle? { FinalizingStays(events, e, n, g); }
  }

  lemma ObservedBacks(events: seq<Event>, s: State, e: Event, n: Name)
    requires s == Run(START, events) && SeenBacked(events, s, n)
    ensures SeenBacked(events + [e], Next(s, e), n)
  {
    var t := Next(s, e);
    if n in t.seen && t.seen[n].deleting {
      if e == ObserveArtifact(n) && n in s.artifacts {
        assert events[..|events|] == events;
        assert DeletingAt(events, |events|, n, t.seen[n].uid);
      }
      BegunStays(events, e, n, t.seen[n].uid);
    }
  }

  lemma FinalizationBacked(events: seq<Event>, s: State, e: Event, f: (Uid, Location))
    requires Inv(s) && EndsBacked(events, s) && f in Next(s, e).h.finalized
    ensures FinalizedBacked(events, f.0, f.1)
  {
    if f !in s.h.finalized {
      var n := e.n;
      assert FinalizingOk(s.h, ArtifactAt(s, n), n, FinalizingAt(s, n));
      assert FinalizingBacked(events, n, FinalizingAt(s, n));
      assert Cleared(events, n, f.0, Some(f.1));
    }
  }

  lemma EndsStep(events: seq<Event>, s: State, e: Event)
    requires s == Run(START, events) && Inv(s) && EndsBacked(events, s)
    ensures EndsBacked(events + [e], Next(s, e))
  {
    var t := Next(s, e);
    forall n ensures FinalizingBacked(events + [e], n, FinalizingAt(t, n)) && SeenBacked(events + [e], t, n) {
      assert FinalizingBacked(events, n, FinalizingAt(s, n)) && SeenBacked(events, s, n);
      ObservedBacks(events, s, e, n);
      if e.ArtifactSteps? && e.n == n { ScanBacks(events, s, n, e.artifactStep); }
      else { FinalizingStays(events, e, n, FinalizingAt(s, n)); }
    }
    forall f | f in t.h.finalized ensures FinalizedBacked(events + [e], f.0, f.1) {
      FinalizationBacked(events, s, e, f);
      var n :| Cleared(events, n, f.0, Some(f.1));
      ClearedStays(events, e, n, f.0, Some(f.1));
    }
  }

  lemma {:induction false} EndsAlways(events: seq<Event>)
    ensures Inv(Run(START, events)) && EndsBacked(events, Run(START, events))
    decreases |events|
  {
    RunKeeps(START, events);
    if events != [] {
      var before, e := events[..|events|-1], events[|events|-1];
      assert events == before + [e];
      EndsAlways(before);
      RunAppend(START, before, e);
      EndsStep(before, Run(START, before), e);
    }
  }

  /** In every run an artifact that lost its finalizer was in deletion, after
      that began there was a moment at which no deployment named it, terminating
      or not, and after that one at which no Pod mounted its location. */
  lemma FinalizedWasReleased(events: seq<Event>, u: Uid, location: Location)
    requires (u, location) in Run(START, events).h.finalized
    ensures exists n :: Cleared(events, n, u, Some(location))
  {
    EndsAlways(events);
    assert FinalizedBacked(events, (u, location).0, (u, location).1);
  }

  // ---- undisturbed ------------------------------------------------------------------------------

  /** A reconcile of the artifact from its start to its write, one step right after the other. */
  function Finalized(s: State, n: Name): State {
    var s1 := Next(s, ArtifactSteps(n, StartDelete));
    var s2 := Next(s1, ArtifactSteps(n, ScanDeployments));
    var s3 := Next(s2, ArtifactSteps(n, ScanPods));
    Next(s3, ArtifactSteps(n, RemoveFinalizer))
  }

  lemma FinalizingStep(s: State, n: Name, step: ArtifactStep)
    requires !step.RemoveFinalizer?
    ensures var t := Next(s, ArtifactSteps(n, step));
            t == s.(finalizing := s.finalizing[n := Decided(s, n, FinalizingAt(s, n), step)])
            && FinalizingAt(t, n) == Decided(s, n, FinalizingAt(s, n), step)
  {
  }

  /** Undisturbed, on a current copy: the finalizer goes exactly when the
      artifact is terminating, no deployment names it and no Pod mounts it. */
  lemma FinalizesExactly(s: State, n: Name)
    requires n in s.artifacts && n in s.seen && s.seen[n] == s.artifacts[n]
    ensures var a, t := s.artifacts[n], Finalized(s, n);
            && t.deployments == s.deployments && t.slots == s.slots
            && if a.deleting && UnnamedIn(s, n) && UnmountedIn(s, a.uid, a.location)
               then t.artifacts == s.artifacts - {n}
                    && (a.location.Some? ==> (a.uid, a.location.value) in t.h.finalized)
               else t.artifacts == s.artifacts && t.h.finalized == s.h.finalized
  {
    FinalizingStep(s, n, StartDelete);
    var s1 := Next(s, ArtifactSteps(n, StartDelete));
    FinalizingStep(s1, n, ScanDeployments);
    var s2 := Next(s1, ArtifactSteps(n, ScanDeployments));
    FinalizingStep(s2, n, ScanPods);
    assert UnnamedIn(s, n) <==> !ReferencedBy(s1, n);
    assert UnmountedIn(s, s.artifacts[n].uid, s.artifacts[n].location) <==> !Mounted(s2, s.artifacts[n]);
  }

  /** A reconcile of the deployment, expecting this identity and generation. */
  function Ungated(s: State, d: Name, p: Name, uid: Uid, generation: nat): State {
    var s1 := Next(s, DeploymentSteps(d, ListPods(p)));
    var s2 := Next(s1, DeploymentSteps(d, ReadDeployment(uid, generation)));
    var s3 := Next(s2, DeploymentSteps(d, ReadArtifact));
    Next(s3, DeploymentSteps(d, RemoveGate))
  }

  lemma UngatingStep(s: State, d: Name, step: DeploymentStep)
    requires !step.RemoveGate?
    ensures var t := Next(s, DeploymentSteps(d, step));
            t == s.(ungating := s.ungating[d := Proceeds(s, d, UngatingAt(s, d), step)])
            && UngatingAt(t, d) == Proceeds(s, d, UngatingAt(s, d), step)
  {
  }

  /** Undisturbed, on a current copy of a Pod: the gate goes exactly when the
      deployment is the expected one, not terminating and as the Pod wants it,
      and the artifact is servable as the Pod wants it; a Pod without a gate is
      left alone. */
  lemma UngatesExactly(s: State, d: Name, p: Name, pod: Pod, uid: Uid, generation: nat)
    requires SlotAt(s, p) == Slot(Some(pod), Some(pod))
    ensures var t := Ungated(s, d, p, uid, generation);
            && (!pod.gated ==> SlotAt(t, p) == SlotAt(s, p))
            && t.deployments == s.deployments && t.artifacts == s.artifacts
            && (forall q :: q != p ==> SlotAt(t, q) == SlotAt(s, q))
            && SlotAt(t, p).live.Some? && SlotAt(t, p).live.value.fingerprint == pod.fingerprint
            && (pod.gated ==>
                  (!SlotAt(t, p).live.value.gated <==>
                     && d in s.deployments && s.deployments[d].uid == uid && s.deployments[d].generation == generation
                     && !s.deployments[d].deleting && Wants(s.deployments[d], pod.fingerprint)
                     && ServableIn(s, pod.fingerprint)))
  {
    UngatingStep(s, d, ListPods(p));
    var s1 := Next(s, DeploymentSteps(d, ListPods(p)));
    UngatingStep(s1, d, ReadDeployment(uid, generation));
    var s2 := Next(s1, DeploymentSteps(d, ReadDeployment(uid, generation)));
    UngatingStep(s2, d, ReadArtifact);
  }
}
