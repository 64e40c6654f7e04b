/** What a committed location and a deleted claim rest on.

    Over whole runs: a location was committed by one reconcile, which read the
    cache, then its claim, or the source claim of a Direct import, and found
    them as the location says. Undisturbed, a reconcile commits, or deletes,
    exactly when what it reads allows it.
 */
module ClaimTrace {
  import opened Basics
  import opened ClaimGuard

  function Past(managed: Naming, events: seq<Event>, i: nat): State
    requires i <= |events|
  {
    Run(managed, START, events[..i])
  }

  /** A claim with that identity, in use by nobody who deletes it. */
  predicate Open(s: State, loc: Location) {
    && loc.claim in s.claims
    && var c := s.claims[loc.claim]; c.uid == loc.uid && !c.deleting && c.guard.None?
  }

  /** The import leaves the files where they are. */
  predicate InPlace(spec: Spec) {
    spec.sourceClaim.Some? && spec.direct
  }

  // ---- what a location rests on --------------------------------------------------------------

  /** From `i` to `j` the reconcile of `a` has not started over. */
  predicate SameReconcile(events: seq<Event>, i: nat, j: nat, a: Name) {
    forall k :: i <= k < j && k < |events| ==> events[k] != ArtifactSteps(a, StartArtifact)
  }

  /** At step `i` the cache was read, ready and not terminating, on this claim. */
  ghost predicate CacheReadAt(managed: Naming, events: seq<Event>, i: nat, a: Name, spec: Spec, claim: Name) {
    && i < |events| && events[i] == ArtifactSteps(a, ReadCache) && spec.cacheRef.Some?
    && var caches := Past(managed, events, i).caches;
    && spec.cacheRef.value in caches
    && var c := caches[spec.cacheRef.value]; !c.deleting && c.ready && c.statusClaim == Some(claim)
  }

  /** And after that, at step `j`, the claim. */
  ghost predicate CacheClaimReadAt(
    managed: Naming, events: seq<Event>, i: nat, j: nat, a: Name, spec: Spec, loc: Location) {
    && CacheReadAt(managed, events, i, a, spec, loc.claim) && i < j < |events|
    && events[j] == ArtifactSteps(a, ReadCacheClaim) && Open(Past(managed, events, j), loc)
  }

  ghost predicate SourceReadAt(managed: Naming, events: seq<Event>, j: nat, a: Name, spec: Spec, loc: Location) {
    && j < |events| && events[j] == ArtifactSteps(a, ReadSource)
    && spec.sourceClaim == Some(loc.claim) && Open(Past(managed, events, j), loc)
  }

  ghost predicate CacheRead(managed: Naming, events: seq<Event>, a: Name, spec: Spec, claim: Name) {
    exists i: nat :: CacheReadAt(managed, events, i, a, spec, claim) && SameReconcile(events, i, |events|, a)
  }

  ghost predicate CacheClaimRead(managed: Naming, events: seq<Event>, a: Name, spec: Spec, loc: Location) {
    exists i: nat, j: nat ::
      CacheClaimReadAt(managed, events, i, j, a, spec, loc) && SameReconcile(events, i, |events|, a)
  }

  ghost predicate SourceRead(managed: Naming, events: seq<Event>, a: Name, spec: Spec, loc: Location) {
    exists j: nat :: SourceReadAt(managed, events, j, a, spec, loc) && SameReconcile(events, j, |events|, a)
  }

  /** The source claim was read too, or the copy was validated where it is. */
  ghost predicate SourceSettled(managed: Naming, events: seq<Event>, a: Name, copy: Artifact, loc: Location) {
    copy.spec.sourceClaim.Some? ==>
      || (copy.validated && copy.location == Some(loc))
      || exists u :: SourceRead(managed, events, a, copy.spec, Location(copy.spec.sourceClaim.value, u))
  }

  /** The location is the claim of the source for an import in place, and the
      claim of the cache for every other import. */
  ghost predicate Resolved(managed: Naming, events: seq<Event>, a: Name, copy: Artifact, loc: Location) {
    if InPlace(copy.spec) then SourceRead(managed, events, a, copy.spec, loc)
    else CacheClaimRead(managed, events, a, copy.spec, loc) && SourceSettled(managed, events, a, copy, loc)
  }

  /** At step `c` the location was written into the artifact that was resolved. */
  ghost predicate CommittedAt(managed: Naming, events: seq<Event>, c: nat, a: Name, loc: Location) {
    && c < |events| && events[c] == ArtifactSteps(a, Commit)
    && var before, after := ArtAt(Past(managed, events, c), a).live, ArtAt(Past(managed, events, c + 1), a).live;
    && before.Some? && after.Some? && after.value.location == Some(loc) && after.value.spec == before.value.spec
    && Resolved(managed, events[..c], a, before.value, loc)
  }

  ghost predicate CommittedOnce(managed: Naming, events: seq<Event>, a: Name, loc: Location) {
    exists c: nat :: CommittedAt(managed, events, c, a, loc)
  }

  // ---- evidence stays ----------------------------------------------------------------------------

  predicate StartsOver(e: Event, a: Name) {
    e == ArtifactSteps(a, StartArtifact)
  }

  lemma CacheReadStays(managed: Naming, events: seq<Event>, e: Event, i: nat, a: Name, spec: Spec, claim: Name)
    requires CacheReadAt(managed, events, i, a, spec, claim)
    ensures CacheReadAt(managed, events + [e], i, a, spec, claim)
  {
    assert (events + [e])[..i] == events[..i];
  }

  lemma CacheClaimReadStays(managed: Naming, events: seq<Event>, e: Event, a: Name, spec: Spec, loc: Location)
    requires CacheClaimRead(managed, events, a, spec, loc) && !StartsOver(e, a)
    ensures CacheClaimRead(managed, events + [e], a, spec, loc)
  {
    var i: nat, j: nat :|
      CacheClaimReadAt(managed, events, i, j, a, spec, loc) && SameReconcile(events, i, |events|, a);
    CacheReadStays(managed, events, e, i, a, spec, loc.claim);
    assert (events + [e])[..j] == events[..j];
    assert SameReconcile(events + [e], i, |events| + 1, a);
    assert CacheClaimReadAt(managed, events + [e], i, j, a, spec, loc);
  }

  lemma SourceReadStays(managed: Naming, events: seq<Event>, e: Event, a: Name, spec: Spec, loc: Location)
    requires SourceRead(managed, events, a, spec, loc) && !StartsOver(e, a)
    ensures SourceRead(managed, events + [e], a, spec, loc)
  {
    var j: nat :| SourceReadAt(managed, events, j, a, spec, loc) && SameReconcile(events, j, |events|, a);
    assert (events + [e])[..j] == events[..j];
    assert SourceReadAt(managed, events + [e], j, a, spec, loc) && SameReconcile(events + [e], j, |events| + 1, a);
  }

  lemma ResolvedStays(managed: Naming, events: seq<Event>, e: Event, a: Name, copy: Artifact, loc: Location)
    requires Resolved(managed, events, a, copy, loc) && !StartsOver(e, a)
    ensures Resolved(managed, events + [e], a, copy, loc)
  {
    if InPlace(copy.spec) {
      SourceReadStays(managed, events, e, a, copy.spec, loc);
    } else {
      CacheClaimReadStays(managed, events, e, a, copy.spec, loc);
      if copy.spec.sourceClaim.Some? && !(copy.validated && copy.location == Some(loc)) {
        var u :| SourceRead(managed, events, a, copy.spec, Location(copy.spec.sourceClaim.value, u));
        SourceReadStays(managed, events, e, a, copy.spec, Location(copy.spec.sourceClaim.value, u));
      }
    }
  }

  lemma CommittedStays(managed: Naming, events: seq<Event>, e: Event, a: Name, loc: Location)
    requires CommittedOnce(managed, events, a, loc)
    ensures CommittedOnce(managed, events + [e], a, loc)
  {
    var c: nat :| CommittedAt(managed, events, c, a, loc);
    assert (events + [e])[..c] == events[..c] && (events + [e])[..c+1] == events[..c+1];
    assert CommittedAt(managed, events + [e], c, a, loc);
  }

  // ---- one step ------------------------------------------------------------------------------------

  ghost predicate WorkBacked(managed: Naming, events: seq<Event>, a: Name, w: Resolving) {
    match w
    case ViaCache(copy, claim) => CacheRead(managed, events, a, copy.spec, claim)
    case AtSource(copy, found) =>
      found.Some? ==> CacheClaimRead(managed, events, a, copy.spec, found.value)
    case Located(copy, loc) => Resolved(managed, events, a, copy, loc)
    case _ => true
  }

  ghost predicate LocationBacked(managed: Naming, events: seq<Event>, a: Name, x: Art) {
    x.live.Some? && x.live.value.location.Some? ==> CommittedOnce(managed, events, a, x.live.value.location.value)
  }

  lemma WorkStays(managed: Naming, events: seq<Event>, e: Event, a: Name, w: Resolving)
    requires WorkBacked(managed, events, a, w) && !StartsOver(e, a)
    ensures WorkBacked(managed, events + [e], a, w)
  {
    match w {
      case ViaCache(copy, claim) =>
        var i: nat :| CacheReadAt(managed, events, i, a, copy.spec, claim) && SameReconcile(events, i, |events|, a);
        CacheReadStays(managed, events, e, i, a, copy.spec, claim);
        assert SameReconcile(events + [e], i, |events| + 1, a);
      case AtSource(copy, found) =>
        if found.Some? { CacheClaimReadStays(managed, events, e, a, copy.spec, found.value); }
      case Located(copy, loc) => ResolvedStays(managed, events, e, a, copy, loc);
      case _ =>
    }
  }

  lemma ReadCacheBacks(managed: Naming, events: seq<Event>, s: State, a: Name, x: Art)
    requires s == Run(managed, START, events) && x == ArtAt(s, a) && x.work.Read?
    ensures WorkBacked(managed, events + [ArtifactSteps(a, ReadCache)], a, Stepped(s, x, ReadCache).work)
  {
    var more := events + [ArtifactSteps(a, ReadCache)];
    assert more[..|events|] == events;
    var w := Stepped(s, x, ReadCache).work;
    if w.ViaCache? {
      assert CacheReadAt(managed, more, |events|, a, w.copy.spec, w.claim);
      assert SameReconcile(more, |events|, |more|, a);
    }
  }

  lemma ReadClaimBacks(managed: Naming, events: seq<Event>, s: State, a: Name, x: Art)
    requires s == Run(managed, START, events) && x == ArtAt(s, a) && x.work.ViaCache?
    requires WorkBacked(managed, events, a, x.work)
    ensures WorkBacked(managed, events + [ArtifactSteps(a, ReadCacheClaim)], a, Stepped(s, x, ReadCacheClaim).work)
  {
    var e := ArtifactSteps(a, ReadCacheClaim);
    var more := events + [e];
    assert more[..|events|] == events;
    var w, v := x.work, Stepped(s, x, ReadCacheClaim).work;
    if v.AtSource? && v.found.Some? {
      var i: nat :| CacheReadAt(managed, events, i, a, w.copy.spec, w.claim) && SameReconcile(events, i, |events|, a);
      CacheReadStays(managed, events, e, i, a, w.copy.spec, w.claim);
      assert CacheClaimReadAt(managed, more, i, |events|, a, v.copy.spec, v.found.value);
      assert SameReconcile(more, i, |more|, a);
    }
  }

  lemma SourceReadNow(managed: Naming, events: seq<Event>, s: State, a: Name, spec: Spec, loc: Location)
    requires s == Run(managed, START, events) && spec.sourceClaim == Some(loc.claim) && Open(s, loc)
    ensures SourceRead(managed, events + [ArtifactSteps(a, ReadSource)], a, spec, loc)
  {
    var more := events + [ArtifactSteps(a, ReadSource)];
    assert more[..|events|] == events;
    assert SourceReadAt(managed, more, |events|, a, spec, loc) && SameReconcile(more, |events|, |more|, a);
  }

  lemma ReadSourceBacks(managed: Naming, events: seq<Event>, s: State, a: Name, x: Art)
    requires s == Run(managed, START, events) && x == ArtAt(s, a) && x.work.AtSource?
    requires WorkBacked(managed, events, a, x.work)
    ensures WorkBacked(managed, events + [ArtifactSteps(a, ReadSource)], a, Stepped(s, x, ReadSource).work)
  {
    var w, v := x.work, Stepped(s, x, ReadSource).work;
    var n := w.copy.spec.sourceClaim;
    if n.Some? && Usable(s.claims, n.value) {
      SourceReadNow(managed, events, s, a, w.copy.spec, Location(n.value, s.claims[n.value].uid));
    }
    if v.Located? && w.found.Some? {
      CacheClaimReadStays(managed, events, ArtifactSteps(a, ReadSource), a, w.copy.spec, w.found.value);
    }
  }

  lemma StepBacks(managed: Naming, events: seq<Event>, s: State, a: Name, step: ArtifactStep)
    requires s == Run(managed, START, events) && WorkBacked(managed, events, a, ArtAt(s, a).work)
    ensures WorkBacked(managed, events + [ArtifactSteps(a, step)], a, Stepped(s, ArtAt(s, a), step).work)
  {
    var x := ArtAt(s, a);
    if step.ReadCache? && x.work.Read? {
      ReadCacheBacks(managed, events, s, a, x);
    } else if step.ReadCacheClaim? && x.work.ViaCache? {
      ReadClaimBacks(managed, events, s, a, x);
    } else if step.ReadSource? && x.work.AtSource? {
      ReadSourceBacks(managed, events, s, a, x);
    } else if !step.StartArtifact? {
      WorkStays(managed, events, ArtifactSteps(a, step), a, x.work);
    }
  }

  /** A commit writes what the reconcile has resolved, into the very artifact. */
  lemma CommitBacks(managed: Naming, events: seq<Event>, s: State, a: Name)
    requires s == Run(managed, START, events) && ArtifactOk(s.h, ArtAt(s, a))
    requires WorkBacked(managed, events, a, ArtAt(s, a).work) && ArtAt(s, a).work.Located?
    ensures var e, y := ArtifactSteps(a, Commit), Stepped(s, ArtAt(s, a), Commit);
            y.live == ArtAt(s, a).live || LocationBacked(managed, events + [e], a, y)
  {
    var e, x, y := ArtifactSteps(a, Commit), ArtAt(s, a), Stepped(s, ArtAt(s, a), Commit);
    if y.live != x.live {
      var more := events + [e];
      assert more[..|events|] == events && more[..|events|+1] == more;
      RunAppend(managed, START, events, e);
      assert ArtAt(Next(managed, s, e), a) == y;
      assert CommittedAt(managed, more, |events|, a, y.live.value.location.value);
    }
  }

  /** Nothing but a commit writes a location. */
  lemma OtherLocation(managed: Naming, s: State, e: Event, a: Name)
    requires e != ArtifactSteps(a, Commit)
    ensures var x, y := ArtAt(s, a).live, ArtAt(Next(managed, s, e), a).live;
            y.Some? && y.value.location.Some? ==> x.Some? && x.value.location == y.value.location
  {
  }

  lemma LocationStep(managed: Naming, events: seq<Event>, s: State, e: Event, a: Name)
    requires s == Run(managed, START, events) && ArtifactOk(s.h, ArtAt(s, a))
    requires WorkBacked(managed, events, a, ArtAt(s, a).work) && LocationBacked(managed, events, a, ArtAt(s, a))
    ensures LocationBacked(managed, events + [e], a, ArtAt(Next(managed, s, e), a))
  {
    var x, y := ArtAt(s, a), ArtAt(Next(managed, s, e), a);
    if e == ArtifactSteps(a, Commit) {
      assert y == Stepped(s, x, Commit);
      if x.work.Located? { CommitBacks(managed, events, s, a); }
    } else {
      OtherLocation(managed, s, e, a);
    }
    if x.live.Some? && x.live.value.location.Some? {
      CommittedStays(managed, events, e, a, x.live.value.location.value);
    }
  }

  lemma WorkStep(managed: Naming, events: seq<Event>, s: State, e: Event, a: Name)
    requires s == Run(managed, START, events) && WorkBacked(managed, events, a, ArtAt(s, a).work)
    ensures WorkBacked(managed, events + [e], a, ArtAt(Next(managed, s, e), a).work)
  {
    if e.ArtifactSteps? && e.a == a {
      StepBacks(managed, events, s, a, e.artifactStep);
    } else {
      WorkStays(managed, events, e, a, ArtAt(s, a).work);
    }
  }

  lemma {:induction false} AlwaysBacked(managed: Naming, events: seq<Event>, a: Name)
    requires Injective(managed)
    ensures WorkBacked(managed, events, a, ArtAt(Run(managed, START, events), a).work)
    ensures LocationBacked(managed, events, a, ArtAt(Run(managed, START, events), a))
    decreases |events|
  {
    if events != [] {
      var before, e := events[..|events|-1], events[|events|-1];
      assert events == before + [e];
      AlwaysBacked(managed, before, a);
      RunAppend(managed, START, before, e);
      ReachableArtifactOk(managed, Run(managed, START, before), a);
      WorkStep(managed, before, Run(managed, START, before), e, a);
      LocationStep(managed, before, Run(managed, START, before), e, a);
    }
  }

  /** In every run: the location of an artifact was committed by a reconcile
      that had found it there. For an import in place that is the source claim,
      open when it was read; for every other import the claim of the cache,
      which was ready when it was read, open when it was read after that. */
  lemma LocationWasResolved(managed: Naming, events: seq<Event>, a: Name)
    requires Injective(managed)
    ensures var x := ArtAt(Run(managed, START, events), a).live;
            x.Some? && x.value.location.Some? ==> CommittedOnce(managed, events, a, x.value.location.value)
  {
    AlwaysBacked(managed, events, a);
  }

  // ---- undisturbed -----------------------------------------------------------------------------------

  function OpenAt(s: State, n: Name): Option<Location> {
    if n in s.claims && !s.claims[n].deleting && s.claims[n].guard.None? then Some(Location(n, s.claims[n].uid))
    else None
  }

  function ServedAt(s: State, k: Name): Option<Location> {
    if k in s.caches && !s.caches[k].deleting && s.caches[k].ready && s.caches[k].statusClaim.Some?
    then OpenAt(s, s.caches[k].statusClaim.value) else None
  }

  /** What storage resolution comes to: a cache that is named must serve; the
      source of a copy must be open unless the copy is validated where it is. */
  predicate ResolvesTo(s: State, x: Artifact, loc: Location) {
    var cache := if x.spec.cacheRef.Some? then ServedAt(s, x.spec.cacheRef.value) else None;
    var source := if x.spec.sourceClaim.Some? then OpenAt(s, x.spec.sourceClaim.value) else None;
    && (x.spec.cacheRef.Some? ==> cache.Some?)
    && (if InPlace(x.spec) then source == Some(loc)
        else cache == Some(loc) && (x.spec.sourceClaim.Some? ==>
                                      source.Some? || (x.validated && x.location == Some(loc))))
  }

  /** A reconcile of `a` from its start to its write, one step right after the other. */
  function Reconciled(managed: Naming, s: State, a: Name): State {
    var s1 := Next(managed, s, ArtifactSteps(a, StartArtifact));
    var s2 := Next(managed, s1, ArtifactSteps(a, ReadCache));
    var s3 := Next(managed, s2, ArtifactSteps(a, ReadCacheClaim));
    var s4 := Next(managed, s3, ArtifactSteps(a, ReadSource));
    Next(managed, s4, ArtifactSteps(a, Commit))
  }

  lemma Stepping(managed: Naming, s: State, a: Name, step: ArtifactStep, x: Art, t: State)
    requires t == Next(managed, s, ArtifactSteps(a, step)) && x == ArtAt(s, a)
    ensures ArtAt(t, a) == Stepped(s, x, step) && t.claims == s.claims && t.caches == s.caches
    ensures forall b :: b != a ==> ArtAt(t, b) == ArtAt(s, b)
  {
  }

  /** The reads, taken together. */
  lemma ReadsResolve(s: State, x: Art)
    requires x.seen.Some?
    ensures var x1 := Stepped(s, x, StartArtifact);
            var x2 := Stepped(s, x1, ReadCache);
            var x3 := Stepped(s, x2, ReadCacheClaim);
            var x4 := Stepped(s, x3, ReadSource);
            && x4.live == x.live && x4.seen == x.seen
            && (x4.work.Resting? || (x4.work.Located? && x4.work.copy == x.seen.value))
            && forall loc :: x4.work == Located(x.seen.value, loc) <==> ResolvesTo(s, x.seen.value, loc)
  {
  }

  lemma CommitDecides(s: State, y: Art, x: Artifact, loc: Location)
    requires y.live == Some(x) && (y.work.Resting? || (y.work.Located? && y.work.copy == x))
    requires y.work == Located(x, loc) <==> ResolvesTo(s, x, loc)
    requires y.work.Located? ==> ResolvesTo(s, x, y.work.loc)
    ensures forall t: State :: var z := Stepped(t, y, Commit);
              z.live.Some? && z.live.value.spec == x.spec && (z.live.value.location == Some(loc) <==>
                x.location == Some(loc) || (x.location.None? && ResolvesTo(s, x, loc)))
  {
  }

  /** Undisturbed, on a current copy: the location that is there stays, and
      where there is none the one storage resolves to is committed, if any. */
  lemma CommitsExactly(managed: Naming, s: State, a: Name, x: Artifact, loc: Location)
    requires ArtAt(s, a).live == ArtAt(s, a).seen == Some(x)
    ensures var t := Reconciled(managed, s, a);
            && t.claims == s.claims && t.caches == s.caches && (forall b :: b != a ==> ArtAt(t, b) == ArtAt(s, b))
            && ArtAt(t, a).live.Some? && ArtAt(t, a).live.value.spec == x.spec
            && (ArtAt(t, a).live.value.location == Some(loc) <==>
                  x.location == Some(loc) || (x.location.None? && ResolvesTo(s, x, loc)))
  {
    var x0 := ArtAt(s, a);
    var s1 := Next(managed, s, ArtifactSteps(a, StartArtifact));
    Stepping(managed, s, a, StartArtifact, x0, s1);
    var s2 := Next(managed, s1, ArtifactSteps(a, ReadCache));
    Stepping(managed, s1, a, ReadCache, ArtAt(s1, a), s2);
    var s3 := Next(managed, s2, ArtifactSteps(a, ReadCacheClaim));
    Stepping(managed, s2, a, ReadCacheClaim, ArtAt(s2, a), s3);
    var s4 := Next(managed, s3, ArtifactSteps(a, ReadSource));
    Stepping(managed, s3, a, ReadSource, ArtAt(s3, a), s4);
    var s5 := Next(managed, s4, ArtifactSteps(a, Commit));
    Stepping(managed, s4, a, Commit, ArtAt(s4, a), s5);
    ReadsResolve(s, x0);
    CommitDecides(s, ArtAt(s4, a), x, loc);
  }

  lemma Reconciles(managed: Naming, s: State, a: Name)
    requires Reachable(managed, s)
    ensures Reachable(managed, Reconciled(managed, s, a))
  {
    var s1 := Next(managed, s, ArtifactSteps(a, StartArtifact));
    Reach(managed, s, ArtifactSteps(a, StartArtifact), s1);
    var s2 := Next(managed, s1, ArtifactSteps(a, ReadCache));
    Reach(managed, s1, ArtifactSteps(a, ReadCache), s2);
    var s3 := Next(managed, s2, ArtifactSteps(a, ReadCacheClaim));
    Reach(managed, s2, ArtifactSteps(a, ReadCacheClaim), s3);
    var s4 := Next(managed, s3, ArtifactSteps(a, ReadSource));
    Reach(managed, s3, ArtifactSteps(a, ReadSource), s4);
    Reach(managed, s4, ArtifactSteps(a, Commit), Reconciled(managed, s, a));
  }

  /** A managed cache "k" that is ready, and the claim "s" of a source. */
  lemma StorageReady(managed: Naming) returns (s: State)
    requires managed("k", 0) != "s"
    ensures Reachable(managed, s) && s.arts == map[] && s.h.clock == 5
    ensures s.claims == map[managed("k", 0) := Claim(2, 2, false, None), "s" := Claim(4, 4, false, None)]
    ensures s.caches == map["k" := Cache(0, false, Managed, true, true, true, Some(managed("k", 0)))]
  {
    assert Run(managed, START, []) == START;
    var s1 := Next(managed, START, CacheChanges("k", CreateCache(Managed, true)));
    Reach(managed, START, CacheChanges("k", CreateCache(Managed, true)), s1);
    var s2 := Next(managed, s1, CacheChanges("k", AddFinalizer));
    Reach(managed, s1, CacheChanges("k", AddFinalizer), s2);
    var s3 := Next(managed, s2, ClaimChanges(managed("k", 0), CreateClaim));
    Reach(managed, s2, ClaimChanges(managed("k", 0), CreateClaim), s3);
    var s4 := Next(managed, s3, CacheChanges("k", SetStatus(true)));
    Reach(managed, s3, CacheChanges("k", SetStatus(true)), s4);
    s := Next(managed, s4, ClaimChanges("s", CreateClaim));
    Reach(managed, s4, ClaimChanges("s", CreateClaim), s);
  }

  /** A copy gets a location in the cache, an import in place one at its source. */
  lemma CommitHappens(managed: Naming, direct: bool) returns (s: State)
    requires managed("k", 0) != "s"
    ensures Reachable(managed, s) && ArtAt(s, "a").live.Some?
    ensures var spec := Spec(Some("k"), Some("s"), direct);
            ArtAt(s, "a").live.value.spec == spec
    ensures ArtAt(s, "a").live.value.location ==
              Some(if direct then Location("s", 4) else Location(managed("k", 0), 2))
  {
    var spec := Spec(Some("k"), Some("s"), direct);
    var s0 := StorageReady(managed);
    var s1 := Next(managed, s0, ArtifactChanges("a", CreateArtifact(spec)));
    Reach(managed, s0, ArtifactChanges("a", CreateArtifact(spec)), s1);
    var s2 := Next(managed, s1, ArtifactChanges("a", Observe));
    Reach(managed, s1, ArtifactChanges("a", Observe), s2);
    s := Reconciled(managed, s2, "a");
    Reconciles(managed, s2, "a");
    CommitsExactly(managed, s2, "a", Artifact(5, spec, None, false),
                   if direct then Location("s", 4) else Location(managed("k", 0), 2));
  }

  // ---- the deletion, undisturbed -----------------------------------------------------------------------

  /** Two reconciles of a cache, the first to guard its claim and the second to delete it. */
  function Removed(managed: Naming, s: State, k: Name, uid: Uid): State {
    Deleted(managed, Protected(managed, s, k, uid), k, uid)
  }

  function Protected(managed: Naming, s: State, k: Name, uid: Uid): State {
    var s1 := Next(managed, s, CacheSteps(k, StartDelete(uid)));
    var s2 := Next(managed, s1, CacheSteps(k, ReadClaim));
    Next(managed, s2, CacheSteps(k, AddGuard))
  }

  function Deleted(managed: Naming, s: State, k: Name, uid: Uid): State {
    var s1 := Next(managed, s, CacheSteps(k, StartDelete(uid)));
    var s2 := Next(managed, s1, CacheSteps(k, ReadClaim));
    var s3 := Next(managed, s2, CacheSteps(k, ScanCaches));
    var s4 := Next(managed, s3, CacheSteps(k, ScanArtifacts));
    var s5 := Next(managed, s4, CacheSteps(k, Confirm));
    Next(managed, s5, CacheSteps(k, DeleteClaim))
  }

  /** Nobody uses the cache or its claim. */
  ghost predicate Unused(s: State, k: Name, n: Name) {
    && (forall l :: l in s.caches && l != k ==> s.caches[l].storage != Adopted(n))
    && forall a :: ArtAt(s, a).live.Some? ==>
         var x := ArtAt(s, a).live.value;
         && x.spec.cacheRef != Some(k) && x.spec.sourceClaim != Some(n)
         && (x.location.Some? ==> x.location.value.claim != n)
  }

  lemma ScansUnused(s: State, k: Name, n: Name)
    ensures Unused(s, k, n) <==> !Referenced(s, k) && !AdoptedElsewhere(s, k, n) && !ClaimReferenced(s, k, n)
  {
    if !Unused(s, k, n) && !AdoptedElsewhere(s, k, n) {
      var a :| ArtAt(s, a).live.Some? &&
               var x := ArtAt(s, a).live.value;
               x.spec.cacheRef == Some(k) || x.spec.sourceClaim == Some(n)
               || (x.location.Some? && x.location.value.claim == n);
      assert Names(s.arts[a].live.value, k, n);
    }
    if Unused(s, k, n) {
      forall a | a in s.arts && s.arts[a].live.Some? ensures !Names(s.arts[a].live.value, k, n) {
        assert ArtAt(s, a).live.Some?;
      }
    }
  }

  /** The claim can be guarded for this cache, or is already. */
  predicate Guardable(s: State, n: Name, uid: Uid) {
    n in s.claims && !s.claims[n].deleting && (s.claims[n].guard == None || s.claims[n].guard == Some(uid))
  }

  ghost predicate SameObjects(s: State, t: State) {
    t.caches == s.caches && t.arts == s.arts && t.h.doomed == s.h.doomed
  }

  predicate Doomed(s: State, k: Name, uid: Uid) {
    (k, uid) in s.h.doomed
  }

  /** The reconcile stands at `d`, and nothing else has changed. */
  lemma Deciding(managed: Naming, s: State, k: Name, step: CacheStep)
    requires !step.AddGuard? && !step.DeleteClaim? && !step.RemoveFinalizer?
    ensures var t := Next(managed, s, CacheSteps(k, step));
            t == s.(removing := s.removing[k := Decided(managed, s, k, DeletingAt(s, k), step)])
            && DeletingAt(t, k) == Decided(managed, s, k, DeletingAt(s, k), step)
  {
  }

  lemma ProtectsExactly(managed: Naming, s: State, k: Name, uid: Uid)
    ensures var t, n := Protected(managed, s, k, uid), managed(k, uid);
            var go := Doomed(s, k, uid) && Guardable(s, n, uid) && !Referenced(s, k);
            && SameObjects(s, t) && t.h.deleted == s.h.deleted
            && (if go then n in t.claims && t.claims == s.claims[n := t.claims[n]] && t.claims[n].uid == s.claims[n].uid
                           && !t.claims[n].deleting && t.claims[n].guard == Some(uid)
                else t.claims == s.claims)
  {
    Deciding(managed, s, k, StartDelete(uid));
    var s1 := Next(managed, s, CacheSteps(k, StartDelete(uid)));
    Deciding(managed, s1, k, ReadClaim);
  }

  /** The claim carries the guard of this cache. */
  predicate GuardedFor(s: State, n: Name, uid: Uid) {
    n in s.claims && !s.claims[n].deleting && s.claims[n].guard == Some(uid)
  }

  /** What the reads of the second reconcile come to. */
  lemma ConfirmsExactly(managed: Naming, s: State, k: Name, uid: Uid)
    ensures var n := managed(k, uid);
            var s1 := Next(managed, s, CacheSteps(k, StartDelete(uid)));
            var s2 := Next(managed, s1, CacheSteps(k, ReadClaim));
            var s3 := Next(managed, s2, CacheSteps(k, ScanCaches));
            var s4 := Next(managed, s3, CacheSteps(k, ScanArtifacts));
            var s5 := Next(managed, s4, CacheSteps(k, Confirm));
            var d := DeletingAt(s5, k);
            && s5 == s.(removing := s5.removing)
            && (if Doomed(s, k, uid) && GuardedFor(s, n, uid) && Unused(s, k, n)
                then d == Confirmed(uid, s.claims[n].uid, s.claims[n].rv) else !d.Confirmed?)
  {
    ScansUnused(s, k, managed(k, uid));
    Deciding(managed, s, k, StartDelete(uid));
    var s1 := Next(managed, s, CacheSteps(k, StartDelete(uid)));
    Deciding(managed, s1, k, ReadClaim);
    var s2 := Next(managed, s1, CacheSteps(k, ReadClaim));
    Deciding(managed, s2, k, ScanCaches);
    var s3 := Next(managed, s2, CacheSteps(k, ScanCaches));
    Deciding(managed, s3, k, ScanArtifacts);
    var s4 := Next(managed, s3, CacheSteps(k, ScanArtifacts));
    Deciding(managed, s4, k, Confirm);
  }

  lemma DeletesConfirmed(managed: Naming, s: State, k: Name, uid: Uid, u: Uid)
    requires var d, n := DeletingAt(s, k), managed(k, uid);
             d.Confirmed? ==>
               d.uid == uid && d.claim == u && n in s.claims && s.claims[n].uid == u && s.claims[n].rv == d.rv
    ensures var t, n := Next(managed, s, CacheSteps(k, DeleteClaim)), managed(k, uid);
            && SameObjects(s, t)
            && (if DeletingAt(s, k).Confirmed?
                then t.h.deleted == s.h.deleted + {u} && n in t.claims
                     && t.claims == s.claims[n := t.claims[n]] && t.claims[n].uid == u && t.claims[n].deleting
                else t.h.deleted == s.h.deleted && t.claims == s.claims)
  {
  }

  lemma DeletesGuarded(managed: Naming, s: State, k: Name, uid: Uid)
    ensures var t, n := Deleted(managed, s, k, uid), managed(k, uid);
            && SameObjects(s, t)
            && (if Doomed(s, k, uid) && GuardedFor(s, n, uid) && Unused(s, k, n)
                then t.h.deleted == s.h.deleted + {s.claims[n].uid} && n in t.claims
                     && t.claims == s.claims[n := t.claims[n]] && t.claims[n].uid == s.claims[n].uid
                     && t.claims[n].deleting
                else t.h.deleted == s.h.deleted && t.claims == s.claims)
  {
    ConfirmsExactly(managed, s, k, uid);
    var s1 := Next(managed, s, CacheSteps(k, StartDelete(uid)));
    var s2 := Next(managed, s1, CacheSteps(k, ReadClaim));
    var s3 := Next(managed, s2, CacheSteps(k, ScanCaches));
    var s4 := Next(managed, s3, CacheSteps(k, ScanArtifacts));
    var s5 := Next(managed, s4, CacheSteps(k, Confirm));
    DeletesConfirmed(managed, s5, k, uid,
                     if managed(k, uid) in s.claims then s.claims[managed(k, uid)].uid else 0);
  }

  /** Undisturbed, two reconciles delete the claim exactly when the cache was
      doomed, the claim is not terminating and guarded for no other cache, and
      nobody uses the cache or the claim; and they delete no other claim. */
  lemma DeletesExactly(managed: Naming, s: State, k: Name, uid: Uid)
    ensures var t, n := Removed(managed, s, k, uid), managed(k, uid);
            var go := Doomed(s, k, uid) && Guardable(s, n, uid) && Unused(s, k, n);
            && t.h.deleted == s.h.deleted + (if go then {s.claims[n].uid} else {}) && t.claims.Keys == s.claims.Keys
            && forall m :: m in s.claims ==>
                 && t.claims[m].uid == s.claims[m].uid
                 && (t.claims[m].deleting <==> s.claims[m].deleting || (m == n && go))
  {
    var n, t := managed(k, uid), Protected(managed, s, k, uid);
    ProtectsExactly(managed, s, k, uid);
    DeletesGuarded(managed, t, k, uid);
    ScansUnused(s, k, n);
    ScansUnused(t, k, n);
  }

  // ---- the end of a cache -----------------------------------------------------------------------------

  /** A reconcile of a terminating cache that removes its finalizer. */
  function Ended(managed: Naming, s: State, k: Name, uid: Uid): State {
    var s1 := Next(managed, s, CacheSteps(k, StartDelete(uid)));
    var s2 := Next(managed, s1, CacheSteps(k, ReadClaim));
    Next(managed, s2, CacheSteps(k, RemoveFinalizer))
  }

  /** Undisturbed: the cache goes exactly when it is terminating, no artifact
      names it and, under the Delete policy, its claim is gone. */
  lemma EndsExactly(managed: Naming, s: State, k: Name, uid: Uid)
    ensures var t := Ended(managed, s, k, uid);
            && t.claims == s.claims && t.arts == s.arts && t.h == s.h
            && (if && k in s.caches && s.caches[k].uid == uid && (s.caches[k].deleting || Doomed(s, k, uid))
                   && NobodyNames(s, k)
                   && (Doomed(s, k, uid) ==> managed(k, uid) !in s.claims)
                then t.caches == s.caches - {k} else t.caches == s.caches)
  {
    Deciding(managed, s, k, StartDelete(uid));
    var s1 := Next(managed, s, CacheSteps(k, StartDelete(uid)));
    Deciding(managed, s1, k, ReadClaim);
    if !Referenced(s, k) {
      forall a | ArtAt(s, a).live.Some? ensures ArtAt(s, a).live.value.spec.cacheRef != Some(k) { assert a in s.arts; }
    } else {
      var a :| a in s.arts && s.arts[a].live.Some? && s.arts[a].live.value.spec.cacheRef == Some(k);
      assert ArtAt(s, a).live.Some?;
    }
  }

  /** From `i` to `j` the deletion of `k` has not started over. */
  predicate SameDeletion(events: seq<Event>, i: nat, j: nat, k: Name) {
    forall m :: i < m < j && m < |events| ==> !(events[m].CacheSteps? && events[m].k == k
                                              && events[m].cacheStep.StartDelete?)
  }

  ghost predicate NobodyNames(s: State, k: Name) {
    forall a :: ArtAt(s, a).live.Some? ==> ArtAt(s, a).live.value.spec.cacheRef != Some(k)
  }

  /** At step `i` no artifact named the cache. */
  ghost predicate UnnamedAt(managed: Naming, events: seq<Event>, i: nat, k: Name, uid: Uid) {
    && i < |events| && events[i] == CacheSteps(k, StartDelete(uid))
    && NobodyNames(Past(managed, events, i), k)
  }

  /** And at step `j` a cache under the Delete policy had no claim. */
  ghost predicate SettledAt(managed: Naming, events: seq<Event>, i: nat, j: nat, k: Name, uid: Uid) {
    && UnnamedAt(managed, events, i, k, uid) && i < j < |events| && events[j] == CacheSteps(k, ReadClaim)
    && var s := Past(managed, events, j); Doomed(s, k, uid) ==> managed(k, uid) !in s.claims
  }

  ghost predicate Unnamed(managed: Naming, events: seq<Event>, k: Name, uid: Uid) {
    exists i: nat :: UnnamedAt(managed, events, i, k, uid) && SameDeletion(events, i, |events|, k)
  }

  ghost predicate SettledSince(managed: Naming, events: seq<Event>, k: Name, uid: Uid) {
    exists i: nat, j: nat :: SettledAt(managed, events, i, j, k, uid) && SameDeletion(events, i, |events|, k)
  }

  ghost predicate DeletionBacked(managed: Naming, events: seq<Event>, k: Name, d: Deleting) {
    && (d.Scanned? ==> Unnamed(managed, events, k, d.uid))
    && (d.Settled? ==> SettledSince(managed, events, k, d.uid))
  }

  lemma UnnamedStays(managed: Naming, events: seq<Event>, e: Event, i: nat, k: Name, uid: Uid)
    requires UnnamedAt(managed, events, i, k, uid)
    ensures UnnamedAt(managed, events + [e], i, k, uid)
  {
    assert (events + [e])[..i] == events[..i];
  }

  lemma DeletionStays(managed: Naming, events: seq<Event>, e: Event, k: Name, d: Deleting)
    requires DeletionBacked(managed, events, k, d) && !(e.CacheSteps? && e.k == k && e.cacheStep.StartDelete?)
    ensures DeletionBacked(managed, events + [e], k, d)
  {
    var more := events + [e];
    if d.Scanned? {
      var i: nat :| UnnamedAt(managed, events, i, k, d.uid) && SameDeletion(events, i, |events|, k);
      UnnamedStays(managed, events, e, i, k, d.uid);
      assert SameDeletion(more, i, |more|, k);
    }
    if d.Settled? {
      var i: nat, j: nat :| SettledAt(managed, events, i, j, k, d.uid) && SameDeletion(events, i, |events|, k);
      UnnamedStays(managed, events, e, i, k, d.uid);
      assert more[..j] == events[..j];
      assert SettledAt(managed, more, i, j, k, d.uid) && SameDeletion(more, i, |more|, k);
    }
  }

  lemma StartBacks(managed: Naming, events: seq<Event>, s: State, k: Name, uid: Uid)
    requires s == Run(managed, START, events) && !Referenced(s, k)
    ensures Unnamed(managed, events + [CacheSteps(k, StartDelete(uid))], k, uid)
  {
    var more := events + [CacheSteps(k, StartDelete(uid))];
    assert more[..|events|] == events;
    forall a | ArtAt(s, a).live.Some? ensures ArtAt(s, a).live.value.spec.cacheRef != Some(k) { assert a in s.arts; }
    assert UnnamedAt(managed, more, |events|, k, uid) && SameDeletion(more, |events|, |more|, k);
  }

  lemma SettleBacks(managed: Naming, events: seq<Event>, s: State, k: Name, uid: Uid)
    requires s == Run(managed, START, events) && Unnamed(managed, events, k, uid)
    requires Doomed(s, k, uid) ==> managed(k, uid) !in s.claims
    ensures SettledSince(managed, events + [CacheSteps(k, ReadClaim)], k, uid)
  {
    var e := CacheSteps(k, ReadClaim);
    var more := events + [e];
    assert more[..|events|] == events;
    var i: nat :| UnnamedAt(managed, events, i, k, uid) && SameDeletion(events, i, |events|, k);
    UnnamedStays(managed, events, e, i, k, uid);
    assert SettledAt(managed, more, i, |events|, k, uid) && SameDeletion(more, i, |more|, k);
  }

  /** What a step does to the first stages of a deletion. */
  predicate Proceeds(managed: Naming, s: State, k: Name, d: Deleting, step: CacheStep, after: Deleting) {
    if step.StartDelete? then after.Free? || (after == Scanned(step.uid) && !Referenced(s, k))
    else
      || after == d
      || (!after.Scanned? && !after.Settled?)
      || (step.ReadClaim? && d.Scanned? && after == Settled(d.uid) &&
          (Doomed(s, k, d.uid) ==> managed(k, d.uid) !in s.claims))
  }

  lemma DecidedProceeds(managed: Naming, s: State, k: Name, d: Deleting, step: CacheStep)
    ensures Proceeds(managed, s, k, d, step, Decided(managed, s, k, d, step))
  {
  }

  lemma NextDeleting(managed: Naming, s: State, e: Event, k: Name)
    ensures DeletingAt(Next(managed, s, e), k) ==
            if e.CacheSteps? && e.k == k then Decided(managed, s, k, DeletingAt(s, k), e.cacheStep)
            else DeletingAt(s, k)
  {
  }

  lemma ProceedBacks(managed: Naming, events: seq<Event>, s: State, k: Name, step: CacheStep, d: Deleting,
    after: Deleting)
    requires s == Run(managed, START, events) && DeletionBacked(managed, events, k, d)
    requires Proceeds(managed, s, k, d, step, after)
    ensures DeletionBacked(managed, events + [CacheSteps(k, step)], k, after)
  {
    if step.StartDelete? {
      if after.Scanned? { StartBacks(managed, events, s, k, step.uid); }
    } else if after == d {
      DeletionStays(managed, events, CacheSteps(k, step), k, d);
    } else if after.Settled? {
      SettleBacks(managed, events, s, k, d.uid);
    }
  }

  lemma DeletionStep(managed: Naming, events: seq<Event>, s: State, e: Event, k: Name)
    requires s == Run(managed, START, events) && DeletionBacked(managed, events, k, DeletingAt(s, k))
    ensures DeletionBacked(managed, events + [e], k, DeletingAt(Next(managed, s, e), k))
  {
    var d := DeletingAt(s, k);
    NextDeleting(managed, s, e, k);
    if e.CacheSteps? && e.k == k {
      DecidedProceeds(managed, s, k, d, e.cacheStep);
      ProceedBacks(managed, events, s, k, e.cacheStep, d, Decided(managed, s, k, d, e.cacheStep));
    } else {
      DeletionStays(managed, events, e, k, d);
    }
  }

  lemma {:induction false} DeletionAlways(managed: Naming, events: seq<Event>, k: Name)
    ensures DeletionBacked(managed, events, k, DeletingAt(Run(managed, START, events), k))
    decreases |events|
  {
    if events != [] {
      var before, e := events[..|events|-1], events[|events|-1];
      assert events == before + [e];
      DeletionAlways(managed, before, k);
      RunAppend(managed, START, before, e);
      DeletionStep(managed, before, Run(managed, START, before), e, k);
    }
  }

  /** In every run: a cache whose finalizer is removed was, since its deletion was
      taken up, at one moment named by no artifact and, under the Delete policy,
      after that at one moment without its claim. */
  lemma EndedCacheWasFree(managed: Naming, events: seq<Event>, k: Name)
    requires var s := Run(managed, START, events);
             k in s.caches && k !in Next(managed, s, CacheSteps(k, RemoveFinalizer)).caches
    ensures SettledSince(managed, events, k, Run(managed, START, events).caches[k].uid)
  {
    DeletionAlways(managed, events, k);
  }

  // ---- guards ----------------------------------------------------------------------------------------

  ghost predicate GuardOwned(managed: Naming, h: History, n: Name, c: Claim) {
    c.guard.Some? ==> exists k :: n == managed(k, c.guard.value) && (k, c.guard.value) in h.doomed
  }

  ghost predicate GuardsOwned(managed: Naming, s: State) {
    && (forall n :: n in s.claims ==> GuardOwned(managed, s.h, n, s.claims[n]))
    && forall k :: DeletingAt(s, k).Guarding? ==> Doomed(s, k, DeletingAt(s, k).uid)
  }

  lemma GuardStays(managed: Naming, h: History, g: History, n: Name, c: Claim)
    requires GuardOwned(managed, h, n, c) && h.doomed <= g.doomed
    ensures GuardOwned(managed, g, n, c)
  {
  }

  lemma GuardAddedOwned(managed: Naming, s: State, k: Name, n: Name)
    requires GuardsOwned(managed, s) && n in GuardAdded(managed, s, k, DeletingAt(s, k)).claims
    ensures GuardOwned(managed, s.h, n, GuardAdded(managed, s, k, DeletingAt(s, k)).claims[n])
  {
    var t := GuardAdded(managed, s, k, DeletingAt(s, k));
    if n in s.claims { assert GuardOwned(managed, s.h, n, s.claims[n]); }
  }

  lemma ClaimsStep(managed: Naming, s: State, e: Event, n: Name)
    requires GuardsOwned(managed, s) && n in Next(managed, s, e).claims
    ensures GuardOwned(managed, s.h, n, Next(managed, s, e).claims[n])
  {
    if n in s.claims { assert GuardOwned(managed, s.h, n, s.claims[n]); }
    if e.CacheSteps? && e.cacheStep.AddGuard? {
      GuardAddedOwned(managed, s, e.k, n);
      assert Next(managed, s, e).claims == GuardAdded(managed, s, e.k, DeletingAt(s, e.k)).claims;
    }
  }

  lemma DoomedStays(managed: Naming, s: State, e: Event)
    ensures s.h.doomed <= Next(managed, s, e).h.doomed
  {
  }

  /** A guard appears only where a deletion put it, for a doomed cache. */
  lemma GuardsStep(managed: Naming, s: State, e: Event)
    requires GuardsOwned(managed, s)
    ensures GuardsOwned(managed, Next(managed, s, e))
  {
    var t := Next(managed, s, e);
    DoomedStays(managed, s, e);
    forall n | n in t.claims ensures GuardOwned(managed, t.h, n, t.claims[n]) {
      ClaimsStep(managed, s, e, n);
      GuardStays(managed, s.h, t.h, n, t.claims[n]);
    }
    forall k | DeletingAt(t, k).Guarding? ensures Doomed(t, k, DeletingAt(t, k).uid) {
      NextDeleting(managed, s, e, k);
    }
  }

  lemma {:induction false} GuardsRun(managed: Naming, s: State, events: seq<Event>)
    requires GuardsOwned(managed, s)
    ensures GuardsOwned(managed, Run(managed, s, events))
    decreases |events|
  {
    if events != [] {
      GuardsStep(managed, s, events[0]);
      GuardsRun(managed, Next(managed, s, events[0]), events[1..]);
    }
  }

  /** In every run a guard is that of a cache deleted under the Delete policy. So
      the cleanup of a guard left behind by a retained cache, whose policy can
      not change once it terminates, never finds one. */
  lemma NothingToClear(managed: Naming, events: seq<Event>, k: Name, uid: Uid)
    requires Injective(managed)
    ensures var s := Run(managed, START, events);
            && (forall n :: n in s.claims ==> GuardOwned(managed, s.h, n, s.claims[n]))
            && Next(managed, s, ClearGuard(k, uid)) == s
  {
    GuardsRun(managed, START, events);
    var s, n := Run(managed, START, events), managed(k, uid);
    if n in s.claims { assert GuardOwned(managed, s.h, n, s.claims[n]); }
  }
}
