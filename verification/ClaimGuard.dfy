/** Deleting a managed cache claim.

    The cache controller guards the claim, looks for references and deletes it
    under a precondition; the artifact controller meanwhile resolves storage
    and commits a location. Every live read and every versioned write is a step
    of its own, controllers act on copies that may be stale, users act at any
    time. No artifact ever holds a location on a claim deleted in this way.
 */
module ClaimGuard {
  import opened Basics

  type Name = string

  /** Object identities and resource versions, drawn from one clock. */
  type Uid = nat

  datatype Claim = Claim(uid: Uid, rv: nat, deleting: bool, guard: Option<Uid>)

  datatype Storage = Managed | Adopted(claim: Name)

  datatype Cache = Cache(uid: Uid, deleting: bool, storage: Storage, delete: bool, finalizer: bool, ready: bool,
    statusClaim: Option<Name>)

  datatype Location = Location(claim: Name, uid: Uid)

  datatype Spec = Spec(cacheRef: Option<Name>, sourceClaim: Option<Name>, direct: bool)

  /** `validated` is that the status records a validation and a digest. */
  datatype Artifact = Artifact(rv: nat, spec: Spec, location: Option<Location>, validated: bool)

  /** How far the reconcile of an artifact has come, with its copy. */
  datatype Resolving =
    | Resting
    | Read(copy: Artifact)
    | ViaCache(copy: Artifact, claim: Name)
    | AtSource(copy: Artifact, found: Option<Location>)
    | Located(copy: Artifact, loc: Location)

  /** An artifact in the API server, as the informer last saw it, and its
      reconcile. */
  datatype Art = Art(live: Option<Artifact>, seen: Option<Artifact>, work: Resolving)

  /** How far the deletion of a cache has come. `uid` is the cache's own,
      `claim` the identity of its claim as it was read. */
  datatype Deleting =
    | Free
    | Scanned(uid: Uid)
    | Settled(uid: Uid)
    | Guarding(uid: Uid, claim: Uid, rv: nat)
    | Guarded(uid: Uid, claim: Uid)
    | NoAdopter(uid: Uid, claim: Uid)
    | NoRefs(uid: Uid, claim: Uid)
    | Confirmed(uid: Uid, claim: Uid, rv: nat)

  /** `owners` records the name of every claim ever created, `doomed` the
      managed caches deleted under the Delete policy, `deleted` the claims
      whose guarded deletion went through. */
  datatype History = History(clock: nat, owners: map<Uid, Name>, doomed: set<(Name, Uid)>, deleted: set<Uid>)

  datatype State = State(
    h: History, claims: map<Name, Claim>, caches: map<Name, Cache>, removing: map<Name, Deleting>, arts: map<Name, Art>)

  /** `deterministicName` of a cache name and identity. */
  type Naming = (Name, Uid) -> Name

  ghost predicate Injective(managed: Naming) {
    forall k, u, l, v :: managed(k, u) == managed(l, v) ==> k == l && u == v
  }

  function ClaimOf(managed: Naming, k: Name, cache: Cache): Name {
    if cache.storage.Managed? then managed(k, cache.uid) else cache.storage.claim
  }

  function ArtAt(s: State, a: Name): Art {
    if a in s.arts then s.arts[a] else Art(None, None, Resting)
  }

  function CacheAt(s: State, k: Name): Option<Cache> {
    if k in s.caches then Some(s.caches[k]) else None
  }

  function DeletingAt(s: State, k: Name): Deleting {
    if k in s.removing then s.removing[k] else Free
  }

  function Tick(h: History): History {
    h.(clock := h.clock + 1)
  }

  // ---- users, the API server and other controllers ----------------------------------------

  datatype ClaimChange = CreateClaim | TouchClaim(deleting: bool) | RemoveClaim

  /** Claims as everybody but the deletion protocol changes them: the guard
      annotation is reserved. */
  function ChangeClaim(s: State, n: Name, c: ClaimChange): State {
    var now := s.h.clock;
    match c
    case CreateClaim =>
      if n in s.claims then s
      else s.(h := Tick(s.h).(owners := s.h.owners[now := n]), claims := s.claims[n := Claim(now, now, false, None)])
    case TouchClaim(deleting) =>
      if n !in s.claims then s
      else s.(h := Tick(s.h), claims := s.claims[n :=
          s.claims[n].(rv := now, deleting := s.claims[n].deleting || deleting)])
    case RemoveClaim => s.(claims := s.claims - {n})
  }

  datatype CacheChange =
    | CreateCache(storage: Storage, delete: bool)
    | AddFinalizer
    | SetStatus(ready: bool)
    | SetRetention(delete: bool)
    | DeleteCache

  /** One cache, changed: storage never changes, the retention policy not after
      deletion began; Ready is reported only with the finalizer in place. */
  function ChangedCache(managed: Naming, now: Uid, k: Name, x: Option<Cache>, c: CacheChange): Option<Cache> {
    if x.None? then if c.CreateCache? then Some(Cache(now, false, c.storage, c.delete, false, false, None)) else None
    else
      var x := x.value;
      match c
      case CreateCache(_, _) => Some(x)
      case AddFinalizer => Some(if x.deleting then x else x.(finalizer := true))
      case SetStatus(ready) =>
        Some(if x.finalizer then x.(ready := ready, statusClaim := Some(ClaimOf(managed, k, x))) else x)
      case SetRetention(delete) => Some(if x.deleting then x else x.(delete := delete))
      case DeleteCache => if x.finalizer then Some(x.(deleting := true)) else None
  }

  /** A managed cache that begins to terminate under the Delete policy. */
  predicate Dooms(x: Option<Cache>, c: CacheChange) {
    c.DeleteCache? && x.Some? && x.value.finalizer && !x.value.deleting && x.value.storage.Managed? && x.value.delete
  }

  function ChangeCache(managed: Naming, s: State, k: Name, c: CacheChange): State {
    var x := CacheAt(s, k);
    var next := ChangedCache(managed, s.h.clock, k, x, c);
    var h := if Dooms(x, c) then s.h.(doomed := s.h.doomed + {(k, x.value.uid)}) else s.h;
    s.(h := Tick(h), caches := if next.Some? then s.caches[k := next.value] else s.caches - {k})
  }

  datatype ArtifactChange =
    | CreateArtifact(spec: Spec)
    | UpdateArtifact(spec: Spec)
    | SetValidated(validated: bool)
    | RemoveArtifact
    | Observe

  function ChangedArtifact(now: nat, x: Art, c: ArtifactChange): Art {
    match c
    case CreateArtifact(spec) => if x.live.Some? then x else x.(live := Some(Artifact(now, spec, None, false)))
    case UpdateArtifact(spec) => if x.live.None? then x else x.(live := Some(x.live.value.(rv := now, spec := spec)))
    case SetValidated(validated) => if x.live.None? then x
        else x.(live := Some(x.live.value.(rv := now, validated := validated)))
    case RemoveArtifact => x.(live := None)
    case Observe => x.(seen := x.live)
  }

  function PutArt(s: State, a: Name, x: Art): State {
    s.(h := Tick(s.h), arts := s.arts[a := x])
  }

  // ---- the artifact controller ----------------------------------------------------------------

  datatype ArtifactStep = StartArtifact | ReadCache | ReadCacheClaim | ReadSource | Commit

  /** A claim that storage resolution accepts. */
  predicate Usable(claims: map<Name, Claim>, n: Name) {
    n in claims && !claims[n].deleting && claims[n].guard.None?
  }

  function ReadingCache(caches: map<Name, Cache>, copy: Artifact): Resolving {
    if copy.spec.cacheRef.None? then AtSource(copy, None)
    else
      var k := copy.spec.cacheRef.value;
      if k !in caches || caches[k].deleting || !caches[k].ready || caches[k].statusClaim.None? then Resting
      else ViaCache(copy, caches[k].statusClaim.value)
  }

  function ReadingCacheClaim(claims: map<Name, Claim>, copy: Artifact, n: Name): Resolving {
    if Usable(claims, n) then AtSource(copy, Some(Location(n, claims[n].uid))) else Resting
  }

  /** A validated copy whose place in the cache is unchanged needs no source. */
  predicate SourceSpared(copy: Artifact, found: Option<Location>) {
    !copy.spec.direct && copy.validated && copy.location == found
  }

  function ReadingSource(claims: map<Name, Claim>, copy: Artifact, found: Option<Location>): Resolving {
    var n := copy.spec.sourceClaim;
    if n.None? || SourceSpared(copy, found) then if found.None? then Resting else Located(copy, found.value)
    else if !Usable(claims, n.value) then Resting
    else if copy.spec.direct then Located(copy, Location(n.value, claims[n.value].uid))
    else if found.None? then Resting
    else Located(copy, found.value)
  }

  /** A location is written under the version read, once, or again as it is. */
  function Committed(now: nat, x: Art): Art
    requires x.work.Located?
  {
    var copy, loc := x.work.copy, x.work.loc;
    if x.live.Some? && x.live.value.rv == copy.rv && (copy.location.None? || copy.location == Some(loc))
    then Art(Some(x.live.value.(rv := now, location := Some(loc))), x.seen, Resting)
    else x.(work := Resting)
  }

  function Stepped(s: State, x: Art, step: ArtifactStep): Art {
    match step
    case StartArtifact => x.(work := if x.seen.Some? then Read(x.seen.value) else Resting)
    case ReadCache => if x.work.Read? then x.(work := ReadingCache(s.caches, x.work.copy)) else x
    case ReadCacheClaim => if x.work.ViaCache? then x.(work := ReadingCacheClaim(s.claims, x.work.copy, x.work.claim))
        else x
    case ReadSource => if x.work.AtSource? then x.(work := ReadingSource(s.claims, x.work.copy, x.work.found)) else x
    case Commit => if x.work.Located? then Committed(s.h.clock, x) else x
  }

  // ---- the cache controller -----------------------------------------------------------------------

  datatype CacheStep =
    | StartDelete(uid: Uid)
    | ReadClaim
    | AddGuard
    | ScanCaches
    | ScanArtifacts
    | Confirm
    | DeleteClaim
    | RemoveFinalizer

  predicate Referenced(s: State, k: Name) {
    exists a :: a in s.arts && s.arts[a].live.Some? && s.arts[a].live.value.spec.cacheRef == Some(k)
  }

  predicate AdoptedElsewhere(s: State, k: Name, n: Name) {
    exists l :: l in s.caches && l != k && s.caches[l].storage == Adopted(n)
  }

  predicate Names(x: Artifact, k: Name, n: Name) {
    x.spec.cacheRef == Some(k) || x.spec.sourceClaim == Some(n) || (x.location.Some? && x.location.value.claim == n)
  }

  predicate ClaimReferenced(s: State, k: Name, n: Name) {
    exists a :: a in s.arts && s.arts[a].live.Some? && Names(s.arts[a].live.value, k, n)
  }

  /** The cache as a possibly stale copy shows it: terminating. */
  predicate Terminating(s: State, k: Name, uid: Uid) {
    (k, uid) in s.h.doomed || (k in s.caches && s.caches[k].uid == uid && s.caches[k].deleting)
  }

  /** What a reconcile decides next from what it reads. */
  function Decided(managed: Naming, s: State, k: Name, d: Deleting, step: CacheStep): Deleting {
    if step.StartDelete? then if Terminating(s, k, step.uid) && !Referenced(s, k) then Scanned(step.uid) else Free
    else if d.Free? then Free
    else
      var n := managed(k, d.uid);
      match step
      case ReadClaim =>
        if !d.Scanned? then d
        else if (k, d.uid) !in s.h.doomed || n !in s.claims then Settled(d.uid)
        else if s.claims[n].deleting then Free
        else if s.claims[n].guard == Some(d.uid) then Guarded(d.uid, s.claims[n].uid)
        else if s.claims[n].guard.Some? then Free
        else Guarding(d.uid, s.claims[n].uid, s.claims[n].rv)
      case AddGuard => if d.Guarding? then Free else d
      case ScanCaches => if !d.Guarded? then d else if AdoptedElsewhere(s, k, n) then Free
          else NoAdopter(d.uid, d.claim)
      case ScanArtifacts => if !d.NoAdopter? then d else if ClaimReferenced(s, k, n) then Free
          else NoRefs(d.uid, d.claim)
      case Confirm =>
        if !d.NoRefs? then d
        else if n in s.claims && s.claims[n].uid == d.claim && !s.claims[n].deleting && s.claims[n].guard == Some(d.uid)
        then Confirmed(d.uid, d.claim, s.claims[n].rv)
        else Free
      case DeleteClaim => if d.Confirmed? then Free else d
      case RemoveFinalizer => if d.Settled? then Free else d
  }

  /** The versioned write of the guard. */
  function GuardAdded(managed: Naming, s: State, k: Name, d: Deleting): State {
    if !d.Guarding? then s
    else
      var n := managed(k, d.uid);
      if n in s.claims && s.claims[n].rv == d.rv
      then s.(h := Tick(s.h), claims := s.claims[n := s.claims[n].(rv := s.h.clock, guard := Some(d.uid))]) else s
  }

  /** The delete under the preconditions on identity and version. */
  predicate Deletes(managed: Naming, s: State, k: Name, d: Deleting) {
    d.Confirmed? && var n := managed(k, d.uid); n in s.claims && s.claims[n].uid == d.claim && s.claims[n].rv == d.rv
  }

  function ClaimDeleted(managed: Naming, s: State, k: Name, d: Deleting): State {
    if !Deletes(managed, s, k, d) then s
    else
      var n := managed(k, d.uid);
      s.(h := Tick(s.h).(deleted := s.h.deleted + {d.claim}), claims :=
          s.claims[n := s.claims[n].(rv := s.h.clock, deleting := true)])
  }

  function FinalizerRemoved(s: State, k: Name, d: Deleting): State {
    if d.Settled? && k in s.caches && s.caches[k].uid == d.uid then s.(caches := s.caches - {k}) else s
  }

  function StepCache(managed: Naming, s: State, k: Name, step: CacheStep): State {
    var d := DeletingAt(s, k);
    var t := match step
      case AddGuard => GuardAdded(managed, s, k, d)
      case DeleteClaim => ClaimDeleted(managed, s, k, d)
      case RemoveFinalizer => FinalizerRemoved(s, k, d)
      case _ => s;
    t.(removing := t.removing[k := Decided(managed, s, k, d, step)])
  }

  /** `clearRetainedManagedClaimDeletionGuard`: only for a cache whose policy
      was not Delete when its deletion began. */
  function GuardCleared(managed: Naming, s: State, k: Name, uid: Uid): State {
    var n := managed(k, uid);
    if (k, uid) !in s.h.doomed && n in s.claims && s.claims[n].guard == Some(uid) && !s.claims[n].deleting
    then s.(h := Tick(s.h), claims := s.claims[n := s.claims[n].(rv := s.h.clock, guard := None)]) else s
  }

  // ---- runs ---------------------------------------------------------------------------------------

  datatype Event =
    | ClaimChanges(n: Name, claimChange: ClaimChange)
    | CacheChanges(k: Name, cacheChange: CacheChange)
    | ArtifactChanges(a: Name, artifactChange: ArtifactChange)
    | ArtifactSteps(a: Name, artifactStep: ArtifactStep)
    | CacheSteps(k: Name, cacheStep: CacheStep)
    | ClearGuard(k: Name, uid: Uid)

  function Next(managed: Naming, s: State, e: Event): State {
    match e
    case ClaimChanges(n, c) => ChangeClaim(s, n, c)
    case CacheChanges(k, c) => ChangeCache(managed, s, k, c)
    case ArtifactChanges(a, c) => PutArt(s, a, ChangedArtifact(s.h.clock, ArtAt(s, a), c))
    case ArtifactSteps(a, step) => PutArt(s, a, Stepped(s, ArtAt(s, a), step))
    case CacheSteps(k, step) => StepCache(managed, s, k, step)
    case ClearGuard(k, uid) => GuardCleared(managed, s, k, uid)
  }

  function Run(managed: Naming, s: State, events: seq<Event>): State
    decreases |events|
  {
    if events == [] then s else Run(managed, Next(managed, s, events[0]), events[1..])
  }

  const START := State(History(0, map[], {}, {}), map[], map[], map[], map[])

  // ---- the invariant ------------------------------------------------------------------------------

  ghost predicate LocOk(h: History, l: Location) {
    l.uid in h.owners && h.owners[l.uid] == l.claim
  }

  ghost predicate HistoryOk(h: History) {
    && (forall u :: u in h.owners ==> u < h.clock)
    && (forall p :: p in h.doomed ==> p.1 < h.clock)
    && (forall u :: u in h.deleted ==> u in h.owners)
  }

  ghost predicate ClaimOk(h: History, n: Name, c: Claim) {
    c.rv < h.clock && LocOk(h, Location(n, c.uid)) && (c.uid in h.deleted ==> c.deleting)
  }

  ghost predicate CacheOk(managed: Naming, h: History, k: Name, c: Cache) {
    && c.uid < h.clock && (c.statusClaim.Some? ==> c.statusClaim.value == ClaimOf(managed, k, c))
    && (c.ready ==> c.finalizer) && ((k, c.uid) in h.doomed ==> c.deleting)
  }

  /** The reconcile can still commit: nobody has written the artifact since. */
  predicate Live(x: Art) {
    !x.work.Resting? && x.live.Some? && x.live.value.rv == x.work.copy.rv
  }

  function Found(r: Resolving): Option<Location> {
    if r.AtSource? then r.found else if r.Located? then Some(r.loc) else None
  }

  /** A copy with the version of the object is the object. */
  ghost predicate SameVersion(h: History, x: Art, copy: Artifact) {
    copy.rv < h.clock && (x.live.Some? && x.live.value.rv == copy.rv ==> x.live.value == copy)
  }

  ghost predicate ServedBy(managed: Naming, caches: map<Name, Cache>, k: Name, n: Name) {
    k in caches && caches[k].finalizer && ClaimOf(managed, k, caches[k]) == n
  }

  /** A scan for references to claim `n` would find an artifact like this. */
  ghost predicate Reaches(managed: Naming, caches: map<Name, Cache>, spec: Spec, n: Name) {
    spec.sourceClaim == Some(n) || (spec.cacheRef.Some? && ServedBy(managed, caches, spec.cacheRef.value, n))
  }

  ghost predicate ArtifactOk(h: History, x: Art) {
    && (x.live.Some? ==> x.live.value.rv < h.clock)
    && (x.live.Some? && x.live.value.location.Some? ==>
          LocOk(h, x.live.value.location.value) && x.live.value.location.value.uid !in h.deleted)
    && (x.seen.Some? ==> SameVersion(h, x, x.seen.value))
    && (!x.work.Resting? ==> SameVersion(h, x, x.work.copy))
    && (Found(x.work).Some? ==> LocOk(h, Found(x.work).value) && (Live(x) ==> Found(x.work).value.uid !in h.deleted))
  }

  ghost predicate Visible(managed: Naming, caches: map<Name, Cache>, x: Art) {
    Live(x) ==>
      && (x.work.ViaCache? ==>
          x.work.copy.spec.cacheRef.Some? && ServedBy(managed, caches, x.work.copy.spec.cacheRef.value, x.work.claim))
      && (Found(x.work).Some? ==> Reaches(managed, caches, x.work.copy.spec, Found(x.work).value.claim))
  }

  /** A pending commit, or a committed location, on the claim `u`. */
  predicate Threatens(x: Art, u: Uid) {
    Live(x) && Found(x.work).Some? && Found(x.work).value.uid == u
  }

  predicate Holds(x: Art, u: Uid) {
    x.live.Some? && x.live.value.location.Some? && x.live.value.location.value.uid == u
  }

  /** A live reconcile that has read cache `k` as not terminating. */
  predicate PastCache(x: Art, k: Name) {
    Live(x) && !x.work.Read? && x.work.copy.spec.cacheRef == Some(k)
  }

  predicate Here(x: Option<Cache>, uid: Uid) {
    x.Some? && x.value.uid == uid
  }

  predicate GuardSeen(d: Deleting) {
    d.Guarded? || d.NoAdopter? || d.NoRefs? || d.Confirmed?
  }

  ghost predicate GuardHolds(managed: Naming, h: History, claims: map<Name, Claim>, k: Name, d: Deleting) {
    GuardSeen(d) ==>
      var n := managed(k, d.uid);
      && (k, d.uid) in h.doomed && LocOk(h, Location(n, d.claim))
      && (n in claims && claims[n].uid == d.claim ==> claims[n].guard == Some(d.uid))
  }

  ghost predicate DeletingOk(h: History, x: Option<Cache>, d: Deleting) {
    !d.Free? ==> d.uid < h.clock && (Here(x, d.uid) ==> x.value.deleting)
  }

  /** What each stage of a deletion has made sure of, for one artifact. */
  ghost predicate Excludes(managed: Naming, cache: Option<Cache>, k: Name, d: Deleting, x: Art) {
    && (!d.Free? && Here(cache, d.uid) ==> !PastCache(x, k))
    && (d.NoAdopter? && Threatens(x, d.claim) ==>
          x.work.copy.spec.cacheRef == Some(k) || x.work.copy.spec.sourceClaim == Some(managed(k, d.uid)))
    && (d.NoRefs? || d.Confirmed? ==> !Threatens(x, d.claim) && !Holds(x, d.claim))
  }

  ghost predicate ClaimsOk(h: History, claims: map<Name, Claim>) {
    forall n :: n in claims ==> ClaimOk(h, n, claims[n])
  }

  ghost predicate CachesOk(managed: Naming, h: History, caches: map<Name, Cache>) {
    forall k :: k in caches ==> CacheOk(managed, h, k, caches[k])
  }

  ghost predicate ArtsOk(managed: Naming, s: State) {
    forall a :: ArtifactOk(s.h, ArtAt(s, a)) && Visible(managed, s.caches, ArtAt(s, a))
  }

  ghost predicate DeletionsOk(managed: Naming, s: State) {
    forall k :: DeletingOk(s.h, CacheAt(s, k), DeletingAt(s, k))
        && GuardHolds(managed, s.h, s.claims, k, DeletingAt(s, k))
  }

  ghost predicate Exclusion(managed: Naming, s: State) {
    forall k, a :: Excludes(managed, CacheAt(s, k), k, DeletingAt(s, k), ArtAt(s, a))
  }

  ghost predicate Inv(managed: Naming, s: State) {
    && HistoryOk(s.h) && ClaimsOk(s.h, s.claims) && CachesOk(managed, s.h, s.caches)
    && ArtsOk(managed, s) && DeletionsOk(managed, s) && Exclusion(managed, s)
  }

  // ---- what grows ----------------------------------------------------------------------------------

  ghost predicate Grows(h: History, g: History) {
    && h.clock <= g.clock && g.doomed == h.doomed && g.deleted == h.deleted
    && forall u :: u in h.owners ==> u in g.owners && g.owners[u] == h.owners[u]
  }

  lemma ArtGrows(h: History, g: History, x: Art)
    requires ArtifactOk(h, x) && Grows(h, g)
    ensures ArtifactOk(g, x)
  {
  }

  /** Caches, artifacts and reconciles are untouched. */
  lemma FrameKeeps(managed: Naming, s: State, t: State)
    requires Inv(managed, s) && Grows(s.h, t.h)
    requires t.caches == s.caches && t.removing == s.removing && t.arts == s.arts
    ensures CachesOk(managed, t.h, t.caches) && ArtsOk(managed, t) && Exclusion(managed, t)
    ensures forall k :: DeletingOk(t.h, CacheAt(t, k), DeletingAt(t, k))
  {
    forall a ensures ArtifactOk(t.h, ArtAt(t, a)) && Visible(managed, t.caches, ArtAt(t, a)) {
      ArtGrows(s.h, t.h, ArtAt(s, a));
    }
    forall k ensures DeletingOk(t.h, CacheAt(t, k), DeletingAt(t, k)) {
      assert DeletingOk(s.h, CacheAt(s, k), DeletingAt(s, k));
    }
    forall k, a ensures Excludes(managed, CacheAt(t, k), k, DeletingAt(t, k), ArtAt(t, a)) {
      assert Excludes(managed, CacheAt(s, k), k, DeletingAt(s, k), ArtAt(s, a));
    }
  }

  // ---- users and other controllers -------------------------------------------------------------

  lemma ChangeClaimClaims(s: State, n: Name, c: ClaimChange)
    requires HistoryOk(s.h) && ClaimsOk(s.h, s.claims)
    ensures var t := ChangeClaim(s, n, c); HistoryOk(t.h) && ClaimsOk(t.h, t.claims) && Grows(s.h, t.h)
  {
    var t := ChangeClaim(s, n, c);
    forall m | m in t.claims ensures ClaimOk(t.h, m, t.claims[m]) {
      if m in s.claims { assert ClaimOk(s.h, m, s.claims[m]); }
    }
  }

  lemma ChangeClaimGuard(managed: Naming, s: State, n: Name, c: ClaimChange, k: Name, d: Deleting)
    requires HistoryOk(s.h) && GuardHolds(managed, s.h, s.claims, k, d)
    ensures var t := ChangeClaim(s, n, c); GuardHolds(managed, t.h, t.claims, k, d)
  {
  }

  lemma ChangeClaimKeeps(managed: Naming, s: State, n: Name, c: ClaimChange)
    requires Inv(managed, s)
    ensures Inv(managed, ChangeClaim(s, n, c))
  {
    var t := ChangeClaim(s, n, c);
    ChangeClaimClaims(s, n, c);
    FrameKeeps(managed, s, t);
    forall k ensures GuardHolds(managed, t.h, t.claims, k, DeletingAt(t, k)) {
      ChangeClaimGuard(managed, s, n, c, k, DeletingAt(s, k));
    }
  }

  lemma ClearGuardClaims(managed: Naming, s: State, k: Name, uid: Uid)
    requires HistoryOk(s.h) && ClaimsOk(s.h, s.claims)
    ensures var t := GuardCleared(managed, s, k, uid); HistoryOk(t.h) && ClaimsOk(t.h, t.claims) && Grows(s.h, t.h)
  {
    var t := GuardCleared(managed, s, k, uid);
    forall m | m in t.claims ensures ClaimOk(t.h, m, t.claims[m]) { assert ClaimOk(s.h, m, s.claims[m]); }
  }

  lemma ClearGuardGuard(managed: Naming, s: State, k: Name, uid: Uid, l: Name, d: Deleting)
    requires Injective(managed) && GuardHolds(managed, s.h, s.claims, l, d)
    ensures var t := GuardCleared(managed, s, k, uid); GuardHolds(managed, t.h, t.claims, l, d)
  {
  }

  lemma ClearGuardKeeps(managed: Naming, s: State, k: Name, uid: Uid)
    requires Injective(managed) && Inv(managed, s)
    ensures Inv(managed, GuardCleared(managed, s, k, uid))
  {
    var t := GuardCleared(managed, s, k, uid);
    ClearGuardClaims(managed, s, k, uid);
    FrameKeeps(managed, s, t);
    forall l ensures GuardHolds(managed, t.h, t.claims, l, DeletingAt(t, l)) {
      ClearGuardGuard(managed, s, k, uid, l, DeletingAt(s, l));
    }
  }

  /** A cache that serves a claim goes on serving it. */
  lemma StillServed(managed: Naming, s: State, l: Name, c: CacheChange, k: Name, n: Name)
    requires ServedBy(managed, s.caches, k, n)
    ensures ServedBy(managed, ChangeCache(managed, s, l, c).caches, k, n)
  {
  }

  lemma ChangeCacheArts(managed: Naming, s: State, l: Name, c: CacheChange, a: Name)
    requires ArtifactOk(s.h, ArtAt(s, a)) && Visible(managed, s.caches, ArtAt(s, a))
    ensures var t := ChangeCache(managed, s, l, c);
            ArtifactOk(t.h, ArtAt(t, a)) && Visible(managed, t.caches, ArtAt(t, a))
  {
    var x := ArtAt(s, a);
    if Live(x) && x.work.copy.spec.cacheRef.Some? {
      var k := x.work.copy.spec.cacheRef.value;
      if x.work.ViaCache? { StillServed(managed, s, l, c, k, x.work.claim); }
      if Found(x.work).Some? && ServedBy(managed, s.caches, k, Found(x.work).value.claim) {
        StillServed(managed, s, l, c, k, Found(x.work).value.claim);
      }
    }
  }

  lemma ChangeCacheKeeps(managed: Naming, s: State, l: Name, c: CacheChange)
    requires Inv(managed, s)
    ensures Inv(managed, ChangeCache(managed, s, l, c))
  {
    var t := ChangeCache(managed, s, l, c);
    forall m | m in t.claims ensures ClaimOk(t.h, m, t.claims[m]) { assert ClaimOk(s.h, m, s.claims[m]); }
    ChangeCacheCaches(managed, s, l, c);
    forall a ensures ArtifactOk(t.h, ArtAt(t, a)) && Visible(managed, t.caches, ArtAt(t, a)) {
      ChangeCacheArts(managed, s, l, c, a);
    }
    forall k ensures DeletingOk(t.h, CacheAt(t, k), DeletingAt(t, k))
        && GuardHolds(managed, t.h, t.claims, k, DeletingAt(t, k)) {
      assert DeletingOk(s.h, CacheAt(s, k), DeletingAt(s, k))
          && GuardHolds(managed, s.h, s.claims, k, DeletingAt(s, k));
    }
    forall k, a ensures Excludes(managed, CacheAt(t, k), k, DeletingAt(t, k), ArtAt(t, a)) {
      assert Excludes(managed, CacheAt(s, k), k, DeletingAt(s, k), ArtAt(s, a))
          && DeletingOk(s.h, CacheAt(s, k), DeletingAt(s, k));
    }
  }

  lemma ChangeCacheCaches(managed: Naming, s: State, l: Name, c: CacheChange)
    requires HistoryOk(s.h) && CachesOk(managed, s.h, s.caches)
    ensures var t := ChangeCache(managed, s, l, c); HistoryOk(t.h) && CachesOk(managed, t.h, t.caches)
  {
    var t := ChangeCache(managed, s, l, c);
    if l in s.caches { assert CacheOk(managed, s.h, l, s.caches[l]); }
    forall k | k in t.caches ensures CacheOk(managed, t.h, k, t.caches[k]) {
      if k in s.caches { assert CacheOk(managed, s.h, k, s.caches[k]); }
    }
  }

  // ---- artifacts ---------------------------------------------------------------------------------

  lemma PutArtKeeps(managed: Naming, s: State, a: Name, x: Art)
    requires Inv(managed, s) && ArtifactOk(Tick(s.h), x) && Visible(managed, s.caches, x)
    requires forall k :: Excludes(managed, CacheAt(s, k), k, DeletingAt(s, k), x)
    ensures Inv(managed, PutArt(s, a, x))
  {
    var t := PutArt(s, a, x);
    forall m | m in t.claims ensures ClaimOk(t.h, m, t.claims[m]) { assert ClaimOk(s.h, m, s.claims[m]); }
    forall b ensures ArtifactOk(t.h, ArtAt(t, b)) && Visible(managed, t.caches, ArtAt(t, b)) {
      if b != a { ArtGrows(s.h, t.h, ArtAt(s, b)); }
    }
    forall k ensures DeletingOk(t.h, CacheAt(t, k), DeletingAt(t, k))
        && GuardHolds(managed, t.h, t.claims, k, DeletingAt(t, k)) {
      assert DeletingOk(s.h, CacheAt(s, k), DeletingAt(s, k))
          && GuardHolds(managed, s.h, s.claims, k, DeletingAt(s, k));
    }
    forall k, b ensures Excludes(managed, CacheAt(t, k), k, DeletingAt(t, k), ArtAt(t, b)) {
      assert Excludes(managed, CacheAt(s, k), k, DeletingAt(s, k), ArtAt(s, b));
    }
  }

  lemma ChangeArtifactOk(managed: Naming, s: State, x: Art, c: ArtifactChange)
    requires ArtifactOk(s.h, x) && Visible(managed, s.caches, x)
    ensures var y := ChangedArtifact(s.h.clock, x, c); ArtifactOk(Tick(s.h), y) && Visible(managed, s.caches, y)
  {
  }

  lemma ChangeArtifactExcluded(managed: Naming, h: History, cache: Option<Cache>, k: Name, d: Deleting, x: Art,
    c: ArtifactChange)
    requires ArtifactOk(h, x) && Excludes(managed, cache, k, d, x)
    ensures Excludes(managed, cache, k, d, ChangedArtifact(h.clock, x, c))
  {
  }

  lemma ChangeArtifactKeeps(managed: Naming, s: State, a: Name, c: ArtifactChange)
    requires Inv(managed, s)
    ensures Inv(managed, PutArt(s, a, ChangedArtifact(s.h.clock, ArtAt(s, a), c)))
  {
    var x := ArtAt(s, a);
    ChangeArtifactOk(managed, s, x, c);
    forall k ensures Excludes(managed, CacheAt(s, k), k, DeletingAt(s, k), ChangedArtifact(s.h.clock, x, c)) {
      ChangeArtifactExcluded(managed, s.h, CacheAt(s, k), k, DeletingAt(s, k), x, c);
    }
    PutArtKeeps(managed, s, a, ChangedArtifact(s.h.clock, x, c));
  }

  lemma ReadingOk(managed: Naming, s: State, x: Art, step: ArtifactStep)
    requires ClaimsOk(s.h, s.claims) && CachesOk(managed, s.h, s.caches)
    requires ArtifactOk(s.h, x) && Visible(managed, s.caches, x)
            && (step.ReadCache? || step.ReadCacheClaim? || step.ReadSource?)
    ensures var y := Stepped(s, x, step); ArtifactOk(s.h, y) && Visible(managed, s.caches, y)
  {
    match step {
      case ReadCache =>
        if x.work.Read? && x.work.copy.spec.cacheRef.Some? {
          var k := x.work.copy.spec.cacheRef.value;
          if k in s.caches { assert CacheOk(managed, s.h, k, s.caches[k]); }
        }
      case ReadCacheClaim =>
        if x.work.ViaCache? && x.work.claim in s.claims { assert ClaimOk(s.h, x.work.claim, s.claims[x.work.claim]); }
      case ReadSource =>
        if x.work.AtSource? && x.work.copy.spec.sourceClaim.Some? {
          var n := x.work.copy.spec.sourceClaim.value;
          if n in s.claims { assert ClaimOk(s.h, n, s.claims[n]); }
        }
      case _ =>
    }
  }

  lemma StepArtifactOk(managed: Naming, s: State, x: Art, step: ArtifactStep)
    requires ClaimsOk(s.h, s.claims) && CachesOk(managed, s.h, s.caches)
    requires ArtifactOk(s.h, x) && Visible(managed, s.caches, x)
    ensures var y := Stepped(s, x, step); ArtifactOk(Tick(s.h), y) && Visible(managed, s.caches, y)
  {
    if step.ReadCache? || step.ReadCacheClaim? || step.ReadSource? {
      ReadingOk(managed, s, x, step);
      ArtGrows(s.h, Tick(s.h), Stepped(s, x, step));
    }
  }

  /** A guarded claim is not usable, so no new commit can come to threaten it. */
  lemma GuardedNotUsable(managed: Naming, s: State, k: Name, d: Deleting, n: Name)
    requires ClaimsOk(s.h, s.claims) && GuardHolds(managed, s.h, s.claims, k, d) && GuardSeen(d) && Usable(s.claims, n)
    ensures s.claims[n].uid != d.claim
  {
    assert ClaimOk(s.h, n, s.claims[n]);
  }

  lemma StepExcluded(managed: Naming, s: State, k: Name, x: Art, step: ArtifactStep)
    requires var d := DeletingAt(s, k);
             && ClaimsOk(s.h, s.claims) && DeletingOk(s.h, CacheAt(s, k), d) && GuardHolds(managed, s.h, s.claims, k, d)
             && ArtifactOk(s.h, x) && Excludes(managed, CacheAt(s, k), k, d, x)
    ensures Excludes(managed, CacheAt(s, k), k, DeletingAt(s, k), Stepped(s, x, step))
  {
    var d := DeletingAt(s, k);
    if GuardSeen(d) {
      if step.ReadCacheClaim? && x.work.ViaCache? && Usable(s.claims, x.work.claim) {
        GuardedNotUsable(managed, s, k, d, x.work.claim);
      }
      if step.ReadSource? && x.work.AtSource? && x.work.copy.spec.sourceClaim.Some?
          && Usable(s.claims, x.work.copy.spec.sourceClaim.value) {
        GuardedNotUsable(managed, s, k, d, x.work.copy.spec.sourceClaim.value);
      }
    }
  }

  lemma StepArtifactKeeps(managed: Naming, s: State, a: Name, step: ArtifactStep)
    requires Inv(managed, s)
    ensures Inv(managed, PutArt(s, a, Stepped(s, ArtAt(s, a), step)))
  {
    var x := ArtAt(s, a);
    StepArtifactOk(managed, s, x, step);
    forall k ensures Excludes(managed, CacheAt(s, k), k, DeletingAt(s, k), Stepped(s, x, step)) {
      assert DeletingOk(s.h, CacheAt(s, k), DeletingAt(s, k))
          && GuardHolds(managed, s.h, s.claims, k, DeletingAt(s, k));
      StepExcluded(managed, s, k, x, step);
    }
    PutArtKeeps(managed, s, a, Stepped(s, x, step));
  }

  // ---- cache deletion ------------------------------------------------------------------------------

  lemma PutDeletingKeeps(managed: Naming, s: State, k: Name, d: Deleting)
    requires Inv(managed, s) && DeletingOk(s.h, CacheAt(s, k), d) && GuardHolds(managed, s.h, s.claims, k, d)
    requires forall a :: Excludes(managed, CacheAt(s, k), k, d, ArtAt(s, a))
    ensures Inv(managed, s.(removing := s.removing[k := d]))
  {
    var t := s.(removing := s.removing[k := d]);
    forall l ensures DeletingOk(t.h, CacheAt(t, l), DeletingAt(t, l))
        && GuardHolds(managed, t.h, t.claims, l, DeletingAt(t, l)) {
      assert DeletingOk(s.h, CacheAt(s, l), DeletingAt(s, l))
          && GuardHolds(managed, s.h, s.claims, l, DeletingAt(s, l));
    }
    forall l, a ensures Excludes(managed, CacheAt(t, l), l, DeletingAt(t, l), ArtAt(t, a)) {
      assert Excludes(managed, CacheAt(s, l), l, DeletingAt(s, l), ArtAt(s, a));
    }
    forall a ensures ArtifactOk(t.h, ArtAt(t, a)) && Visible(managed, t.caches, ArtAt(t, a)) {
      assert ArtifactOk(s.h, ArtAt(s, a)) && Visible(managed, s.caches, ArtAt(s, a));
    }
  }

  /** An artifact that no scan finds is not past the cache. */
  lemma NotReferenced(h: History, s: State, k: Name, a: Name)
    requires ArtifactOk(h, ArtAt(s, a)) && !Referenced(s, k)
    ensures !PastCache(ArtAt(s, a), k)
  {
    var x := ArtAt(s, a);
    if x.live.Some? { assert a in s.arts; }
  }

  lemma ScanCachesExcludes(managed: Naming, s: State, k: Name, d: Deleting, a: Name)
    requires Injective(managed) && d.Guarded? && !AdoptedElsewhere(s, k, managed(k, d.uid))
    requires GuardHolds(managed, s.h, s.claims, k, d) && ArtifactOk(s.h, ArtAt(s, a))
            && Visible(managed, s.caches, ArtAt(s, a))
    requires Excludes(managed, CacheAt(s, k), k, d, ArtAt(s, a))
    ensures Excludes(managed, CacheAt(s, k), k, NoAdopter(d.uid, d.claim), ArtAt(s, a))
  {
    var x := ArtAt(s, a);
    if Threatens(x, d.claim) && x.work.copy.spec.cacheRef.Some? {
      var l := x.work.copy.spec.cacheRef.value;
      assert l in s.caches && l != k ==> s.caches[l].storage != Adopted(managed(k, d.uid));
    }
  }

  lemma ScanArtifactsExcludes(managed: Naming, s: State, k: Name, d: Deleting, a: Name)
    requires d.NoAdopter? && !ClaimReferenced(s, k, managed(k, d.uid))
    requires GuardHolds(managed, s.h, s.claims, k, d) && ArtifactOk(s.h, ArtAt(s, a))
    requires Excludes(managed, CacheAt(s, k), k, d, ArtAt(s, a))
    ensures Excludes(managed, CacheAt(s, k), k, NoRefs(d.uid, d.claim), ArtAt(s, a))
  {
    var x := ArtAt(s, a);
    if x.live.Some? {
      assert a in s.arts;
      assert !Names(x.live.value, k, managed(k, d.uid));
    }
  }

  lemma DecideExcludes(managed: Naming, s: State, k: Name, step: CacheStep, a: Name)
    requires var d := DeletingAt(s, k);
             && Injective(managed) && GuardHolds(managed, s.h, s.claims, k, d)
             && ArtifactOk(s.h, ArtAt(s, a)) && Visible(managed, s.caches, ArtAt(s, a))
             && Excludes(managed, CacheAt(s, k), k, d, ArtAt(s, a))
    ensures Excludes(managed, CacheAt(s, k), k, Decided(managed, s, k, DeletingAt(s, k), step), ArtAt(s, a))
  {
    var d := DeletingAt(s, k);
    match step {
      case StartDelete(uid) => if !Referenced(s, k) { NotReferenced(s.h, s, k, a); }
      case ScanCaches => if d.Guarded? && !AdoptedElsewhere(s, k, managed(k, d.uid)) {
        ScanCachesExcludes(managed, s, k, d, a);
      }
      case ScanArtifacts => if d.NoAdopter? && !ClaimReferenced(s, k, managed(k, d.uid)) {
        ScanArtifactsExcludes(managed, s, k, d, a);
      }
      case _ =>
    }
  }

  lemma DecideOk(managed: Naming, s: State, k: Name, step: CacheStep)
    requires Inv(managed, s)
    ensures var d := Decided(managed, s, k, DeletingAt(s, k), step);
            DeletingOk(s.h, CacheAt(s, k), d) && GuardHolds(managed, s.h, s.claims, k, d)
  {
    var d := DeletingAt(s, k);
    assert DeletingOk(s.h, CacheAt(s, k), d) && GuardHolds(managed, s.h, s.claims, k, d);
    if k in s.caches { assert CacheOk(managed, s.h, k, s.caches[k]); }
    if !d.Free? && managed(k, d.uid) in s.claims {
      assert ClaimOk(s.h, managed(k, d.uid), s.claims[managed(k, d.uid)]);
    }
    if step.StartDelete? && (k, step.uid) in s.h.doomed { assert (k, step.uid).1 < s.h.clock; }
  }

  lemma DecideKeeps(managed: Naming, s: State, k: Name, step: CacheStep)
    requires Injective(managed) && Inv(managed, s)
    ensures Inv(managed, s.(removing := s.removing[k := Decided(managed, s, k, DeletingAt(s, k), step)]))
  {
    DecideOk(managed, s, k, step);
    forall a ensures Excludes(managed, CacheAt(s, k), k, Decided(managed, s, k, DeletingAt(s, k), step), ArtAt(s, a)) {
      assert GuardHolds(managed, s.h, s.claims, k, DeletingAt(s, k))
          && Excludes(managed, CacheAt(s, k), k, DeletingAt(s, k), ArtAt(s, a));
      assert ArtifactOk(s.h, ArtAt(s, a)) && Visible(managed, s.caches, ArtAt(s, a));
      DecideExcludes(managed, s, k, step, a);
    }
    PutDeletingKeeps(managed, s, k, Decided(managed, s, k, DeletingAt(s, k), step));
  }

  lemma AddGuardKeeps(managed: Naming, s: State, k: Name)
    requires Injective(managed) && Inv(managed, s) && DeletingAt(s, k).Guarding?
    ensures Inv(managed, StepCache(managed, s, k, AddGuard))
  {
    DecideKeeps(managed, s, k, AddGuard);
    var free := s.(removing := s.removing[k := Free]);
    var t := StepCache(managed, s, k, AddGuard);
    assert Grows(free.h, t.h);
    FrameKeeps(managed, free, t);
    forall m | m in t.claims ensures ClaimOk(t.h, m, t.claims[m]) { assert ClaimOk(s.h, m, s.claims[m]); }
    forall l ensures GuardHolds(managed, t.h, t.claims, l, DeletingAt(t, l)) {
      assert GuardHolds(managed, free.h, free.claims, l, DeletingAt(free, l));
    }
  }

  lemma ArtSurvives(h: History, g: History, x: Art, u: Uid)
    requires ArtifactOk(h, x) && g == Tick(h).(deleted := h.deleted + {u}) && !Threatens(x, u) && !Holds(x, u)
    ensures ArtifactOk(g, x)
  {
  }

  lemma DeleteClaims(managed: Naming, s: State, k: Name, d: Deleting)
    requires HistoryOk(s.h) && ClaimsOk(s.h, s.claims) && Deletes(managed, s, k, d)
    ensures var t := ClaimDeleted(managed, s, k, d); HistoryOk(t.h) && ClaimsOk(t.h, t.claims)
  {
    var t, n := ClaimDeleted(managed, s, k, d), managed(k, d.uid);
    assert ClaimOk(s.h, n, s.claims[n]);
    forall m | m in t.claims ensures ClaimOk(t.h, m, t.claims[m]) { assert ClaimOk(s.h, m, s.claims[m]); }
  }

  lemma DeleteClaimKeeps(managed: Naming, s: State, k: Name)
    requires Injective(managed) && Inv(managed, s) && Deletes(managed, s, k, DeletingAt(s, k))
    ensures Inv(managed, StepCache(managed, s, k, DeleteClaim))
  {
    var d := DeletingAt(s, k);
    DecideKeeps(managed, s, k, DeleteClaim);
    var free := s.(removing := s.removing[k := Free]);
    var t := StepCache(managed, s, k, DeleteClaim);
    DeleteClaims(managed, s, k, d);
    forall a ensures ArtifactOk(t.h, ArtAt(t, a)) && Visible(managed, t.caches, ArtAt(t, a)) {
      assert Excludes(managed, CacheAt(s, k), k, d, ArtAt(s, a)) && Visible(managed, s.caches, ArtAt(s, a));
      ArtSurvives(s.h, t.h, ArtAt(s, a), d.claim);
    }
    DeleteRest(managed, free, t, managed(k, d.uid));
  }

  lemma DeleteRest(managed: Naming, s: State, t: State, n: Name)
    requires Inv(managed, s) && t.caches == s.caches && t.removing == s.removing && t.arts == s.arts
    requires s.h.clock <= t.h.clock && t.h.owners == s.h.owners && t.h.doomed == s.h.doomed
    requires n in s.claims && t.claims == s.claims[n := s.claims[n].(rv := s.h.clock, deleting := true)]
    ensures CachesOk(managed, t.h, t.caches) && DeletionsOk(managed, t) && Exclusion(managed, t)
  {
    forall l | l in t.caches ensures CacheOk(managed, t.h, l, t.caches[l]) {
      assert CacheOk(managed, s.h, l, s.caches[l]);
    }
    forall l ensures DeletingOk(t.h, CacheAt(t, l), DeletingAt(t, l))
        && GuardHolds(managed, t.h, t.claims, l, DeletingAt(t, l)) {
      assert DeletingOk(s.h, CacheAt(s, l), DeletingAt(s, l))
          && GuardHolds(managed, s.h, s.claims, l, DeletingAt(s, l));
    }
    forall l, a ensures Excludes(managed, CacheAt(t, l), l, DeletingAt(t, l), ArtAt(t, a)) {
      assert Excludes(managed, CacheAt(s, l), l, DeletingAt(s, l), ArtAt(s, a));
    }
  }

  lemma RemovedStillVisible(managed: Naming, s: State, k: Name, x: Art)
    requires Visible(managed, s.caches, x) && !PastCache(x, k)
    ensures Visible(managed, s.caches - {k}, x)
  {
  }

  lemma RemoveFinalizerKeeps(managed: Naming, s: State, k: Name)
    requires Injective(managed) && Inv(managed, s) && DeletingAt(s, k).Settled?
            && Here(CacheAt(s, k), DeletingAt(s, k).uid)
    ensures Inv(managed, StepCache(managed, s, k, RemoveFinalizer))
  {
    var d := DeletingAt(s, k);
    var t := StepCache(managed, s, k, RemoveFinalizer);
    forall a ensures ArtifactOk(t.h, ArtAt(t, a)) && Visible(managed, t.caches, ArtAt(t, a)) {
      assert Excludes(managed, CacheAt(s, k), k, d, ArtAt(s, a)) && Visible(managed, s.caches, ArtAt(s, a));
      RemovedStillVisible(managed, s, k, ArtAt(s, a));
    }
    forall l ensures DeletingOk(t.h, CacheAt(t, l), DeletingAt(t, l))
        && GuardHolds(managed, t.h, t.claims, l, DeletingAt(t, l)) {
      assert DeletingOk(s.h, CacheAt(s, l), DeletingAt(s, l))
          && GuardHolds(managed, s.h, s.claims, l, DeletingAt(s, l));
    }
    forall l, a ensures Excludes(managed, CacheAt(t, l), l, DeletingAt(t, l), ArtAt(t, a)) {
      assert Excludes(managed, CacheAt(s, l), l, DeletingAt(s, l), ArtAt(s, a));
    }
  }

  lemma StepCacheKeeps(managed: Naming, s: State, k: Name, step: CacheStep)
    requires Injective(managed) && Inv(managed, s)
    ensures Inv(managed, StepCache(managed, s, k, step))
  {
    var d := DeletingAt(s, k);
    if step.AddGuard? && d.Guarding? {
      AddGuardKeeps(managed, s, k);
    } else if step.DeleteClaim? && Deletes(managed, s, k, d) {
      DeleteClaimKeeps(managed, s, k);
    } else if step.RemoveFinalizer? && d.Settled? && Here(CacheAt(s, k), d.uid) {
      RemoveFinalizerKeeps(managed, s, k);
    } else {
      DecideKeeps(managed, s, k, step);
    }
  }

  // ---- whole runs ------------------------------------------------------------------------------------

  lemma NextKeeps(managed: Naming, s: State, e: Event)
    requires Injective(managed) && Inv(managed, s)
    ensures Inv(managed, Next(managed, s, e))
  {
    match e {
      case ClaimChanges(n, c) => ChangeClaimKeeps(managed, s, n, c);
      case CacheChanges(k, c) => ChangeCacheKeeps(managed, s, k, c);
      case ArtifactChanges(a, c) => ChangeArtifactKeeps(managed, s, a, c);
      case ArtifactSteps(a, step) => StepArtifactKeeps(managed, s, a, step);
      case CacheSteps(k, step) => StepCacheKeeps(managed, s, k, step);
      case ClearGuard(k, uid) => ClearGuardKeeps(managed, s, k, uid);
    }
  }

  lemma {:induction false} RunKeeps(managed: Naming, s: State, events: seq<Event>)
    requires Injective(managed) && Inv(managed, s)
    ensures Inv(managed, Run(managed, s, events))
    decreases |events|
  {
    if events != [] {
      NextKeeps(managed, s, events[0]);
      RunKeeps(managed, Next(managed, s, events[0]), events[1..]);
    }
  }

  ghost predicate Reachable(managed: Naming, s: State) {
    exists events :: s == Run(managed, START, events)
  }

  lemma NextDeleted(managed: Naming, s: State, e: Event)
    ensures s.h.deleted <= Next(managed, s, e).h.deleted
  {
  }

  lemma {:induction false} DeletedStays(managed: Naming, s: State, events: seq<Event>)
    ensures s.h.deleted <= Run(managed, s, events).h.deleted
    decreases |events|
  {
    if events != [] {
      var next := Next(managed, s, events[0]);
      NextDeleted(managed, s, events[0]);
      DeletedStays(managed, next, events[1..]);
    }
  }

  /** In every interleaving: once the guarded deletion of a claim went through,
      it is in no artifact's location, no reconcile in progress can put it
      there, and both stay so whatever happens later. */
  lemma DeletedClaimUnused(managed: Naming, s: State, later: seq<Event>, a: Name, u: Uid)
    requires Injective(managed) && Reachable(managed, s) && u in s.h.deleted
    ensures var x := ArtAt(Run(managed, s, later), a); !Holds(x, u) && !Threatens(x, u)
  {
    var events :| s == Run(managed, START, events);
    RunKeeps(managed, START, events);
    RunKeeps(managed, s, later);
    DeletedStays(managed, s, later);
    assert ArtifactOk(Run(managed, s, later).h, ArtAt(Run(managed, s, later), a));
  }

  lemma {:induction false} RunAppend(managed: Naming, s: State, events: seq<Event>, e: Event)
    ensures Run(managed, s, events + [e]) == Next(managed, Run(managed, s, events), e)
    decreases |events|
  {
    if events == [] {
      assert events + [e] == [e];
      assert Run(managed, Next(managed, s, e), []) == Next(managed, s, e);
    } else {
      assert (events + [e])[1..] == events[1..] + [e];
      RunAppend(managed, Next(managed, s, events[0]), events[1..], e);
    }
  }

  lemma Reach(managed: Naming, s: State, e: Event, t: State)
    requires Reachable(managed, s) && t == Next(managed, s, e)
    ensures Reachable(managed, t)
  {
    var events :| s == Run(managed, START, events);
    RunAppend(managed, START, events, e);
  }

  // ---- what the versioned writes rest on -----------------------------------------------------------

  /** A reconcile about to write holds the version of a claim it has judged:
      unguarded before the guard, guarded for its cache before the delete, not
      terminating either way. While the claim has that version, it is as judged. */
  ghost predicate AsRead(managed: Naming, h: History, claims: map<Name, Claim>, k: Name, d: Deleting) {
    d.Guarding? || d.Confirmed? ==>
      var n := managed(k, d.uid);
      && d.rv < h.clock
      && (n in claims && claims[n].rv == d.rv ==>
          claims[n] == Claim(d.claim, d.rv, false, if d.Guarding? then None else Some(d.uid)))
  }

  ghost predicate AllAsRead(managed: Naming, s: State) {
    && (forall n :: n in s.claims ==> s.claims[n].rv < s.h.clock)
    && forall k :: AsRead(managed, s.h, s.claims, k, DeletingAt(s, k))
  }

  /** A claim that changes gets a version nobody has read. */
  ghost predicate Versioned(s: State, t: State) {
    && s.h.clock <= t.h.clock
    && forall n :: n in t.claims ==>
         t.claims[n].rv < t.h.clock && ((n in s.claims && t.claims[n] == s.claims[n]) || s.h.clock <= t.claims[n].rv)
  }

  lemma VersionedKeeps(managed: Naming, s: State, t: State, k: Name)
    requires AllAsRead(managed, s) && Versioned(s, t)
    ensures AsRead(managed, t.h, t.claims, k, DeletingAt(s, k))
  {
    assert AsRead(managed, s.h, s.claims, k, DeletingAt(s, k));
  }

  lemma StepVersioned(managed: Naming, s: State, k: Name, step: CacheStep)
    requires forall n :: n in s.claims ==> s.claims[n].rv < s.h.clock
    ensures Versioned(s, StepCache(managed, s, k, step))
  {
  }

  lemma NextVersioned(managed: Naming, s: State, e: Event)
    requires forall n :: n in s.claims ==> s.claims[n].rv < s.h.clock
    ensures Versioned(s, Next(managed, s, e))
  {
    if e.CacheSteps? { StepVersioned(managed, s, e.k, e.cacheStep); }
  }

  /** A reconcile gets ready to write only with what it has just judged. */
  lemma DecidedAsRead(managed: Naming, s: State, k: Name, d: Deleting, step: CacheStep)
    requires forall n :: n in s.claims ==> s.claims[n].rv < s.h.clock
    ensures var after := Decided(managed, s, k, d, step);
            after == d || (AsRead(managed, s.h, s.claims, k, after) && !(step.AddGuard? || step.DeleteClaim?))
                || after.Free?
  {
  }

  lemma StepAsRead(managed: Naming, s: State, k: Name, step: CacheStep)
    requires AllAsRead(managed, s)
    ensures var t := StepCache(managed, s, k, step); AsRead(managed, t.h, t.claims, k, DeletingAt(t, k))
  {
    var t := StepCache(managed, s, k, step);
    StepVersioned(managed, s, k, step);
    VersionedKeeps(managed, s, t, k);
    DecidedAsRead(managed, s, k, DeletingAt(s, k), step);
    assert DeletingAt(t, k) == Decided(managed, s, k, DeletingAt(s, k), step);
  }

  lemma NextAsRead(managed: Naming, s: State, e: Event)
    requires AllAsRead(managed, s)
    ensures AllAsRead(managed, Next(managed, s, e))
  {
    var t := Next(managed, s, e);
    NextVersioned(managed, s, e);
    forall k ensures AsRead(managed, t.h, t.claims, k, DeletingAt(t, k)) {
      if e.CacheSteps? && e.k == k {
        StepAsRead(managed, s, k, e.cacheStep);
      } else {
        VersionedKeeps(managed, s, t, k);
        assert DeletingAt(t, k) == DeletingAt(s, k);
      }
    }
  }

  lemma {:induction false} RunAsRead(managed: Naming, s: State, events: seq<Event>)
    requires AllAsRead(managed, s)
    ensures AllAsRead(managed, Run(managed, s, events))
    decreases |events|
  {
    if events != [] {
      NextAsRead(managed, s, events[0]);
      RunAsRead(managed, Next(managed, s, events[0]), events[1..]);
    }
  }

  /** In every interleaving a guard goes only on the claim that was read, not
      terminating and not guarded. */
  lemma GuardsWhatItRead(managed: Naming, s: State, k: Name)
    requires Reachable(managed, s) && GuardAdded(managed, s, k, DeletingAt(s, k)) != s
    ensures var d := DeletingAt(s, k);
            d.Guarding? && managed(k, d.uid) in s.claims
                && s.claims[managed(k, d.uid)] == Claim(d.claim, d.rv, false, None)
  {
    var events :| s == Run(managed, START, events);
    RunAsRead(managed, START, events);
    assert AsRead(managed, s.h, s.claims, k, DeletingAt(s, k));
  }

  /** In every interleaving the delete hits only the claim that was confirmed,
      guarded for this cache and not terminating. */
  lemma DeletesWhatItConfirmed(managed: Naming, s: State, k: Name)
    requires Reachable(managed, s) && Deletes(managed, s, k, DeletingAt(s, k))
    ensures var d := DeletingAt(s, k); s.claims[managed(k, d.uid)] == Claim(d.claim, d.rv, false, Some(d.uid))
  {
    var events :| s == Run(managed, START, events);
    RunAsRead(managed, START, events);
    assert AsRead(managed, s.h, s.claims, k, DeletingAt(s, k));
  }

  predicate KeepsLocation(x: Art, y: Art) {
    x.live.Some? && x.live.value.location.Some? && y.live.Some? ==> y.live.value.location == x.live.value.location
  }

  lemma StepKeepsLocation(s: State, x: Art, step: ArtifactStep)
    requires !x.work.Resting? ==> SameVersion(s.h, x, x.work.copy)
    ensures KeepsLocation(x, Stepped(s, x, step))
  {
  }

  lemma ReachableArtifactOk(managed: Naming, s: State, a: Name)
    requires Injective(managed) && Reachable(managed, s)
    ensures ArtifactOk(s.h, ArtAt(s, a))
  {
    var events :| s == Run(managed, START, events);
    RunKeeps(managed, START, events);
  }

  lemma ArtUntouched(managed: Naming, s: State, e: Event, a: Name)
    requires !(e.ArtifactSteps? && e.a == a) && !(e.ArtifactChanges? && e.a == a)
    ensures ArtAt(Next(managed, s, e), a) == ArtAt(s, a)
  {
  }

  /** A committed location is never replaced. */
  lemma LocationWrittenOnce(managed: Naming, s: State, e: Event, a: Name)
    requires Injective(managed) && Reachable(managed, s)
    ensures KeepsLocation(ArtAt(s, a), ArtAt(Next(managed, s, e), a))
  {
    ReachableArtifactOk(managed, s, a);
    if e.ArtifactSteps? && e.a == a {
      StepKeepsLocation(s, ArtAt(s, a), e.artifactStep);
    } else if !(e.ArtifactChanges? && e.a == a) {
      ArtUntouched(managed, s, e, a);
    }
  }

  /** The cache, its claim, and the request to delete the cache. */
  lemma Requested(managed: Naming, k: Name) returns (s: State)
    ensures Reachable(managed, s) && s.arts == map[] && s.removing == map[] && s.h.doomed == {(k, 0)} && s.h.clock == 4
    ensures s.caches.Keys == {k} && s.claims == map[managed(k, 0) := Claim(2, 2, false, None)] && s.h.deleted == {}
  {
    assert Run(managed, START, []) == START;
    var s1 := Next(managed, START, CacheChanges(k, CreateCache(Managed, true)));
    Reach(managed, START, CacheChanges(k, CreateCache(Managed, true)), s1);
    var s2 := Next(managed, s1, CacheChanges(k, AddFinalizer));
    Reach(managed, s1, CacheChanges(k, AddFinalizer), s2);
    var s3 := Next(managed, s2, ClaimChanges(managed(k, 0), CreateClaim));
    Reach(managed, s2, ClaimChanges(managed(k, 0), CreateClaim), s3);
    s := Next(managed, s3, CacheChanges(k, DeleteCache));
    Reach(managed, s3, CacheChanges(k, DeleteCache), s);
  }

  /** Two reconciles, the second one on the guarded claim, delete it. */
  lemma DeletionHappens(managed: Naming, k: Name) returns (s: State)
    ensures Reachable(managed, s) && s.h.deleted == {2}
  {
    var n := managed(k, 0);
    var s0 := Requested(managed, k);
    var s1 := s0.(removing := map[k := Scanned(0)]);
    Reach(managed, s0, CacheSteps(k, StartDelete(0)), s1);
    var s2 := s1.(removing := map[k := Guarding(0, 2, 2)]);
    Reach(managed, s1, CacheSteps(k, ReadClaim), s2);
    var s3 := s2.(removing := map[k := Free], h := Tick(s2.h), claims := map[n := Claim(2, 4, false, Some(0))]);
    Reach(managed, s2, CacheSteps(k, AddGuard), s3);
    var s4 := s3.(removing := map[k := Scanned(0)]);
    Reach(managed, s3, CacheSteps(k, StartDelete(0)), s4);
    s := DeletionGoesThrough(managed, k, s4);
  }

  lemma DeletionGoesThrough(managed: Naming, k: Name, s: State) returns (t: State)
    requires Reachable(managed, s) && s.removing == map[k := Scanned(0)] && s.arts == map[] && s.caches.Keys == {k}
    requires (k, 0) in s.h.doomed && s.claims == map[managed(k, 0) := Claim(2, 4, false, Some(0))] && s.h.deleted == {}
    ensures Reachable(managed, t) && t.h.deleted == {2}
  {
    var s1 := s.(removing := map[k := Guarded(0, 2)]);
    Reach(managed, s, CacheSteps(k, ReadClaim), s1);
    var s2 := s.(removing := map[k := NoAdopter(0, 2)]);
    Reach(managed, s1, CacheSteps(k, ScanCaches), s2);
    t := ScanGoesThrough(managed, k, s2);
  }

  lemma ScanGoesThrough(managed: Naming, k: Name, s: State) returns (t: State)
    requires Reachable(managed, s) && s.removing == map[k := NoAdopter(0, 2)] && s.arts == map[]
    requires (k, 0) in s.h.doomed && s.claims == map[managed(k, 0) := Claim(2, 4, false, Some(0))] && s.h.deleted == {}
    ensures Reachable(managed, t) && t.h.deleted == {2}
  {
    var s3 := s.(removing := map[k := NoRefs(0, 2)]);
    Reach(managed, s, CacheSteps(k, ScanArtifacts), s3);
    var s4 := s.(removing := map[k := Confirmed(0, 2, 4)]);
    Reach(managed, s3, CacheSteps(k, Confirm), s4);
    t := Next(managed, s4, CacheSteps(k, DeleteClaim));
    Reach(managed, s4, CacheSteps(k, DeleteClaim), t);
  }
}
