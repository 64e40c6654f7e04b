/** The lease an artifact holds while it imports.

    Artifacts with the same source and cache compete for one lease: create it,
    or read it, judge it, and write it under the version read; release deletes
    it under its identity and version. Time passes between any two steps, and
    the renewal time written is the time the attempt began.
 */
module Lease {
  import opened Basics

  type Uid = string

  /** Seconds on one monotone clock. */
  type Time = int

  datatype LeaseObject = LeaseObject(uid: nat, rv: nat, holder: Option<Uid>, renew: Option<Time>,
    duration: Option<nat>, acquired: Option<Time>)

  /** `leaseExpired`. */
  predicate Expired(l: LeaseObject, now: Time) {
    l.renew.None? || l.duration.None? || l.renew.value + l.duration.value < now
  }

  /** Where the reconcile of an artifact stands. `began` is the time written. */
  datatype Work =
    | Resting
    | Creating(began: Time)
    | Reading(began: Time)
    | Read(began: Time, copy: LeaseObject)
    | Judged(began: Time, copy: LeaseObject, expired: bool)
    | Releasing
    | Deleting(copy: LeaseObject)

  /** `held` is what the artifact believes: that it acquired the lease, with
      this renewal time, and has not begun to release it. */
  datatype Actor = Actor(work: Work, held: Option<Time>)

  datatype State = State(now: Time, clock: nat, lease: Option<LeaseObject>, actors: map<Uid, Actor>)

  function ActorAt(s: State, a: Uid): Actor {
    if a in s.actors then s.actors[a] else Actor(Resting, None)
  }

  function Put(s: State, a: Uid, x: Actor): State {
    s.(actors := s.actors[a := x])
  }

  datatype Step = Crash | BeginAcquire | Create | Get | Judge | Update | BeginRelease | GetForRelease | Delete

  datatype Event = Wait(seconds: nat) | Act(a: Uid, step: Step)

  /** What an update writes. */
  function Renewed(l: LeaseObject, clock: nat, a: Uid, began: Time, duration: nat, expired: bool): LeaseObject {
    l.(rv := clock, holder := Some(a), duration := Some(duration), renew := Some(began),
       acquired := if l.acquired.None? || expired then Some(began) else l.acquired)
  }

  predicate Current(s: State, copy: LeaseObject) {
    s.lease.Some? && s.lease.value.uid == copy.uid && s.lease.value.rv == copy.rv
  }

  function Acting(duration: nat, s: State, a: Uid, step: Step): State {
    var x := ActorAt(s, a);
    match step
    case Crash => Put(s, a, Actor(Resting, None))
    case BeginAcquire => if x.work.Resting? then Put(s, a, x.(work := Creating(s.now))) else s
    case Create =>
      if !x.work.Creating? then s
      else if s.lease.Some? then Put(s, a, x.(work := Reading(x.work.began)))
      else
        var l := LeaseObject(s.clock, s.clock, Some(a), Some(x.work.began), Some(duration), Some(x.work.began));
        Put(s.(lease := Some(l), clock := s.clock + 1), a, Actor(Resting, Some(x.work.began)))
    case Get =>
      if !x.work.Reading? then s
      else Put(s, a, x.(work := if s.lease.Some? then Read(x.work.began, s.lease.value) else Resting))
    case Judge =>
      if !x.work.Read? then s
      else
        var expired := Expired(x.work.copy, s.now);
        var free := x.work.copy.holder.None? || x.work.copy.holder.value == a || expired;
        Put(s, a, x.(work := if free then Judged(x.work.began, x.work.copy, expired) else Resting))
    case Update =>
      if !x.work.Judged? then s
      else if Current(s, x.work.copy) then
        var l := Renewed(s.lease.value, s.clock, a, x.work.began, duration, x.work.expired);
        Put(s.(lease := Some(l), clock := s.clock + 1), a, Actor(Resting, Some(x.work.began)))
      else Put(s, a, x.(work := Resting))
    case BeginRelease => if x.work.Resting? then Put(s, a, Actor(Releasing, None)) else s
    case GetForRelease =>
      if !x.work.Releasing? then s
      else Put(s, a, x.(work := if s.lease.Some? && s.lease.value.holder == Some(a) then Deleting(s.lease.value)
          else Resting))
    case Delete =>
      if !x.work.Deleting? then s
      else if Current(s, x.work.copy) then Put(s.(lease := None), a, x.(work := Resting))
      else Put(s, a, x.(work := Resting))
  }

  function Next(duration: nat, s: State, e: Event): State {
    match e
    case Wait(seconds) => s.(now := s.now + seconds)
    case Act(a, step) => Acting(duration, s, a, step)
  }

  function Run(duration: nat, s: State, events: seq<Event>): State
    decreases |events|
  {
    if events == [] then s else Run(duration, Next(duration, s, events[0]), events[1..])
  }

  function Start(now: Time): State {
    State(now, 0, None, map[])
  }

  // ---- the invariant ----------------------------------------------------------------------

  ghost predicate LeaseOk(s: State) {
    s.lease.Some? ==> s.lease.value.rv < s.clock && s.lease.value.uid < s.clock && s.lease.value.acquired.Some?
  }

  /** A copy with the version of the lease is the lease. */
  ghost predicate CopyOk(s: State, copy: LeaseObject) {
    copy.rv < s.clock && (s.lease.Some? && s.lease.value.rv == copy.rv ==> s.lease.value == copy)
  }

  ghost predicate WorkOk(s: State, a: Uid, x: Actor) {
    match x.work
    case Resting => true
    case Creating(began) => Began(s, x, began)
    case Reading(began) => Began(s, x, began)
    case Read(began, copy) => Began(s, x, began) && CopyOk(s, copy)
    case Judged(began, copy, expired) =>
      && Began(s, x, began) && CopyOk(s, copy) && (expired ==> Expired(copy, s.now))
      && (copy.holder.None? || copy.holder.value == a || expired)
    case Releasing => x.held.None?
    case Deleting(copy) => x.held.None? && CopyOk(s, copy) && copy.holder == Some(a)
  }

  /** An attempt begins after the acquisition it renews. */
  ghost predicate Began(s: State, x: Actor, began: Time) {
    began <= s.now && (x.held.Some? ==> x.held.value <= began)
  }

  /** A belief that has not run out is true. */
  ghost predicate HeldOk(duration: nat, s: State, a: Uid, x: Actor) {
    x.held.Some? ==>
      && x.held.value <= s.now
      && (s.now <= x.held.value + duration ==>
            && s.lease.Some? && s.lease.value.holder == Some(a)
            && s.lease.value.renew.Some? && s.lease.value.renew.value >= x.held.value
                && s.lease.value.duration == Some(duration))
  }

  ghost predicate ActorOk(duration: nat, s: State, a: Uid) {
    WorkOk(s, a, ActorAt(s, a)) && HeldOk(duration, s, a, ActorAt(s, a))
  }

  ghost predicate Inv(duration: nat, s: State) {
    LeaseOk(s) && forall a :: ActorOk(duration, s, a)
  }

  /** The time the lease was last renewed for is not over. */
  predicate Unexpired(l: LeaseObject, now: Time) {
    l.renew.Some? && l.duration.Some? && now <= l.renew.value + l.duration.value
  }

  /** The lease was held by `h` and had not expired; now `h` has lost it. */
  predicate Displaced(s: State, t: State, h: Uid) {
    && s.lease.Some? && s.lease.value.holder == Some(h) && Unexpired(s.lease.value, s.now)
    && (t.lease.None? || t.lease.value.holder != Some(h))
  }

  lemma ActingActor(duration: nat, s: State, a: Uid, step: Step)
    requires Inv(duration, s)
    ensures LeaseOk(Acting(duration, s, a, step)) && ActorOk(duration, Acting(duration, s, a, step), a)
  {
    assert ActorOk(duration, s, a);
  }

  lemma ActingOther(duration: nat, s: State, a: Uid, step: Step, b: Uid)
    requires Inv(duration, s) && b != a
    ensures ActorOk(duration, Acting(duration, s, a, step), b)
  {
    assert ActorOk(duration, s, a) && ActorOk(duration, s, b);
    var t := Acting(duration, s, a, step);
    assert ActorAt(t, b) == ActorAt(s, b) && t.now == s.now && s.clock <= t.clock;
  }

  lemma WaitKeeps(duration: nat, s: State, seconds: nat, a: Uid)
    requires ActorOk(duration, s, a)
    ensures ActorOk(duration, s.(now := s.now + seconds), a)
  {
  }

  lemma NextKeeps(duration: nat, s: State, e: Event)
    requires Inv(duration, s)
    ensures Inv(duration, Next(duration, s, e))
  {
    var t := Next(duration, s, e);
    match e {
      case Wait(seconds) => forall b ensures ActorOk(duration, t, b) { WaitKeeps(duration, s, seconds, b); }
      case Act(a, step) =>
        ActingActor(duration, s, a, step);
        forall b ensures ActorOk(duration, t, b) { if b != a { ActingOther(duration, s, a, step, b); } }
    }
  }

  lemma {:induction false} RunKeeps(duration: nat, s: State, events: seq<Event>)
    requires Inv(duration, s)
    ensures Inv(duration, Run(duration, s, events))
    decreases |events|
  {
    if events != [] {
      NextKeeps(duration, s, events[0]);
      RunKeeps(duration, Next(duration, s, events[0]), events[1..]);
    }
  }

  // ---- the results ----------------------------------------------------------------------------

  ghost predicate Reachable(duration: nat, s: State) {
    exists now, events :: s == Run(duration, Start(now), events)
  }

  lemma ReachableOk(duration: nat, s: State)
    requires Reachable(duration, s)
    ensures Inv(duration, s)
  {
    var now, events :| s == Run(duration, Start(now), events);
    RunKeeps(duration, Start(now), events);
  }

  /** An unexpired holder loses the lease only by its own release. */
  lemma DisplacedOnlyByRelease(duration: nat, s: State, e: Event, h: Uid)
    requires Reachable(duration, s) && Displaced(s, Next(duration, s, e), h)
    ensures e == Act(h, Delete)
  {
    ReachableOk(duration, s);
    if e.Act? { assert ActorOk(duration, s, e.a); }
  }

  /** Nobody deletes a lease that another artifact holds. */
  lemma DeletesOnlyItsOwn(duration: nat, s: State, a: Uid)
    requires Reachable(duration, s) && s.lease.Some? && Next(duration, s, Act(a, Delete)).lease.None?
    ensures s.lease.value.holder == Some(a)
  {
    ReachableOk(duration, s);
    assert ActorOk(duration, s, a);
  }

  /** At no time do two artifacts both have an acquisition that has not run
      out, and the one that has it is the holder. */
  lemma OneHolder(duration: nat, s: State, a: Uid, b: Uid)
    requires Reachable(duration, s)
    requires var x := ActorAt(s, a).held; x.Some? && s.now <= x.value + duration
    requires var y := ActorAt(s, b).held; y.Some? && s.now <= y.value + duration
    ensures a == b && s.lease.Some? && s.lease.value.holder == Some(a) && Unexpired(s.lease.value, s.now)
  {
    ReachableOk(duration, s);
    assert ActorOk(duration, s, a) && ActorOk(duration, s, b);
  }

  /** An attempt of `a` from its start to its write, one step right after the other. */
  function Attempted(duration: nat, s: State, a: Uid): State {
    var t1 := Next(duration, s, Act(a, BeginAcquire));
    var t2 := Next(duration, t1, Act(a, Create));
    var t3 := Next(duration, t2, Act(a, Get));
    var t4 := Next(duration, t3, Act(a, Judge));
    Next(duration, t4, Act(a, Update))
  }

  /** Nobody else holds the lease, or not any more. */
  predicate Free(l: LeaseObject, a: Uid, now: Time) {
    l.holder.None? || l.holder.value == a || !Unexpired(l, now)
  }

  /** An undisturbed attempt creates the lease if there is none, takes or renews
      it exactly when it is free, for the time it began, and otherwise leaves it
      as it is; a lease that has not expired keeps the time it was acquired. */
  lemma AttemptDecides(duration: nat, s: State, a: Uid)
    requires ActorAt(s, a).work.Resting?
    ensures var t, free := Attempted(duration, s, a), s.lease.None? || Free(s.lease.value, a, s.now);
            && t.now == s.now && (forall b :: b != a ==> ActorAt(t, b) == ActorAt(s, b))
            && ActorAt(t, a) == Actor(Resting, if free then Some(s.now) else ActorAt(s, a).held)
            && (if !free then t.lease == s.lease
                else
                  && t.lease.Some? && t.lease.value.rv == s.clock < t.clock
                  && t.lease.value.holder == Some(a) && t.lease.value.renew == Some(s.now)
                  && t.lease.value.duration == Some(duration)
                  && t.lease.value.uid == (if s.lease.None? then s.clock else s.lease.value.uid)
                  && t.lease.value.acquired ==
                       if s.lease.Some? && s.lease.value.acquired.Some? && Unexpired(s.lease.value, s.now)
                       then s.lease.value.acquired else Some(s.now))
  {
  }

  function Released(duration: nat, s: State, a: Uid): State {
    var t1 := Next(duration, s, Act(a, BeginRelease));
    var t2 := Next(duration, t1, Act(a, GetForRelease));
    Next(duration, t2, Act(a, Delete))
  }

  /** An undisturbed release removes the lease exactly when the artifact holds it. */
  lemma ReleaseDecides(duration: nat, s: State, a: Uid)
    requires ActorAt(s, a).work.Resting?
    ensures var t := Released(duration, s, a);
            && t.now == s.now && (forall b :: b != a ==> ActorAt(t, b) == ActorAt(s, b))
            && ActorAt(t, a) == Actor(Resting, None)
            && t.lease == if s.lease.Some? && s.lease.value.holder == Some(a) then None else s.lease
  {
  }

  /** While it is not expired, a lease keeps the time it was acquired. */
  lemma AcquiredKept(duration: nat, s: State, e: Event)
    requires Reachable(duration, s) && s.lease.Some? && Unexpired(s.lease.value, s.now)
    requires var t := Next(duration, s, e); t.lease.Some? && t.lease.value.uid == s.lease.value.uid
    ensures s.lease.value.acquired.Some? && Next(duration, s, e).lease.value.acquired == s.lease.value.acquired
  {
    ReachableOk(duration, s);
    if e.Act? { assert ActorOk(duration, s, e.a); }
  }
}
