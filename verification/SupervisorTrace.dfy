/** What readiness and the reported inventory rest on, over whole runs. */
module SupervisorTrace {
  import opened Basics
  import opened Supervisor

  function Past(accelerator: bool, events: seq<Event>, i: nat): State
    requires i <= |events|
  {
    Run(Initial(accelerator), events[..i])
  }

  lemma {:induction false} RunAppend(s: State, events: seq<Event>, e: Event)
    ensures Run(s, events + [e]) == Step(Run(s, events), e)
    decreases |events|
  {
    if events == [] {
      assert events + [e] == [e];
      assert Run(Step(s, e), []) == Step(s, e);
    } else {
      assert (events + [e])[1..] == events[1..] + [e];
      RunAppend(Step(s, events[0]), events[1..], e);
    }
  }

  // ---- readiness --------------------------------------------------------------------------------

  /** The log has confirmed one device and the offload of all layers to it. */
  predicate FullyOffloaded(i: Inventory) {
    i.detected && i.visible == Some(1) && i.total.Some? && i.total.value >= 1 && i.offloaded == i.total
  }

  /** A probe of the launched child, begun at step `i` and answered at step `j`. */
  ghost predicate BegunAt(accelerator: bool, events: seq<Event>, i: nat) {
    && i < |events| && events[i] == BeginProbe
    && var s := Past(accelerator, events, i); s.starter.Launched? && !Terminal(s.phase)
  }

  predicate Unanswered(events: seq<Event>, i: nat, j: nat) {
    forall m :: i < m < j && m < |events| ==> !events[m].Respond?
  }

  ghost predicate PassedAt(accelerator: bool, events: seq<Event>, i: nat, j: nat) {
    && BegunAt(accelerator, events, i) && i < j < |events| && Unanswered(events, i, j) && events[j] == Respond(true)
    && (accelerator ==> FullyOffloaded(Past(accelerator, events, j).inventory))
  }

  predicate Uncommitted(events: seq<Event>, j: nat, k: nat) {
    forall m :: j < m < k && m < |events| ==> !events[m].Commit?
  }

  /** And committed at step `k`, at once ready. */
  ghost predicate CommittedAt(accelerator: bool, events: seq<Event>, i: nat, j: nat, k: nat) {
    && PassedAt(accelerator, events, i, j) && j < k < |events| && Uncommitted(events, j, k) && events[k] == Commit
    && !Terminal(Past(accelerator, events, k).phase) && Past(accelerator, events, k + 1).ready
  }

  ghost predicate ReadySince(accelerator: bool, events: seq<Event>, k: nat) {
    forall m :: k < m <= |events| ==> Past(accelerator, events, m).phase.Ready?
  }

  ghost predicate Probed(accelerator: bool, events: seq<Event>) {
    exists i: nat :: BegunAt(accelerator, events, i) && Unanswered(events, i, |events|)
  }

  ghost predicate Passed(accelerator: bool, events: seq<Event>) {
    exists i: nat, j: nat :: PassedAt(accelerator, events, i, j) && Uncommitted(events, j, |events|)
  }

  ghost predicate IsReady(accelerator: bool, events: seq<Event>) {
    exists i: nat, j: nat, k: nat ::
      CommittedAt(accelerator, events, i, j, k) && ReadySince(accelerator, events, k)
  }

  ghost predicate WasReady(accelerator: bool, events: seq<Event>) {
    exists i: nat, j: nat, k: nat :: CommittedAt(accelerator, events, i, j, k)
  }

  /** What the state says is backed by what has happened. */
  ghost predicate Backed(accelerator: bool, events: seq<Event>, s: State) {
    && (s.prober.Probing? ==> Probed(accelerator, events))
    && (s.prober.Approved? ==> Passed(accelerator, events))
    && (s.phase.Ready? ==> IsReady(accelerator, events))
    && (s.becameReady ==> WasReady(accelerator, events))
  }

  lemma PastStays(accelerator: bool, events: seq<Event>, e: Event, i: nat)
    requires i <= |events|
    ensures Past(accelerator, events + [e], i) == Past(accelerator, events, i)
  {
    assert (events + [e])[..i] == events[..i];
  }

  lemma PassedAtStays(accelerator: bool, events: seq<Event>, e: Event, i: nat, j: nat)
    requires PassedAt(accelerator, events, i, j)
    ensures PassedAt(accelerator, events + [e], i, j)
  {
    PastStays(accelerator, events, e, i);
    PastStays(accelerator, events, e, j);
  }

  lemma CommittedAtStays(accelerator: bool, events: seq<Event>, e: Event, i: nat, j: nat, k: nat)
    requires CommittedAt(accelerator, events, i, j, k)
    ensures CommittedAt(accelerator, events + [e], i, j, k)
  {
    PassedAtStays(accelerator, events, e, i, j);
    PastStays(accelerator, events, e, k);
    PastStays(accelerator, events, e, k + 1);
  }

  /** The prober is past its look at the inventory and commits. */
  predicate Commits(s: State, e: Event) {
    e.Commit? && s.prober.Approved? && !Terminal(s.phase)
  }

  /** What a step does to the prober and to readiness. */
  predicate Moves(s: State, e: Event, t: State) {
    && t.accelerator == s.accelerator
    && (t.prober.Probing? ==>
          (s.prober.Probing? && !e.Respond?) || (e.BeginProbe? && s.starter.Launched? && !Terminal(s.phase)))
    && (t.prober.Approved? ==>
          || (s.prober.Approved? && !e.Commit?)
          || (s.prober.Probing? && e == Respond(true) && (s.accelerator ==> FullyOffloaded(s.inventory))))
    && (t.phase.Ready? ==> s.phase.Ready? || Commits(s, e))
    && (t.becameReady ==> s.becameReady || Commits(s, e))
    && (Commits(s, e) ==> t.ready && t.phase.Ready?)
  }

  lemma StepMoves(s: State, e: Event)
    ensures Moves(s, e, Step(s, e))
  {
  }

  /** `t` follows `s` at the end of the run. */
  ghost predicate Follows(accelerator: bool, events: seq<Event>, s: State, e: Event, t: State) {
    && s.accelerator == accelerator && Moves(s, e, t)
    && Past(accelerator, events + [e], |events|) == s && Past(accelerator, events + [e], |events| + 1) == t
  }

  lemma ProbedStep(accelerator: bool, events: seq<Event>, s: State, e: Event, t: State)
    requires Follows(accelerator, events, s, e, t) && (s.prober.Probing? ==> Probed(accelerator, events))
    ensures t.prober.Probing? ==> Probed(accelerator, events + [e])
  {
    var more := events + [e];
    if t.prober.Probing? {
      if s.prober.Probing? && !e.Respond? {
        var i: nat :| BegunAt(accelerator, events, i) && Unanswered(events, i, |events|);
        PastStays(accelerator, events, e, i);
        assert BegunAt(accelerator, more, i) && Unanswered(more, i, |more|);
      } else {
        assert BegunAt(accelerator, more, |events|) && Unanswered(more, |events|, |more|);
      }
    }
  }

  lemma PassedNow(accelerator: bool, events: seq<Event>, s: State, e: Event, t: State)
    requires Follows(accelerator, events, s, e, t) && Probed(accelerator, events)
    requires e == Respond(true) && (s.accelerator ==> FullyOffloaded(s.inventory))
    ensures Passed(accelerator, events + [e])
  {
    var more := events + [e];
    var i: nat :| BegunAt(accelerator, events, i) && Unanswered(events, i, |events|);
    PastStays(accelerator, events, e, i);
    assert PassedAt(accelerator, more, i, |events|) && Uncommitted(more, |events|, |more|);
  }

  lemma PassedStep(accelerator: bool, events: seq<Event>, s: State, e: Event, t: State)
    requires Follows(accelerator, events, s, e, t) && Backed(accelerator, events, s)
    ensures t.prober.Approved? ==> Passed(accelerator, events + [e])
  {
    if t.prober.Approved? {
      if s.prober.Approved? && !e.Commit? {
        var i: nat, j: nat :| PassedAt(accelerator, events, i, j) && Uncommitted(events, j, |events|);
        PassedAtStays(accelerator, events, e, i, j);
        assert Uncommitted(events + [e], j, |events| + 1);
      } else {
        PassedNow(accelerator, events, s, e, t);
      }
    }
  }

  lemma CommitBacks(accelerator: bool, events: seq<Event>, s: State, e: Event, t: State)
    requires Follows(accelerator, events, s, e, t) && Commits(s, e) && Passed(accelerator, events)
    ensures IsReady(accelerator, events + [e]) && WasReady(accelerator, events + [e])
  {
    var more, k := events + [e], |events|;
    var i: nat, j: nat :| PassedAt(accelerator, events, i, j) && Uncommitted(events, j, |events|);
    PassedAtStays(accelerator, events, e, i, j);
    assert CommittedAt(accelerator, more, i, j, k) && ReadySince(accelerator, more, k);
  }

  lemma ReadyStays(accelerator: bool, events: seq<Event>, s: State, e: Event, t: State)
    requires Follows(accelerator, events, s, e, t) && t.phase.Ready? && IsReady(accelerator, events)
    ensures IsReady(accelerator, events + [e])
  {
    var more := events + [e];
    var i: nat, j: nat, k: nat :| CommittedAt(accelerator, events, i, j, k) && ReadySince(accelerator, events, k);
    CommittedAtStays(accelerator, events, e, i, j, k);
    forall m | k < m <= |more| ensures Past(accelerator, more, m).phase.Ready? {
      if m <= |events| { PastStays(accelerator, events, e, m); }
    }
    assert ReadySince(accelerator, more, k);
  }

  lemma WasReadyStays(accelerator: bool, events: seq<Event>, e: Event)
    requires WasReady(accelerator, events)
    ensures WasReady(accelerator, events + [e])
  {
    var i: nat, j: nat, k: nat :| CommittedAt(accelerator, events, i, j, k);
    CommittedAtStays(accelerator, events, e, i, j, k);
  }

  lemma ReadyStep(accelerator: bool, events: seq<Event>, s: State, e: Event, t: State)
    requires Follows(accelerator, events, s, e, t) && Backed(accelerator, events, s)
    ensures (t.phase.Ready? ==> IsReady(accelerator, events + [e]))
    ensures (t.becameReady ==> WasReady(accelerator, events + [e]))
  {
    if Commits(s, e) {
      CommitBacks(accelerator, events, s, e, t);
    } else {
      if t.phase.Ready? { ReadyStays(accelerator, events, s, e, t); }
      if t.becameReady { WasReadyStays(accelerator, events, e); }
    }
  }

  lemma BackedStep(accelerator: bool, events: seq<Event>, s: State, e: Event, t: State)
    requires Follows(accelerator, events, s, e, t) && Backed(accelerator, events, s)
    ensures Backed(accelerator, events + [e], t)
  {
    ProbedStep(accelerator, events, s, e, t);
    PassedStep(accelerator, events, s, e, t);
    ReadyStep(accelerator, events, s, e, t);
  }

  lemma FollowsNext(accelerator: bool, events: seq<Event>, s: State, e: Event)
    requires s == Run(Initial(accelerator), events) && s.accelerator == accelerator
    ensures Follows(accelerator, events, s, e, Step(s, e))
    ensures Run(Initial(accelerator), events + [e]) == Step(s, e)
  {
    RunAppend(Initial(accelerator), events, e);
    StepMoves(s, e);
    assert (events + [e])[..|events|] == events && (events + [e])[..|events|+1] == events + [e];
  }

  lemma {:induction false} AlwaysBacked(accelerator: bool, events: seq<Event>)
    ensures var s := Run(Initial(accelerator), events); Backed(accelerator, events, s) && s.accelerator == accelerator
    decreases |events|
  {
    if events != [] {
      var before, e := events[..|events|-1], events[|events|-1];
      assert events == before + [e];
      AlwaysBacked(accelerator, before);
      var s := Run(Initial(accelerator), before);
      FollowsNext(accelerator, before, s, e);
      BackedStep(accelerator, before, s, e, Step(s, e));
    }
  }

  /** In every run: a supervisor that is ready was made so by one probe of the
      launched child, begun, answered by all endpoints as required and, in
      accelerator mode, answered when the log had confirmed exactly one device
      and the offload of all layers; it has been ready ever since. And one that
      was ever ready was made so by such a probe. */
  lemma ReadyWasProbed(accelerator: bool, events: seq<Event>)
    ensures var s := Run(Initial(accelerator), events);
            && (s.ready ==> exists i: nat, j: nat, k: nat ::
                  CommittedAt(accelerator, events, i, j, k) && ReadySince(accelerator, events, k))
            && (s.becameReady ==> exists i: nat, j: nat, k: nat :: CommittedAt(accelerator, events, i, j, k))
  {
    AlwaysBacked(accelerator, events);
    RunKeeps(Initial(accelerator), events);
  }

  /** A probe from its start to its last section, one step right after the other. */
  function ProbedOnce(s: State, ok: bool): State {
    var answered := Step(Step(s, BeginProbe), Respond(ok));
    Step(Step(answered, Commit), Refuse)
  }

  /** Undisturbed, a probe of a launched child makes it ready exactly when the
      endpoints answer as required and the log has confirmed what it must, and
      otherwise makes it load again. */
  lemma ProbeDecides(s: State, ok: bool)
    requires s.starter.Launched? && s.prober.Resting? && !Terminal(s.phase)
    ensures var pass := ok && (s.accelerator ==> FullyOffloaded(s.inventory));
            ProbedOnce(s, ok) == s.(phase := if pass then Ready else Loading, ready := pass,
                                  becameReady := s.becameReady || pass)
  {
  }

  // ---- the inventory ------------------------------------------------------------------------------

  /** What a line of the log tells, one thing at a time. */
  datatype Fact = Count(n: int) | Layers(offloaded: int, total: int) | Device(index: nat, name: string)

  function Heard(i: Inventory, f: Fact): Inventory {
    match f
    case Count(n) => Counted(i, n)
    case Layers(offloaded, total) => Offload(i, offloaded, total)
    case Device(index, name) => Observed(i, index, name)
  }

  function Hear(facts: seq<Fact>): Inventory
    decreases |facts|
  {
    if facts == [] then NOTHING_SEEN else Heard(Hear(facts[..|facts|-1]), facts[|facts|-1])
  }

  function FactsOf(line: Line): seq<Fact> {
    CountOf(line) + LayersOf(line) + DeviceOf(line.legacy) + DeviceOf(line.inventory)
  }

  /** Everything the log has told. */
  function Told(events: seq<Event>): seq<Fact>
    decreases |events|
  {
    if events == [] then []
    else
      var last := events[|events|-1];
      Told(events[..|events|-1]) + (if last.Log? then FactsOf(last.line) else [])
  }

  lemma HearMore(facts: seq<Fact>, f: Fact)
    ensures Hear(facts + [f]) == Heard(Hear(facts), f)
  {
    assert (facts + [f])[..|facts|] == facts;
  }

  function CountOf(line: Line): seq<Fact> {
    if line.count.Some? then [Count(line.count.value)] else []
  }

  function LayersOf(line: Line): seq<Fact> {
    if line.offload.Some? then [Layers(line.offload.value.0, line.offload.value.1)] else []
  }

  function DeviceOf(device: Option<(nat, string)>): seq<Fact> {
    if device.Some? then [Device(device.value.0, device.value.1)] else []
  }

  lemma CountHears(facts: seq<Fact>, line: Line)
    ensures CountedIf(Hear(facts), line.count) == Hear(facts + CountOf(line))
  {
    if line.count.Some? { HearMore(facts, Count(line.count.value)); } else { assert facts + CountOf(line) == facts; }
  }

  lemma LayersHears(facts: seq<Fact>, line: Line)
    ensures OffloadIf(Hear(facts), line.offload) == Hear(facts + LayersOf(line))
  {
    if line.offload.Some? {
      HearMore(facts, Layers(line.offload.value.0, line.offload.value.1));
    } else {
      assert facts + LayersOf(line) == facts;
    }
  }

  lemma DeviceHears(facts: seq<Fact>, device: Option<(nat, string)>)
    ensures ObservedIf(Hear(facts), device) == Hear(facts + DeviceOf(device))
  {
    if device.Some? {
      HearMore(facts, Device(device.value.0, device.value.1));
    } else {
      assert facts + DeviceOf(device) == facts;
    }
  }

  lemma Concatenated<T>(facts: seq<T>, a: seq<T>, b: seq<T>, c: seq<T>, d: seq<T>)
    ensures facts + a + b + c + d == facts + (a + b + c + d)
  {
  }

  lemma NotedHears(facts: seq<Fact>, line: Line)
    ensures Noted(Hear(facts), line) == Hear(facts + FactsOf(line))
  {
    var a := facts + CountOf(line);
    var b := a + LayersOf(line);
    var c := b + DeviceOf(line.legacy);
    CountHears(facts, line);
    LayersHears(a, line);
    DeviceHears(b, line.legacy);
    DeviceHears(c, line.inventory);
    Concatenated(facts, CountOf(line), LayersOf(line), DeviceOf(line.legacy), DeviceOf(line.inventory));
  }

  lemma StepHears(s: State, e: Event)
    ensures Step(s, e).inventory == (if e.Log? && s.accelerator then Noted(s.inventory, e.line) else s.inventory)
  {
  }

  lemma {:induction false} InventoryHears(accelerator: bool, events: seq<Event>)
    ensures Run(Initial(accelerator), events).inventory == if accelerator then Hear(Told(events)) else NOTHING_SEEN
    decreases |events|
  {
    if events != [] {
      var before, e := events[..|events|-1], events[|events|-1];
      assert events == before + [e];
      InventoryHears(accelerator, before);
      AlwaysBacked(accelerator, before);
      RunAppend(Initial(accelerator), before, e);
      StepHears(Run(Initial(accelerator), before), e);
      if e.Log? { NotedHears(Told(before), e.line); } else { assert Told(before) + [] == Told(before); }
    }
  }

  predicate Valid(f: Fact) {
    match f
    case Count(_) => true
    case Layers(offloaded, total) => offloaded <= total
    case Device(index, name) => index <= 65535 && name != ""
  }

  /** The first name a device was told under. */
  ghost predicate FirstName(facts: seq<Fact>, index: nat, name: string) {
    exists i :: 0 <= i < |facts| && facts[i] == Device(index, name) && Valid(facts[i]) &&
      forall j :: 0 <= j < i ==> !(facts[j].Device? && facts[j].index == index && Valid(facts[j]))
  }

  /** The last numbers of layers that make sense. */
  ghost predicate LastLayers(facts: seq<Fact>, offloaded: int, total: int) {
    exists i :: 0 <= i < |facts| && facts[i] == Layers(offloaded, total) && Valid(facts[i]) &&
      forall j :: i < j < |facts| ==> !(facts[j].Layers? && Valid(facts[j]))
  }

  ghost predicate DevicesTold(facts: seq<Fact>, devices: map<nat, string>) {
    && (forall k, name :: Device(k, name) in facts && Valid(Device(k, name)) ==> k in devices)
    && (forall k :: k in devices ==> FirstName(facts, k, devices[k]))
  }

  ghost predicate VisibleTold(facts: seq<Fact>, i: Inventory) {
    && (forall n :: Count(n) in facts ==> i.visible.Some? && i.visible.value >= n)
    && (i.devices != map[] ==> i.visible.Some?)
    && (i.visible.Some? ==> i.visible.value >= |i.devices|)
    && (i.visible.Some? ==> i.visible.value == |i.devices| || Count(i.visible.value) in facts)
    && (i.visible.Some? ==> i.devices != map[] || exists n :: Count(n) in facts)
    && i.device == if i.visible == Some(1) && |i.devices| == 1 then OnlyDevice(i.devices) else ""
  }

  ghost predicate LayersTold(facts: seq<Fact>, i: Inventory) {
    && (i.offloaded.Some? <==> i.total.Some?)
    && (i.total.Some? ==> i.offloaded.value <= i.total.value && LastLayers(facts, i.offloaded.value, i.total.value))
    && (forall f :: f in facts && f.Layers? && Valid(f) ==> i.total.Some?)
    && (i.detected <==> || (i.visible.Some? && i.visible.value > 0)
                        || exists f :: f in facts && f.Layers? && Valid(f) && f.offloaded > 0)
  }

  lemma MoreFirst(facts: seq<Fact>, f: Fact, index: nat, name: string)
    requires FirstName(facts, index, name)
    ensures FirstName(facts + [f], index, name)
  {
    var i :| 0 <= i < |facts| && facts[i] == Device(index, name) && Valid(facts[i]) &&
      forall j :: 0 <= j < i ==> !(facts[j].Device? && facts[j].index == index && Valid(facts[j]));
    assert (facts + [f])[i] == Device(index, name);
  }

  lemma NewFirst(facts: seq<Fact>, devices: map<nat, string>, f: Fact)
    requires DevicesTold(facts, devices) && f.Device? && Valid(f) && f.index !in devices
    ensures FirstName(facts + [f], f.index, f.name)
  {
    forall j | 0 <= j < |facts| ensures !(facts[j].Device? && facts[j].index == f.index && Valid(facts[j])) {
      if facts[j].Device? && Valid(facts[j]) {
        assert facts[j] in facts && facts[j] == Device(facts[j].index, facts[j].name);
      }
    }
    assert (facts + [f])[|facts|] == Device(f.index, f.name);
  }

  lemma DevicesStep(facts: seq<Fact>, i: Inventory, f: Fact)
    requires DevicesTold(facts, i.devices)
    ensures DevicesTold(facts + [f], Heard(i, f).devices)
  {
    var more, after := facts + [f], Heard(i, f).devices;
    forall k | k in after ensures FirstName(more, k, after[k]) {
      if k in i.devices { MoreFirst(facts, f, k, i.devices[k]); } else { NewFirst(facts, i.devices, f); }
    }
    forall k, name | Device(k, name) in more && Valid(Device(k, name)) ensures k in after {
      if Device(k, name) in facts { } else { assert f == Device(k, name); }
    }
  }

  lemma CountStep(facts: seq<Fact>, i: Inventory, n: int)
    requires VisibleTold(facts, i)
    ensures VisibleTold(facts + [Count(n)], Counted(i, n))
  {
    assert (facts + [Count(n)])[|facts|] == Count(n);
  }

  lemma DeviceStep(facts: seq<Fact>, i: Inventory, f: Fact)
    requires VisibleTold(facts, i) && f.Device? && Valid(f)
    ensures VisibleTold(facts + [f], Observed(i, f.index, f.name))
  {
    var devices := if f.index in i.devices then i.devices else i.devices[f.index := f.name];
    assert f.index in devices;
    assert |devices.Keys| == |devices|;
    if f.index !in i.devices { assert devices.Keys == i.devices.Keys + {f.index}; }
  }

  lemma VisibleStep(facts: seq<Fact>, i: Inventory, f: Fact)
    requires VisibleTold(facts, i)
    ensures VisibleTold(facts + [f], Heard(i, f))
  {
    if f.Count? {
      CountStep(facts, i, f.n);
    } else if f.Device? && Valid(f) {
      DeviceStep(facts, i, f);
    }
  }

  lemma MoreLayers(facts: seq<Fact>, f: Fact, offloaded: int, total: int)
    requires LastLayers(facts, offloaded, total) && !(f.Layers? && Valid(f))
    ensures LastLayers(facts + [f], offloaded, total)
  {
    var i :| 0 <= i < |facts| && facts[i] == Layers(offloaded, total) && Valid(facts[i]) &&
      forall j :: i < j < |facts| ==> !(facts[j].Layers? && Valid(facts[j]));
    assert (facts + [f])[i] == Layers(offloaded, total);
  }

  lemma LayersStep(facts: seq<Fact>, i: Inventory, f: Fact)
    requires LayersTold(facts, i)
    ensures LayersTold(facts + [f], Heard(i, f))
  {
    var more, after := facts + [f], Heard(i, f);
    assert more[|facts|] == f;
    if f.Layers? && Valid(f) {
      assert more[|facts|] == Layers(f.offloaded, f.total);
      assert LastLayers(more, f.offloaded, f.total);
    } else if i.total.Some? {
      MoreLayers(facts, f, i.offloaded.value, i.total.value);
    }
  }

  lemma {:induction false} HearExact(facts: seq<Fact>)
    ensures DevicesTold(facts, Hear(facts).devices) && VisibleTold(facts, Hear(facts)) && LayersTold(facts, Hear(facts))
    decreases |facts|
  {
    if facts != [] {
      var before, f := facts[..|facts|-1], facts[|facts|-1];
      assert facts == before + [f];
      HearExact(before);
      DevicesStep(before, Hear(before), f);
      VisibleStep(before, Hear(before), f);
      LayersStep(before, Hear(before), f);
    }
  }

  /** In every run in accelerator mode the inventory is what the log has told:
      every device under its first name; as many visible ones as the largest
      count told, or as there are devices if that is more; the last numbers of
      layers that make sense; a detection exactly when a device is visible or
      layers were offloaded; the one device by name when it is the only one. */
  lemma InventoryExact(events: seq<Event>)
    ensures var i, facts := Run(Initial(true), events).inventory, Told(events);
            DevicesTold(facts, i.devices) && VisibleTold(facts, i) && LayersTold(facts, i)
  {
    InventoryHears(true, events);
    HearExact(Told(events));
  }
}
