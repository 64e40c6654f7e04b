/** The supervisor of one llama-server child.

    Four threads of control share a locked state: the starter, the prober, the
    waiter for the child, and the readers of its log; a drain may come at any
    time. Every locked section is a step, a probe is several of them.
 */
module Supervisor {
  import opened Basics

  datatype Phase = Initializing | Loading | Ready | Draining | LoadFailed | Exited

  predicate Terminal(p: Phase) {
    p.Draining? || p.LoadFailed? || p.Exited?
  }

  // ---- the accelerator inventory -------------------------------------------------------

  /** What the log has told so far; `devices` by normalized index. */
  datatype Inventory = Inventory(
    detected: bool, visible: Option<int>, offloaded: Option<int>, total: Option<int>, device: string,
        devices: map<nat, string>)

  function Max(a: int, b: int): int {
    if a >= b then a else b
  }

  /** `updateVisibleAcceleratorsLocked`: a later, smaller count changes nothing. */
  function Counted(i: Inventory, observed: int): Inventory {
    var seen := if i.visible.Some? then Max(observed, i.visible.value) else observed;
    var count := Max(seen, |i.devices|);
    i.(visible := Some(count), detected := i.detected || count > 0,
       device := if count == 1 && |i.devices| == 1 then OnlyDevice(i.devices) else "")
  }

  function OnlyDevice(devices: map<nat, string>): (d: string)
    requires |devices| == 1
    ensures d in devices.Values
  {
    OneKey(devices);
    var k :| k in devices; devices[k]
  }

  lemma OneKey(devices: map<nat, string>)
    requires |devices| == 1
    ensures exists k :: k in devices
    ensures forall k, l :: k in devices && l in devices ==> k == l
  {
    assert |devices.Keys| == 1;
    var k :| k in devices.Keys;
    assert |devices.Keys - {k}| == 0;
    assert devices.Keys == {k};
  }

  /** `observeCUDADeviceLocked`. */
  function Observed(i: Inventory, index: nat, device: string): Inventory {
    if index > 65535 || device == "" then i
    else
      var devices := if index in i.devices then i.devices else i.devices[index := device];
      Counted(i.(devices := devices), |devices|)
  }

  function Offload(i: Inventory, offloaded: int, total: int): Inventory {
    if offloaded > total then i
    else i.(offloaded := Some(offloaded), total := Some(total), detected := i.detected || offloaded > 0)
  }

  /** What the patterns found in one line of the log. */
  datatype Line = Line(count: Option<int>, offload: Option<(int, int)>, legacy: Option<(nat, string)>,
    inventory: Option<(nat, string)>)

  function CountedIf(i: Inventory, count: Option<int>): Inventory {
    if count.None? then i else Counted(i, count.value)
  }

  function OffloadIf(i: Inventory, offload: Option<(int, int)>): Inventory {
    if offload.None? then i else Offload(i, offload.value.0, offload.value.1)
  }

  function ObservedIf(i: Inventory, device: Option<(nat, string)>): Inventory {
    if device.None? then i else Observed(i, device.value.0, device.value.1)
  }

  /** Count, layers and devices, in the order the source looks for them. */
  function Noted(i: Inventory, line: Line): Inventory {
    ObservedIf(ObservedIf(OffloadIf(CountedIf(i, line.count), line.offload), line.legacy), line.inventory)
  }

  /** The accelerator part of the readiness check. */
  predicate Confirmed(i: Inventory) {
    i.detected && i.visible == Some(1) && i.offloaded.Some? && i.total.Some? && i.total.value >= 1
        && i.offloaded.value == i.total.value
  }

  // ---- the state machine -----------------------------------------------------------------

  datatype Starter = Starting | Launching | Launched | NotLaunched

  datatype Prober = Resting | Probing | Refused | Approved

  datatype State = State(
    accelerator: bool, phase: Phase, ready: bool, becameReady: bool, inventory: Inventory,
    starter: Starter, prober: Prober, exited: bool, drained: bool)

  function Entered(s: State, phase: Phase, ready: bool): State {
    s.(phase := phase, ready := ready)
  }

  /** `setLoading`. */
  function LoadingAgain(s: State): State {
    if Terminal(s.phase) then s else Entered(s, Loading, false)
  }

  /** The last section of `updateReadiness`. */
  function Committed(s: State): State {
    if Terminal(s.phase) then s else Entered(s, Ready, true).(becameReady := true)
  }

  /** The section of `waitForChild`. */
  function ChildGone(s: State): State {
    if s.phase.Draining? then s else Entered(s, if s.becameReady then Exited else LoadFailed, false)
  }

  /** `Reject` is a configuration or an artifact that fails validation, before
      the child; `Respond` is the answer of the child to all HTTP probes. */
  datatype Event =
    | Reject
    | StartLoading
    | LaunchFails
    | Launch
    | BeginProbe
    | Respond(ok: bool)
    | Refuse
    | Commit
    | ChildExits
    | Log(line: Line)
    | Drain

  function Step(s: State, e: Event): State {
    match e
    case Reject => if s.starter.Starting? then Entered(s, LoadFailed, false).(starter := NotLaunched) else s
    case StartLoading => if s.starter.Starting? then Entered(s, Loading, false).(starter := Launching) else s
    case LaunchFails => if s.starter.Launching? then Entered(s, LoadFailed, false).(starter := NotLaunched) else s
    case Launch => if s.starter.Launching? then s.(starter := Launched) else s
    case BeginProbe => if s.starter.Launched? && s.prober.Resting? && !Terminal(s.phase) then s.(prober := Probing)
        else s
    case Respond(ok) =>
      if !s.prober.Probing? then s
      else s.(prober := if ok && (s.accelerator ==> Confirmed(s.inventory)) then Approved else Refused)
    case Refuse => if s.prober.Refused? then LoadingAgain(s).(prober := Resting) else s
    case Commit => if s.prober.Approved? then Committed(s).(prober := Resting) else s
    case ChildExits => if s.starter.Launched? && !s.exited then ChildGone(s).(exited := true) else s
    case Log(line) => if s.accelerator then s.(inventory := Noted(s.inventory, line)) else s
    case Drain => if s.drained then s else Entered(s, Draining, false).(drained := true)
  }

  function Run(s: State, events: seq<Event>): State
    decreases |events|
  {
    if events == [] then s else Run(Step(s, events[0]), events[1..])
  }

  const NOTHING_SEEN := Inventory(false, None, None, None, "", map[])

  function Initial(accelerator: bool): State {
    State(accelerator, Initializing, false, false, NOTHING_SEEN, Starting, Resting, false, false)
  }

  // ---- what every interleaving keeps --------------------------------------------------------

  ghost predicate InventoryOk(i: Inventory) {
    && (|i.devices| > 0 ==> i.visible.Some?)
    && (i.visible.Some? ==> i.visible.value >= |i.devices|)
    && (i.device != "" ==> i.visible == Some(1) && |i.devices| == 1 && i.device in i.devices.Values)
  }

  ghost predicate PhasesOk(s: State) {
    && (s.ready <==> s.phase.Ready?)
    && (s.phase.Ready? ==> s.becameReady)
    && (s.phase.Exited? ==> s.becameReady)
    && (s.phase.LoadFailed? ==> !s.becameReady)
    && (!s.starter.Launched? ==> !s.becameReady && s.prober.Resting?)
    && (s.starter.NotLaunched? ==> Terminal(s.phase))
    && (s.exited ==> s.starter.Launched? && Terminal(s.phase))
    && (s.exited && !s.drained ==> s.phase == if s.becameReady then Exited else LoadFailed)
    && (s.phase.Draining? ==> s.drained)
  }

  ghost predicate Inv(s: State) {
    PhasesOk(s) && InventoryOk(s.inventory)
  }

  /** The count never falls and no device is forgotten. */
  ghost predicate Grows(i: Inventory, j: Inventory) {
    && (i.visible.Some? ==> j.visible.Some? && j.visible.value >= i.visible.value)
    && (forall k :: k in i.devices ==> k in j.devices && j.devices[k] == i.devices[k])
  }

  lemma GrowsTransitive(a: Inventory, b: Inventory, c: Inventory)
    requires Grows(a, b) && Grows(b, c)
    ensures Grows(a, c)
  {
  }

  lemma CountedOk(i: Inventory, observed: int)
    ensures InventoryOk(Counted(i, observed)) && Grows(i, Counted(i, observed))
  {
  }

  lemma OffloadOk(i: Inventory, offloaded: int, total: int)
    requires InventoryOk(i)
    ensures InventoryOk(Offload(i, offloaded, total)) && Grows(i, Offload(i, offloaded, total))
  {
  }

  lemma ObservedOk(i: Inventory, index: nat, device: string)
    requires InventoryOk(i)
    ensures InventoryOk(Observed(i, index, device)) && Grows(i, Observed(i, index, device))
  {
    if index <= 65535 && device != "" {
      var devices := if index in i.devices then i.devices else i.devices[index := device];
      CountedOk(i.(devices := devices), |devices|);
    }
  }

  /** One locked section over one line of the log. */
  lemma NotedOk(i: Inventory, line: Line)
    requires InventoryOk(i)
    ensures InventoryOk(Noted(i, line)) && Grows(i, Noted(i, line))
  {
    var a := CountedIf(i, line.count);
    if line.count.Some? { CountedOk(i, line.count.value); }
    var b := OffloadIf(a, line.offload);
    if line.offload.Some? { OffloadOk(a, line.offload.value.0, line.offload.value.1); }
    var c := ObservedIf(b, line.legacy);
    if line.legacy.Some? { ObservedOk(b, line.legacy.value.0, line.legacy.value.1); }
    if line.inventory.Some? { ObservedOk(c, line.inventory.value.0, line.inventory.value.1); }
    GrowsTransitive(i, a, b);
    GrowsTransitive(i, b, c);
    GrowsTransitive(i, c, Noted(i, line));
  }

  lemma StepPhases(s: State, e: Event)
    requires PhasesOk(s)
    ensures PhasesOk(Step(s, e)) && Step(s, e).accelerator == s.accelerator
  {
  }

  lemma StepInventory(s: State, e: Event)
    requires InventoryOk(s.inventory)
    ensures InventoryOk(Step(s, e).inventory) && Grows(s.inventory, Step(s, e).inventory)
  {
    if e.Log? { NotedOk(s.inventory, e.line); }
  }

  lemma StepKeeps(s: State, e: Event)
    requires Inv(s)
    ensures Inv(Step(s, e)) && Grows(s.inventory, Step(s, e).inventory) && Step(s, e).accelerator == s.accelerator
  {
    StepPhases(s, e);
    StepInventory(s, e);
  }

  lemma {:induction false} RunKeeps(s: State, events: seq<Event>)
    requires Inv(s)
    ensures Inv(Run(s, events)) && Grows(s.inventory, Run(s, events).inventory)
    decreases |events|
  {
    if events != [] {
      var t := Step(s, events[0]);
      StepKeeps(s, events[0]);
      RunKeeps(t, events[1..]);
      GrowsTransitive(s.inventory, t.inventory, Run(s, events).inventory);
    }
  }

  /** In every interleaving: Ready holds exactly in phase Ready, Exited means it
      was ready once, LoadFailed that it never was; a child that is gone is not
      ready, and without a drain it is reported as Exited or LoadFailed; and the
      reported count is at least the number of distinct devices seen. */
  lemma PhasesHonest(accelerator: bool, events: seq<Event>)
    ensures var s := Run(Initial(accelerator), events);
            && (s.ready <==> s.phase.Ready?)
            && (s.phase.Exited? ==> s.becameReady) && (s.phase.LoadFailed? ==> !s.becameReady)
            && (s.exited ==> !s.ready && Terminal(s.phase))
            && (s.exited && !s.drained ==> s.phase == if s.becameReady then Exited else LoadFailed)
            && (s.inventory.visible.Some? ==> s.inventory.visible.value >= |s.inventory.devices|)
            && (|s.inventory.devices| > 0 ==> s.inventory.visible.Some?)
  {
    RunKeeps(Initial(accelerator), events);
  }

  /** `becameReady` records exactly whether some step entered Ready. */
  lemma {:induction false} BecameReadyMeans(s: State, events: seq<Event>)
    ensures Run(s, events).becameReady <==> s.becameReady || CommitsIn(s, events)
    decreases |events|
  {
    if events != [] { BecameReadyMeans(Step(s, events[0]), events[1..]); }
  }

  predicate CommitsIn(s: State, events: seq<Event>)
    decreases |events|
  {
    events != [] && ((events[0].Commit? && s.prober.Approved? && !Terminal(s.phase))
        || CommitsIn(Step(s, events[0]), events[1..]))
  }

  // ---- terminal phases ---------------------------------------------------------------------------

  /** A terminal phase is left in one way only: the starter had not yet set
      Loading. */
  lemma TerminalStep(s: State, e: Event)
    requires Inv(s) && Terminal(s.phase)
    ensures Terminal(Step(s, e).phase) <==> !(e.StartLoading? && s.starter.Starting?)
  {
  }

  /** Once the starter is past that point, Draining, LoadFailed and Exited never
      return to Loading or Ready. */
  lemma {:induction false} TerminalStays(s: State, events: seq<Event>)
    requires Inv(s) && Terminal(s.phase) && !s.starter.Starting?
    ensures Terminal(Run(s, events).phase)
    decreases |events|
  {
    if events != [] {
      StepKeeps(s, events[0]);
      TerminalStep(s, events[0]);
      TerminalStays(Step(s, events[0]), events[1..]);
    }
  }

  /** The phase Draining is left by a starter that sets Loading or fails, and in
      no other way, not even by the exit of the child. */
  lemma DrainingStep(s: State, e: Event)
    requires Inv(s) && s.phase.Draining?
    ensures Step(s, e).phase.Draining? <==>
            !((e.StartLoading? || e.Reject?) && s.starter.Starting?) && !(e.LaunchFails? && s.starter.Launching?)
  {
  }

  lemma {:induction false} DrainingStays(s: State, events: seq<Event>)
    requires Inv(s) && s.phase.Draining? && s.starter.Launched?
    ensures Run(s, events).phase.Draining? && !Run(s, events).ready
    decreases |events|
  {
    if events != [] {
      StepKeeps(s, events[0]);
      DrainingStep(s, events[0]);
      DrainingStays(Step(s, events[0]), events[1..]);
    }
  }

  /** The first drain of a launched child ends readiness for good. */
  lemma DrainHolds(s: State, events: seq<Event>)
    requires Inv(s) && !s.drained && s.starter.Launched?
    ensures var t := Run(Step(s, Drain), events); t.phase.Draining? && !t.ready
  {
    StepKeeps(s, Drain);
    DrainingStays(Step(s, Drain), events);
  }

  /** A drain requested before the child is started is overwritten, and asking
      again changes nothing. */
  lemma EarlyDrain()
    ensures Run(Initial(false), [Drain, StartLoading, Drain]) ==
            Initial(false).(phase := Loading, starter := Launching, drained := true)
  {
    var s1 := Step(Initial(false), Drain);
    var s2 := Step(s1, StartLoading);
    assert Run(s2, []) == s2;
    assert Run(s2, [Drain]) == s2;
    assert Run(s1, [StartLoading, Drain]) == s2;
  }

  /** So the drained supervisor becomes ready. */
  lemma EarlyDrainLost()
    ensures var s := Run(Run(Initial(false), [Drain, StartLoading, Drain]),
            [Launch, BeginProbe, Respond(true), Commit]);
            s.drained && s.phase == Ready && s.ready
  {
    EarlyDrain();
    var s2 := Initial(false).(phase := Loading, starter := Launching, drained := true);
    var s3 := Step(s2, Launch);
    var s4 := Step(s3, BeginProbe);
    var s5 := Step(s4, Respond(true));
    var s6 := Step(s5, Commit);
    assert Run(s6, []) == s6;
    assert Run(s5, [Commit]) == s6;
    assert Run(s4, [Respond(true), Commit]) == s6;
    assert Run(s3, [BeginProbe, Respond(true), Commit]) == s6;
  }

  // ---- more than one accelerator -----------------------------------------------------------------

  /** More than one accelerator has been seen, and no probe is past its look
      at the inventory. */
  ghost predicate TooMany(s: State) {
    s.accelerator && s.inventory.visible.Some? && s.inventory.visible.value > 1 && !s.prober.Approved?
  }

  lemma TooManyStep(s: State, e: Event)
    requires Inv(s) && TooMany(s)
    ensures TooMany(Step(s, e)) && (!s.phase.Ready? ==> !Step(s, e).phase.Ready?)
  {
    StepKeeps(s, e);
  }

  /** Then every later probe refuses: none commits, and a supervisor that is
      not ready never becomes ready. */
  lemma {:induction false} TooManyNeverReady(s: State, events: seq<Event>)
    requires Inv(s) && TooMany(s)
    ensures !CommitsIn(s, events) && (!s.phase.Ready? ==> !Run(s, events).ready)
    decreases |events|
  {
    if events != [] {
      StepKeeps(s, events[0]);
      TooManyStep(s, events[0]);
      TooManyNeverReady(Step(s, events[0]), events[1..]);
    }
  }

  // ---- the locked sections, in place ----------------------------------------------------------------

  class SupervisorState {
    const accelerator: bool
    var phase: Phase
    var ready: bool
    var becameReady: bool
    var exited: bool
    var detected: bool
    var visible: Option<int>
    var offloaded: Option<int>
    var total: Option<int>
    var device: string
    var devices: map<nat, string>

    constructor (accelerator: bool)
      ensures this.accelerator == accelerator && Snapshot(Starting, Resting, false) == Initial(accelerator)
    {
      this.accelerator := accelerator;
      phase, ready, becameReady, exited := Initializing, false, false, false;
      detected, visible, offloaded, total, device, devices := false, None, None, None, "", map[];
    }

    ghost function Seen(): Inventory
      reads this
    {
      Inventory(detected, visible, offloaded, total, device, devices)
    }

    /** The shared state, with where the starter and the prober stand and
        whether a drain was requested. */
    ghost function Snapshot(starter: Starter, prober: Prober, drained: bool): State
      reads this
    {
      State(accelerator, phase, ready, becameReady, Seen(), starter, prober, exited, drained)
    }

    method SetPhase(next: Phase, nowReady: bool)
      modifies this`phase, this`ready
      ensures phase == next && ready == nowReady
    {
      phase := next;
      ready := nowReady;
    }

    /** `startChild`, up to the child. */
    method StartLoading(ghost drained: bool)
      modifies this`phase, this`ready
      ensures Snapshot(Launching, Resting, drained) ==
              Step(old(Snapshot(Starting, Resting, drained)), Event.StartLoading)
    {
      SetPhase(Loading, false);
    }

    method Fail(ghost drained: bool)
      modifies this`phase, this`ready
      ensures Snapshot(NotLaunched, Resting, drained) == Step(old(Snapshot(Starting, Resting, drained)), Reject)
      ensures Snapshot(NotLaunched, Resting, drained) == Step(old(Snapshot(Launching, Resting, drained)), LaunchFails)
    {
      SetPhase(LoadFailed, false);
    }

    method BeginDrain(ghost starter: Starter, ghost prober: Prober)
      modifies this`phase, this`ready
      ensures Snapshot(starter, prober, true) == Step(old(Snapshot(starter, prober, false)), Drain)
    {
      SetPhase(Draining, false);
    }

    method SetLoading(ghost starter: Starter, ghost drained: bool)
      modifies this`phase, this`ready
      ensures Snapshot(starter, Resting, drained) == Step(old(Snapshot(starter, Refused, drained)), Refuse)
    {
      if phase.Draining? || phase.LoadFailed? || phase.Exited? { return; }
      phase := Loading;
      ready := false;
    }

    /** The look at the inventory in the middle of `updateReadiness`. */
    method Approves(ok: bool, ghost starter: Starter, ghost drained: bool) returns (approved: bool)
      ensures Snapshot(starter, if approved then Approved else Refused, drained) ==
              Step(Snapshot(starter, Probing, drained), Respond(ok))
      ensures approved <==> ok && (accelerator ==> detected && visible == Some(1) && total.Some? && total.value >= 1
                                                   && offloaded == total)
    {
      if !ok { return false; }
      if accelerator {
        if !detected || visible.None? || visible.value != 1 { return false; }
        if offloaded.None? || total.None? || total.value < 1 || offloaded.value != total.value { return false; }
      }
      return true;
    }

    method CommitReady(ghost starter: Starter, ghost drained: bool)
      modifies this`phase, this`ready, this`becameReady
      ensures Snapshot(starter, Resting, drained) == Step(old(Snapshot(starter, Approved, drained)), Commit)
    {
      if !phase.Draining? && !phase.LoadFailed? && !phase.Exited? {
        phase := Ready;
        ready := true;
        becameReady := true;
      }
    }

    method WaitForChild(ghost prober: Prober, ghost drained: bool)
      requires !exited
      modifies this`phase, this`ready, this`exited
      ensures Snapshot(Launched, prober, drained) == Step(old(Snapshot(Launched, prober, drained)), ChildExits)
    {
      if !phase.Draining? {
        ready := false;
        phase := if becameReady then Exited else LoadFailed;
      }
      exited := true;
    }

    method UpdateVisible(observed: int)
      modifies this`visible, this`detected, this`device
      ensures Seen() == Counted(old(Seen()), observed)
    {
      var count := observed;
      if visible.Some? && visible.value > count { count := visible.value; }
      if |devices| > count { count := |devices|; }
      visible := Some(count);
      if count > 0 { detected := true; }
      if count != 1 || |devices| != 1 {
        device := "";
      } else {
        OneKey(devices);
        var k :| k in devices;
        device := devices[k];
        assert device == OnlyDevice(devices);
      }
    }

    method UpdateOffload(layers: int, all: int)
      modifies this`offloaded, this`total, this`detected
      ensures Seen() == Offload(old(Seen()), layers, all)
    {
      if layers <= all {
        offloaded, total := Some(layers), Some(all);
        if layers > 0 { detected := true; }
      }
    }

    method ObserveDevice(index: nat, name: string)
      modifies this`visible, this`detected, this`device, this`devices
      ensures Seen() == Observed(old(Seen()), index, name)
    {
      if index > 65535 || name == "" { return; }
      if index !in devices { devices := devices[index := name]; }
      UpdateVisible(|devices|);
    }

    method NoteCount(count: Option<int>)
      modifies this`visible, this`detected, this`device
      ensures Seen() == CountedIf(old(Seen()), count)
    {
      if count.Some? { UpdateVisible(count.value); }
    }

    method NoteOffload(offload: Option<(int, int)>)
      modifies this`offloaded, this`total, this`detected
      ensures Seen() == OffloadIf(old(Seen()), offload)
    {
      if offload.Some? { UpdateOffload(offload.value.0, offload.value.1); }
    }

    method NoteDevice(found: Option<(nat, string)>)
      modifies this`visible, this`detected, this`device, this`devices
      ensures Seen() == ObservedIf(old(Seen()), found)
    {
      if found.Some? { ObserveDevice(found.value.0, found.value.1); }
    }

    method Note(line: Line)
      modifies this`visible, this`detected, this`device, this`devices, this`offloaded, this`total
      ensures Seen() == Noted(old(Seen()), line)
    {
      NoteCount(line.count);
      NoteOffload(line.offload);
      NoteDevice(line.legacy);
      NoteDevice(line.inventory);
    }

    method ObserveStartupLog(line: Line, ghost starter: Starter, ghost prober: Prober, ghost drained: bool)
      modifies this`visible, this`detected, this`device, this`devices, this`offloaded, this`total
      ensures Snapshot(starter, prober, drained) == Step(old(Snapshot(starter, prober, drained)), Log(line))
    {
      if accelerator { Note(line); }
    }
  }
}
