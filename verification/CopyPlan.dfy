/** Resumable copies from a PVC.

    A plan compares what is staged with the source, byte by byte, and grants
    credit for it; the copy continues from there. The source may be rewritten
    at any moment. Its identity (device, inode, size, times) is a stamp that
    a rewrite always changes.
 */
module CopyPlan {
  import opened Basics
  import opened GgufLayout

  datatype Source = Source(content: seq<byte>, stamp: nat)

  function Rewritten(s: Source, change: Option<seq<byte>>): Source {
    if change.None? then s else Source(change.value, s.stamp + 1)
  }

  // ---- the copy as a function of what happens ------------------------------------------

  datatype Plan = Plan(size: nat, resume: nat, stamp: nat)

  /** The credit for what is staged: all of it or nothing. */
  function Credit(source: Source, staged: seq<byte>): nat {
    if staged <= source.content then |staged| else 0
  }

  function PlanFor(source: Source, staged: seq<byte>): Plan {
    Plan(|source.content|, Credit(source, staged), source.stamp)
  }

  datatype Fault = NoFault | Eof | Broken

  /** One turn of the loop: the source may be rewritten, the context may be
      cancelled, and reads, writes and syncs may fall short or fail. */
  datatype Event = Event(
    change: Option<seq<byte>>, cancelled: bool, read: nat, stored: nat, writeFails: bool, fault: Fault, syncs: bool)

  datatype Outcome = Ok(written: nat) | Err | Died

  datatype Copy = Copy(source: Source, staged: seq<byte>, written: nat, checkpointAt: nat)

  function ReadCount(plan: Plan, source: Source, written: nat, read: nat): int {
    Min(Min(read, CHUNK), Min(plan.size - plan.resume - written, |source.content| - plan.resume - written))
  }

  /** The turn, and whether the loop goes on. */
  function Turn(plan: Plan, c: Copy, e: Event): (Copy, bool) {
    var source := Rewritten(c.source, e.change);
    if e.cancelled then (c.(source := source), false)
    else
      var at, n := plan.resume + c.written, ReadCount(plan, source, c.written, e.read);
      if n <= 0 then (c.(source := source), e.fault.NoFault?)
      else
        var k := Min(e.stored, n);
        var next := Copy(source, c.staged + source.content[at..at+k], c.written + k, c.checkpointAt);
        if e.writeFails || k != n then (next, false)
        else
          var due := next.written - c.checkpointAt >= CHECKPOINT_BYTES;
          if due && !e.syncs then (next, false)
          else
            (if due then next.(checkpointAt := next.written) else next,
             e.fault.NoFault? || (e.fault.Eof? && plan.resume + next.written == plan.size))
  }

  /** The loop. `None` when the events run out: the process died. */
  function Loop(plan: Plan, c: Copy, events: seq<Event>): (Copy, Option<bool>)
    decreases |events|
  {
    if plan.resume + c.written >= plan.size then (c, Some(true))
    else if events == [] then (c, None)
    else
      var t := Turn(plan, c, events[0]);
      if t.1 then Loop(plan, t.0, events[1..]) else (t.0, Some(false))
  }

  /** What follows the loop: a sync, and a look at the source again. */
  function Finish(plan: Plan, c: Copy, change: Option<seq<byte>>, syncs: bool): (Copy, Outcome) {
    var source := Rewritten(c.source, change);
    if !syncs then (c.(source := source), Err)
    else if source.stamp != plan.stamp then (c.(source := source, staged := []), Err)
    else (c.(source := source), Ok(c.written))
  }

  /** `validateForTransfer` and `copyPrepared`. */
  function Copied(plan: Plan, source: Source, staged: seq<byte>, events: seq<Event>, change: Option<seq<byte>>,
    syncs: bool)
    : (Copy, Outcome)
  {
    var c := Copy(source, staged, 0, 0);
    if source.stamp != plan.stamp || |staged| != plan.resume || !(staged <= source.content) then (c, Err)
    else
      var l := Loop(plan, c, events);
      if l.1.None? then (l.0, Died)
      else if !l.1.value then (l.0, Err)
      else Finish(plan, l.0, change, syncs)
  }

  // ---- what a copy keeps ------------------------------------------------------------------

  /** Unless the source was rewritten, the staged bytes are a prefix of it. */
  ghost predicate Continues(plan: Plan, original: seq<byte>, c: Copy) {
    && plan.size == |original| && plan.resume + c.written <= plan.size && c.source.stamp >= plan.stamp
    && (c.source.stamp == plan.stamp ==> c.source.content == original && c.staged == original[..plan.resume+c.written])
  }

  lemma TurnKeeps(plan: Plan, original: seq<byte>, c: Copy, e: Event)
    requires Continues(plan, original, c)
    ensures Continues(plan, original, Turn(plan, c, e).0)
  {
    var source := Rewritten(c.source, e.change);
    var at, n := plan.resume + c.written, ReadCount(plan, source, c.written, e.read);
    if n > 0 && source.stamp == plan.stamp {
      var k := Min(e.stored, n);
      assert original[..at] + original[at..at+k] == original[..at+k];
    }
  }

  lemma {:induction false} LoopKeeps(plan: Plan, original: seq<byte>, c: Copy, events: seq<Event>)
    requires Continues(plan, original, c)
    ensures Continues(plan, original, Loop(plan, c, events).0)
    ensures Loop(plan, c, events).1 == Some(true) ==> plan.resume + Loop(plan, c, events).0.written == plan.size
    decreases |events|
  {
    if plan.resume + c.written < plan.size && events != [] {
      TurnKeeps(plan, original, c, events[0]);
      var t := Turn(plan, c, events[0]);
      if t.1 { LoopKeeps(plan, original, t.0, events[1..]); }
    }
  }

  /** However a copy ends: success means that the source was not rewritten
      since the plan, that it is staged completely, and that exactly the bytes
      not credited were written; an unchanged source leaves a prefix staged. */
  lemma CopiedKeeps(
    original: Source, plan: Plan, source: Source, staged: seq<byte>, events: seq<Event>, change: Option<seq<byte>>,
        syncs: bool)
    requires plan.size == |original.content| && plan.stamp == original.stamp <= source.stamp
    requires source.stamp == plan.stamp ==> source == original
    ensures var r := Copied(plan, source, staged, events, change, syncs);
            && (r.1.Ok? ==>
                r.0.source == original && r.0.staged == original.content && r.1.written == plan.size - plan.resume)
            && (r.0.source.stamp != plan.stamp ==> !r.1.Ok?)
            && (r.0.source.stamp == plan.stamp && staged <= original.content ==> r.0.staged <= original.content)
  {
    var c := Copy(source, staged, 0, 0);
    if source.stamp == plan.stamp && |staged| == plan.resume && staged <= source.content {
      assert staged == original.content[..plan.resume];
      LoopKeeps(plan, original.content, c, events);
      assert original.content[..plan.size] == original.content;
    }
  }

  /** A copy that is complete, of a source that was rewritten since the plan, is
      thrown away. */
  lemma ChangedDiscarded(
    plan: Plan, source: Source, staged: seq<byte>, events: seq<Event>, change: Option<seq<byte>>)
    requires source.stamp == plan.stamp && |staged| == plan.resume && staged <= source.content
    requires var l := Loop(plan, Copy(source, staged, 0, 0), events);
             l.1 == Some(true) && (change.Some? || l.0.source.stamp != plan.stamp) && l.0.source.stamp >= plan.stamp
    ensures var r := Copied(plan, source, staged, events, change, true); r.1 == Err && r.0.staged == []
  {
  }

  /** Nothing happens behind a cancellation: whatever would come next, the loop
      ends as it would with the cancelled turn as its last. */
  lemma {:induction false} CancelledStops(plan: Plan, c: Copy, events: seq<Event>, last: Event, rest: seq<Event>)
    requires last.cancelled
    ensures Loop(plan, c, events + [last] + rest) == Loop(plan, c, events + [last])
    ensures var l := Loop(plan, c, events + [last]); l.1.Some? && (l.1.value ==> plan.resume + l.0.written >= plan.size)
    decreases |events|
  {
    var all, short := events + [last] + rest, events + [last];
    if events == [] {
      assert all[0] == last && short[0] == last;
    } else {
      assert all[0] == events[0] && short[0] == events[0];
      assert all[1..] == events[1..] + [last] + rest && short[1..] == events[1..] + [last];
      CancelledStops(plan, Turn(plan, c, events[0]).0, events[1..], last, rest);
    }
  }

  /** A turn in which nothing is rewritten, something is read, all of it is
      stored and nothing fails. */
  predicate Smooth(e: Event) {
    e.change.None? && !e.cancelled && e.read > 0 && e.stored >= CHUNK && !e.writeFails && e.fault.NoFault? && e.syncs
  }

  lemma {:induction false} LoopCompletes(plan: Plan, c: Copy, events: seq<Event>)
    requires plan.size == |c.source.content| && plan.resume + c.written <= plan.size
    requires (forall i :: 0 <= i < |events| ==> Smooth(events[i])) && |events| >= plan.size - plan.resume - c.written
    ensures Loop(plan, c, events).1 == Some(true) && Loop(plan, c, events).0.source == c.source
    decreases |events|
  {
    if plan.resume + c.written < plan.size {
      assert Smooth(events[0]);
      LoopCompletes(plan, Turn(plan, c, events[0]).0, events[1..]);
    }
  }

  /** A copy that nothing disturbs succeeds, from whatever was staged. */
  lemma CopyCompletes(source: Source, staged: seq<byte>, events: seq<Event>)
    requires (forall i :: 0 <= i < |events| ==> Smooth(events[i])) && |events| >= |source.content|
    ensures var plan := PlanFor(source, staged);
            Copied(plan, source, staged[..plan.resume], events, None, true).1 == Ok(plan.size - plan.resume)
  {
    var plan := PlanFor(source, staged);
    PrepareKeeps(source, staged);
    LoopCompletes(plan, Copy(source, staged[..plan.resume], 0, 0), events);
    CopiedKeeps(source, plan, source, staged[..plan.resume], events, None, true);
  }

  /** A plan for a source that is not rewritten: whatever was staged before,
      afterwards it is a prefix, and its length is the credit. */
  lemma PrepareKeeps(source: Source, staged: seq<byte>)
    ensures var plan := PlanFor(source, staged);
            plan.resume <= plan.size && staged[..plan.resume] <= source.content
                && (staged <= source.content ==> plan.resume == |staged|)
  {
    if staged <= source.content { assert staged[..|staged|] == staged; }
  }

  // ---- retries ------------------------------------------------------------------------------

  datatype Attempt = Attempt(events: seq<Event>, syncs: bool)

  predicate Undisturbed(a: Attempt) {
    forall i :: 0 <= i < |a.events| ==> a.events[i].change.None?
  }

  /** One retry on a source that nobody rewrites: prepare, then copy. */
  function Retry(source: Source, staged: seq<byte>, a: Attempt): (Copy, Outcome) {
    var plan := PlanFor(source, staged);
    Copied(plan, source, staged[..plan.resume], a.events, None, a.syncs)
  }

  lemma {:induction false} LoopUndisturbed(plan: Plan, c: Copy, events: seq<Event>)
    requires forall i :: 0 <= i < |events| ==> events[i].change.None?
    ensures Loop(plan, c, events).0.source == c.source
    decreases |events|
  {
    if plan.resume + c.written < plan.size && events != [] {
      var t := Turn(plan, c, events[0]);
      if t.1 { LoopUndisturbed(plan, t.0, events[1..]); }
    }
  }

  lemma RetryKeeps(source: Source, staged: seq<byte>, a: Attempt)
    requires Undisturbed(a)
    ensures var r := Retry(source, staged, a);
            && r.0.source == source && r.0.staged <= source.content
            && (staged <= source.content ==> staged <= r.0.staged)
            && (r.1.Ok? ==> r.0.staged == source.content)
  {
    var plan := PlanFor(source, staged);
    PrepareKeeps(source, staged);
    var from := staged[..plan.resume];
    LoopUndisturbed(plan, Copy(source, from, 0, 0), a.events);
    CopiedKeeps(source, plan, source, from, a.events, None, a.syncs);
    assert from == source.content[..plan.resume];
    LoopKeeps(plan, source.content, Copy(source, from, 0, 0), a.events);
  }

  function Retries(source: Source, staged: seq<byte>, attempts: seq<Attempt>): seq<byte>
    decreases |attempts|
  {
    if attempts == [] then staged else Retries(source, Retry(source, staged, attempts[0]).0.staged, attempts[1..])
  }

  /** Over any number of retries on an unchanged source, from any staged bytes:
      a prefix of the source, never shorter than before. */
  lemma {:induction false} RetriesKeep(source: Source, staged: seq<byte>, attempts: seq<Attempt>)
    requires attempts != [] && forall i :: 0 <= i < |attempts| ==> Undisturbed(attempts[i])
    ensures Retries(source, staged, attempts) <= source.content
    ensures staged <= source.content ==> staged <= Retries(source, staged, attempts)
    decreases |attempts|
  {
    RetryKeeps(source, staged, attempts[0]);
    if |attempts| > 1 {
      RetriesKeep(source, Retry(source, staged, attempts[0]).0.staged, attempts[1..]);
    } else {
      assert attempts[1..] == [];
    }
  }

  // ---- the plan object -----------------------------------------------------------------------

  lemma SliceOfTake(s: seq<byte>, n: nat, i: nat, k: nat)
    requires i + k <= n <= |s|
    ensures s[..n][i..i+k] == s[i..i+k]
  {
    var left, right := s[..n][i..i+k], s[i..i+k];
    forall j | 0 <= j < k ensures left[j] == right[j] { }
  }

  /** `regularFilePrefixesEqual`, chunk by chunk. */
  method PrefixesEqual(source: seq<byte>, staged: seq<byte>, size: nat) returns (equal: bool)
    requires size <= |source| && size <= |staged|
    ensures equal <==> source[..size] == staged[..size]
  {
    var done := 0;
    while done < size
      invariant 0 <= done <= size && source[..done] == staged[..done]
    {
      var chunk := if size - done < CHUNK then size - done else CHUNK;
      var a, b := source[done..done+chunk], staged[done..done+chunk];
      SliceOfTake(source, size, done, chunk);
      SliceOfTake(staged, size, done, chunk);
      if a != b { return false; }
      assert source[..done+chunk] == source[..done] + a && staged[..done+chunk] == staged[..done] + b;
      done := done + chunk;
    }
    return true;
  }

  class RegularCopyPlan {
    var source: Source
    var staged: seq<byte>
    var resumeBytes: nat
    const sourceSize: nat
    const snapshot: nat

    ghost function AsPlan(): Plan
      reads this
    {
      Plan(sourceSize, resumeBytes, snapshot)
    }

    ghost function State(): (Source, seq<byte>, Plan)
      reads this
    {
      (source, staged, AsPlan())
    }

    /** `prepareRegularCopy`. */
    constructor (source: Source, staged: seq<byte>)
      ensures this.source == source && AsPlan() == PlanFor(source, staged) && this.staged == staged[..resumeBytes]
    {
      this.source := source;
      sourceSize := |source.content|;
      snapshot := source.stamp;
      var valid := |staged| <= |source.content|;
      if valid {
        valid := PrefixesEqual(source.content, staged, |staged|);
        assert staged[..|staged|] == staged;
        assert valid <==> staged <= source.content;
      }
      if !valid {
        resumeBytes := 0;
        this.staged := [];
      } else {
        resumeBytes := |staged|;
        this.staged := staged;
        assert staged[..|staged|] == staged;
      }
    }

    /** Somebody else rewrites the source. */
    method Rewrite(change: Option<seq<byte>>)
      modifies this`source
      ensures source == Rewritten(old(source), change)
    {
      if change.Some? { source := Source(change.value, source.stamp + 1); }
    }

    method ValidateForTransfer() returns (ok: bool)
      ensures ok <==> source.stamp == snapshot && |staged| == resumeBytes && staged <= source.content
    {
      if source.stamp != snapshot || |staged| != resumeBytes || resumeBytes > |source.content| { return false; }
      ok := PrefixesEqual(source.content, staged, resumeBytes);
      assert staged[..resumeBytes] == staged;
    }

    ghost function Now(written: nat, checkpointAt: nat): Copy
      reads this
    {
      Copy(source, staged, written, checkpointAt)
    }

    /** One turn of the copy loop. */
    method TakeTurn(written: nat, checkpointAt: nat, e: Event) returns (written': nat, checkpointAt': nat, more: bool)
      requires resumeBytes + written < sourceSize
      modifies this`source, this`staged
      ensures Turn(AsPlan(), old(Now(written, checkpointAt)), e) == (Now(written', checkpointAt'), more)
    {
      written', checkpointAt' := written, checkpointAt;
      Rewrite(e.change);
      if e.cancelled { return written', checkpointAt', false; }
      var at := resumeBytes + written;
      var n := Min(Min(e.read, CHUNK), Min(sourceSize - at, |source.content| - at));
      if n > 0 {
        var k := Min(e.stored, n);
        staged := staged + source.content[at..at+k];
        written' := written + k;
        if e.writeFails || k != n { return written', checkpointAt', false; }
        if written' - checkpointAt >= CHECKPOINT_BYTES {
          if !e.syncs { return written', checkpointAt', false; }
          checkpointAt' := written';
        }
      }
      if e.fault.Eof? && resumeBytes + written' < sourceSize { return written', checkpointAt', false; }
      if e.fault.Broken? { return written', checkpointAt', false; }
      return written', checkpointAt', true;
    }

    method CopyAll(events: seq<Event>, change: Option<seq<byte>>, syncs: bool) returns (outcome: Outcome)
      modifies this
      ensures var r := Copied(old(AsPlan()), old(source), old(staged), events, change, syncs);
              outcome == r.1 && source == r.0.source && staged == r.0.staged
    {
      var ok := ValidateForTransfer();
      if !ok { return Err; }
      ghost var plan, start := AsPlan(), Now(0, 0);
      var written, checkpointAt := 0, 0;
      var i := 0;
      while resumeBytes + written < sourceSize
        invariant 0 <= i <= |events| && AsPlan() == plan
        invariant Loop(plan, start, events) == Loop(plan, Now(written, checkpointAt), events[i..])
        decreases |events| - i
      {
        if i == |events| { return Died; }
        assert events[i..][0] == events[i] && events[i..][1..] == events[i+1..];
        var more;
        written, checkpointAt, more := TakeTurn(written, checkpointAt, events[i]);
        if !more { return Err; }
        i := i + 1;
      }
      Rewrite(change);
      if !syncs { return Err; }
      if source.stamp != snapshot {
        staged := [];
        resumeBytes := 0;
        return Err;
      }
      return Ok(written);
    }
  }

  // ---- all the files of an import --------------------------------------------------------------

  /** A selected file and what happens to it while it is copied: a rewrite
      before the transfer, the events of the loop, one after it. */
  datatype Selected = Selected(
    source: Source, staged: seq<byte>, before: Option<seq<byte>>, events: seq<Event>, after: Option<seq<byte>>,
        syncs: bool)

  function Charge(f: Selected): nat {
    var plan := PlanFor(f.source, f.staged);
    PrepareKeeps(f.source, f.staged);
    plan.size - plan.resume
  }

  function Total(charge: Selected -> nat, files: seq<Selected>): nat {
    if files == [] then 0 else Total(charge, files[..|files|-1]) + charge(files[|files|-1])
  }

  /** The bytes the free-space check is asked for. */
  function Required(files: seq<Selected>): nat {
    Total(Charge, files)
  }

  function CopyOf(f: Selected): (Copy, Outcome) {
    var plan := PlanFor(f.source, f.staged);
    Copied(plan, Rewritten(f.source, f.before), f.staged[..plan.resume], f.events, f.after, f.syncs)
  }

  lemma CopyOfKeeps(f: Selected)
    ensures CopyOf(f).1.Ok? ==>
              CopyOf(f).0.source == f.source && CopyOf(f).0.staged == f.source.content
                  && CopyOf(f).1.written == Charge(f)
  {
    var plan := PlanFor(f.source, f.staged);
    CopiedKeeps(f.source, plan, Rewritten(f.source, f.before), f.staged[..plan.resume], f.events, f.after, f.syncs);
  }

  /** A plan as it comes out of the preflight. */
  ghost function Prepared(f: Selected): (Source, seq<byte>, Plan) {
    var plan := PlanFor(f.source, f.staged);
    PrepareKeeps(f.source, f.staged);
    (f.source, f.staged[..plan.resume], plan)
  }

  /** The functions the loops are specified with, by name only. */
  datatype Rules = Rules(ok: Selected -> bool, charge: Selected -> nat, prepared: Selected -> (Source, seq<byte>, Plan))

  ghost predicate AreRules(r: Rules) {
    && (forall f {:trigger CopyOf(f)} :: r.ok(f) == CopyOf(f).1.Ok?)
    && (forall f {:trigger Charge(f)} :: r.charge(f) == Charge(f))
    && (forall f {:trigger Prepared(f)} :: r.prepared(f) == Prepared(f))
  }

  lemma {:induction false} TotalGrows(charge: Selected -> nat, files: seq<Selected>, k: nat)
    requires k <= |files|
    ensures Total(charge, files[..k]) <= Total(charge, files)
    decreases |files| - k
  {
    if k < |files| {
      TotalGrows(charge, files, k + 1);
      assert files[..k+1][..k] == files[..k];
    } else {
      assert files[..k] == files;
    }
  }

  method PrepareOne(f: Selected, ghost r: Rules) returns (plan: RegularCopyPlan, additional: nat)
    requires AreRules(r)
    ensures fresh(plan) && plan.State() == r.prepared(f) && additional == r.charge(f)
  {
    plan := new RegularCopyPlan(f.source, f.staged);
    assert r.charge(f) == Charge(f) && r.prepared(f) == Prepared(f);
    PrepareKeeps(f.source, f.staged);
    additional := plan.sourceSize - plan.resumeBytes;
  }

  /** The preflight: a plan for every file, and the sum of what they charge. */
  method PrepareAll(files: seq<Selected>, ghost r: Rules) returns (plans: seq<RegularCopyPlan>, required: Option<nat>)
    requires AreRules(r)
    ensures required == if Uint64(Total(r.charge, files)) then Some(Total(r.charge, files)) else None
    ensures required.Some? ==> |plans| == |files| && fresh(plans)
    ensures required.Some? ==> forall i, j :: 0 <= i < j < |plans| ==> plans[i] != plans[j]
    ensures required.Some? ==> forall i :: 0 <= i < |plans| ==> plans[i].State() == r.prepared(files[i])
  {
    plans := [];
    var total := 0;
    var i := 0;
    while i < |files|
      invariant 0 <= i <= |files| && |plans| == i && total == Total(r.charge, files[..i]) && Uint64(total)
      invariant fresh(plans) && forall i, j :: 0 <= i < j < |plans| ==> plans[i] != plans[j]
      invariant forall j :: 0 <= j < i ==> plans[j].State() == r.prepared(files[j])
    {
      var plan, additional := PrepareOne(files[i], r);
      assert files[..i+1][..i] == files[..i];
      if additional > MAX_UINT64 - total {
        TotalGrows(r.charge, files, i + 1);
        return plans, None;
      }
      total := total + additional;
      plans := plans + [plan];
      i := i + 1;
    }
    assert files[..i] == files;
    return plans, Some(total);
  }

  ghost predicate Complete(plan: RegularCopyPlan, f: Selected)
    reads plan
  {
    plan.source == f.source && plan.staged == f.source.content
  }

  method CopyOne(plan: RegularCopyPlan, f: Selected, ghost r: Rules) returns (written: Option<nat>)
    requires AreRules(r) && plan.State() == r.prepared(f)
    modifies plan
    ensures written.Some? <==> r.ok(f)
    ensures written.Some? ==> Complete(plan, f) && written.value == r.charge(f)
  {
    CopyOfKeeps(f);
    assert r.ok(f) == CopyOf(f).1.Ok? && r.charge(f) == Charge(f) && r.prepared(f) == Prepared(f);
    plan.Rewrite(f.before);
    var outcome := plan.CopyAll(f.events, f.after, f.syncs);
    written := if outcome.Ok? then Some(outcome.written) else None;
  }

  method CopyPlans(plans: seq<RegularCopyPlan>, files: seq<Selected>, ghost r: Rules) returns (transferred: Option<nat>)
    requires |plans| == |files| && AreRules(r)
    requires forall i, j :: 0 <= i < j < |plans| ==> plans[i] != plans[j]
    requires forall i :: 0 <= i < |plans| ==> plans[i].State() == r.prepared(files[i])
    modifies plans
    ensures transferred.Some? <==> Total(r.charge, files) <= MAX_INT64 && forall i :: 0 <= i < |files| ==>
            r.ok(files[i])
    ensures transferred.Some? ==> transferred.value == Total(r.charge, files)
    ensures transferred.Some? ==> forall i :: 0 <= i < |files| ==> Complete(plans[i], files[i])
  {
    var total := 0;
    var i := 0;
    while i < |files|
      invariant 0 <= i <= |files| && total == Total(r.charge, files[..i]) <= MAX_INT64
      invariant forall j :: 0 <= j < i ==> r.ok(files[j])
      invariant forall j :: 0 <= j < i ==> Complete(plans[j], files[j])
      invariant forall j :: i <= j < |files| ==> plans[j].State() == r.prepared(files[j])
      modifies plans
    {
      var written := CopyOne(plans[i], files[i], r);
      if written.None? { return None; }
      assert files[..i+1][..i] == files[..i];
      if written.value > MAX_INT64 - total {
        TotalGrows(r.charge, files, i + 1);
        return None;
      }
      total := total + written.value;
      i := i + 1;
    }
    assert files[..i] == files;
    return Some(total);
  }

  /** The copying part of `executeCopy`. It succeeds exactly when there is room,
      every copy succeeds and the sum fits; then every file is staged completely
      from a source that did not change, and the bytes written are the bytes
      the free-space check was asked for. */
  method ExecuteCopy(files: seq<Selected>, space: nat -> bool)
    returns (plans: seq<RegularCopyPlan>, transferred: Option<nat>)
    ensures transferred.Some? <==>
              && Required(files) <= MAX_INT64 && space(Required(files))
              && forall i :: 0 <= i < |files| ==> CopyOf(files[i]).1.Ok?
    ensures transferred.Some? ==>
              && |plans| == |files| && transferred.value == Required(files)
              && forall i :: 0 <= i < |files| ==> Complete(plans[i], files[i])
  {
    ghost var r := Rules(f => CopyOf(f).1.Ok?, Charge, Prepared);
    var required;
    plans, required := PrepareAll(files, r);
    if required.None? || !space(required.value) { return plans, None; }
    transferred := CopyPlans(plans, files, r);
  }
}
