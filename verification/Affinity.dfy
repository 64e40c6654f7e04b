/** Whether two required node affinities admit a common node.

    The source folds all requirements on one label into a mutable constraint
    and asks whether that constraint is satisfiable. What is proved here is
    when that answer is the truth: for the requirements on one key the answer
    equals the existence of a value exactly when the requirements are not one
    of three named traps, and for two affinities the answer equals the
    existence of a node exactly when the traps do not mislead it.
 */
module Affinity {
  import opened Basics
  import opened Numerals

  datatype Operator = In | NotIn | Exists | DoesNotExist | Gt | Lt | Other(name: string)
  datatype Requirement = Requirement(key: string, op: Operator, values: seq<string>)
  datatype Term = Term(expressions: seq<Requirement>, fields: seq<Requirement>)
  datatype NodeAffinity = Unconstrained | Required(terms: seq<Term>)

  const EMPTY_TERM := Term([], [])

  // ---- what the requirements mean on a node --------------------------------

  datatype Node = Node(labels: map<string, string>, fields: map<string, string>)

  function Bound(r: Requirement): Option<int> {
    if |r.values| == 1 then ParseInt64(r.values[0]) else None
  }

  function Numeric(value: Option<string>): Option<int> {
    if value.Some? then ParseInt64(value.value) else None
  }

  /** The Kubernetes reading of one requirement on the value of its key, where
      `None` is a node without that key. An operator the source does not know
      is read as demanding nothing, as the source does. */
  predicate Matches(value: Option<string>, r: Requirement) {
    match r.op
    case In => value.Some? && value.value in r.values
    case NotIn => value.Some? ==> value.value !in r.values
    case Exists => value.Some?
    case DoesNotExist => value.None?
    case Gt => Bound(r).Some? && Numeric(value).Some? && Numeric(value).value > Bound(r).value
    case Lt => Bound(r).Some? && Numeric(value).Some? && Numeric(value).value < Bound(r).value
    case Other(_) => true
  }

  predicate MatchesAll(value: Option<string>, requirements: set<Requirement>) {
    forall r :: r in requirements ==> Matches(value, r)
  }

  function Lookup(m: map<string, string>, key: string): Option<string> {
    if key in m then Some(m[key]) else None
  }

  predicate NodeSatisfies(node: Node, term: Term) {
    && (forall r :: r in term.expressions ==> Matches(Lookup(node.labels, r.key), r))
    && (forall r :: r in term.fields ==> Matches(Lookup(node.fields, r.key), r))
  }

  predicate Nonempty(term: Term) {
    |term.expressions| > 0 || |term.fields| > 0
  }

  /** A constrained side admits a node when one of its non-empty terms does. */
  predicate Admits(affinity: NodeAffinity, node: Node) {
    affinity.Unconstrained? ||
    exists term :: term in affinity.terms && Nonempty(term) && NodeSatisfies(node, term)
  }

  // ---- the constraint the source accumulates -------------------------------

  datatype Constraint = Constraint(
    existence: int,
    allowed: Option<set<string>>,
    excluded: set<string>,
    lower: Option<int>,
    upper: Option<int>)

  predicate NeedsKey(r: Requirement) {
    r.op.In? || r.op.NotIn? || r.op.Exists? || r.op.Gt? || r.op.Lt?
  }

  predicate Has(requirements: set<Requirement>, op: Operator) {
    exists r :: r in requirements && r.op == op
  }

  predicate SomeNeedsKey(requirements: set<Requirement>) {
    exists r :: r in requirements && NeedsKey(r)
  }

  predicate WellFormed(r: Requirement) {
    && (r.op.In? ==> r.values != [])
    && (r.op.Gt? || r.op.Lt? ==> Bound(r).Some?)
  }

  /** What the source must not meet while it folds the requirements of a key. */
  predicate Consistent(requirements: set<Requirement>) {
    && !(SomeNeedsKey(requirements) && Has(requirements, DoesNotExist))
    && forall r :: r in requirements ==> WellFormed(r)
  }

  /** `b` is the strictest Gt bound. */
  predicate LowerIs(requirements: set<Requirement>, b: int) {
    && (exists r :: r in requirements && r.op.Gt? && Bound(r) == Some(b))
    && (forall r :: r in requirements && r.op.Gt? && Bound(r).Some? ==> Bound(r).value <= b)
  }

  /** `b` is the strictest Lt bound. */
  predicate UpperIs(requirements: set<Requirement>, b: int) {
    && (exists r :: r in requirements && r.op.Lt? && Bound(r) == Some(b))
    && (forall r :: r in requirements && r.op.Lt? && Bound(r).Some? ==> b <= Bound(r).value)
  }

  predicate Excludes(requirements: set<Requirement>, value: string) {
    exists r :: r in requirements && r.op.NotIn? && value in r.values
  }

  /** `c` is the constraint of a consistent set of requirements, whatever the
      order in which they were folded. */
  ghost predicate Summarises(c: Constraint, requirements: set<Requirement>) {
    && c.existence == (if SomeNeedsKey(requirements) then 1 else if Has(requirements, DoesNotExist) then -1 else 0)
    && (c.allowed.Some? <==> Has(requirements, In))
    && (c.allowed.Some? ==>
          forall x :: x in c.allowed.value <==> (forall r :: r in requirements && r.op.In? ==> x in r.values))
    && (forall x :: x in c.excluded <==> Excludes(requirements, x))
    && (c.lower.Some? <==> Has(requirements, Gt))
    && (c.lower.Some? ==> LowerIs(requirements, c.lower.value))
    && (c.upper.Some? <==> Has(requirements, Lt))
    && (c.upper.Some? ==> UpperIs(requirements, c.upper.value))
  }

  lemma SummaryUnique(c: Constraint, d: Constraint, requirements: set<Requirement>)
    requires Summarises(c, requirements) && Summarises(d, requirements)
    ensures c == d
  {
    assert c.excluded == d.excluded;
    if c.allowed.Some? { assert c.allowed.value == d.allowed.value; }
  }

  /** The constraint after folding `r` into `c`, when that is possible. */
  function Folded(c: Constraint, r: Requirement): Constraint {
    match r.op
    case In =>
      var incoming := set x | x in r.values;
      c.(existence := 1, allowed := Some(if c.allowed.None? then incoming else c.allowed.value * incoming))
    case NotIn => c.(existence := 1, excluded := c.excluded + (set x | x in r.values))
    case Exists => c.(existence := 1)
    case DoesNotExist => c.(existence := -1)
    case Gt => c.(existence := 1, lower := if c.lower.None? || (Bound(r).Some? && Bound(r).value > c.lower.value)
        then Bound(r) else c.lower)
    case Lt => c.(existence := 1, upper := if c.upper.None? || (Bound(r).Some? && Bound(r).value < c.upper.value)
        then Bound(r) else c.upper)
    case Other(_) => c
  }

  /** The guard of the source: the fold goes on. */
  predicate Foldable(c: Constraint, r: Requirement) {
    && WellFormed(r)
    && (NeedsKey(r) ==> c.existence >= 0)
    && (r.op.DoesNotExist? ==> c.existence <= 0)
  }

  lemma HasAdd(seen: set<Requirement>, r: Requirement, op: Operator)
    ensures Has(seen + {r}, op) <==> Has(seen, op) || r.op == op
  {
    if Has(seen, op) { var q :| q in seen && q.op == op; assert q in seen + {r}; }
    if r.op == op { assert r in seen + {r}; }
  }

  lemma NeedsKeyAdd(seen: set<Requirement>, r: Requirement)
    ensures SomeNeedsKey(seen + {r}) <==> SomeNeedsKey(seen) || NeedsKey(r)
  {
    if SomeNeedsKey(seen) { var q :| q in seen && NeedsKey(q); assert q in seen + {r}; }
    if NeedsKey(r) { assert r in seen + {r}; }
  }

  lemma FoldableIff(c: Constraint, r: Requirement, seen: set<Requirement>)
    requires Summarises(c, seen) && Consistent(seen)
    ensures Foldable(c, r) <==> Consistent(seen + {r})
  {
    HasAdd(seen, r, DoesNotExist);
    NeedsKeyAdd(seen, r);
    assert r in seen + {r};
    assert forall q :: q in seen ==> q in seen + {r};
  }

  lemma FoldedBounds(c: Constraint, r: Requirement, seen: set<Requirement>)
    requires Summarises(c, seen) && Consistent(seen) && Foldable(c, r) && (r.op.Gt? || r.op.Lt?)
    ensures Summarises(Folded(c, r), seen + {r})
  {
    var all, d := seen + {r}, Folded(c, r);
    HasAdds(seen, r);
    assert r in all;
    assert forall q :: q in seen ==> q in all;
    forall x ensures x in d.excluded <==> Excludes(all, x) {
      if x in c.excluded { var q :| q in seen && q.op.NotIn? && x in q.values; assert q in all; }
    }
    assert forall q :: q in all && q.op.In? ==> q in seen;
    assert d.lower.Some? ==> LowerIs(all, d.lower.value) by {
      if d.lower.Some? && d.lower == c.lower { var q :| q in seen && q.op.Gt? && Bound(q) == c.lower; assert q in all; }
    }
    assert d.upper.Some? ==> UpperIs(all, d.upper.value) by {
      if d.upper.Some? && d.upper == c.upper { var q :| q in seen && q.op.Lt? && Bound(q) == c.upper; assert q in all; }
    }
  }

  lemma HasAdds(seen: set<Requirement>, r: Requirement)
    ensures forall op :: Has(seen + {r}, op) <==> Has(seen, op) || r.op == op
    ensures SomeNeedsKey(seen + {r}) <==> SomeNeedsKey(seen) || NeedsKey(r)
  {
    forall op { HasAdd(seen, r, op); }
    NeedsKeyAdd(seen, r);
  }

  lemma FoldedValues(c: Constraint, r: Requirement, seen: set<Requirement>)
    requires Summarises(c, seen) && Consistent(seen) && Foldable(c, r) && !r.op.Gt? && !r.op.Lt?
    ensures Summarises(Folded(c, r), seen + {r})
  {
    var all, d := seen + {r}, Folded(c, r);
    HasAdds(seen, r);
    assert r in all;
    assert forall q :: q in seen ==> q in all;
    assert d.lower == c.lower && forall q :: q in all && q.op.Gt? ==> q in seen;
    assert d.upper == c.upper && forall q :: q in all && q.op.Lt? ==> q in seen;
    if d.allowed.Some? {
      forall x ensures x in d.allowed.value <==> (forall q :: q in all && q.op.In? ==> x in q.values) {
        if x in d.allowed.value {
          forall q | q in all && q.op.In? ensures x in q.values {
            if q in seen { assert Has(seen, In); }
          }
        }
      }
    }
    forall x ensures x in d.excluded <==> Excludes(all, x) {
      if x in d.excluded && x !in c.excluded { assert r.op.NotIn? && x in r.values; }
      if x in c.excluded { var q :| q in seen && q.op.NotIn? && x in q.values; assert q in all; }
    }
    assert c.lower.Some? ==> LowerIs(all, c.lower.value) by {
      if c.lower.Some? { var q :| q in seen && q.op.Gt? && Bound(q) == c.lower; assert q in all; }
    }
    assert c.upper.Some? ==> UpperIs(all, c.upper.value) by {
      if c.upper.Some? { var q :| q in seen && q.op.Lt? && Bound(q) == c.upper; assert q in all; }
    }
  }

  lemma FoldedSummarises(c: Constraint, r: Requirement, seen: set<Requirement>)
    requires Summarises(c, seen) && Consistent(seen) && Foldable(c, r)
    ensures Summarises(Folded(c, r), seen + {r})
  {
    if r.op.Gt? || r.op.Lt? { FoldedBounds(c, r, seen); } else { FoldedValues(c, r, seen); }
  }

  class SelectorConstraint {
    var existence: int
    var allowed: Option<set<string>>
    var excluded: set<string>
    var lower: Option<int>
    var upper: Option<int>

    function Value(): Constraint
      reads this
    {
      Constraint(existence, allowed, excluded, lower, upper)
    }

    constructor ()
      ensures Summarises(Value(), {}) && Consistent({})
    {
      existence, allowed, excluded, lower, upper := 0, None, {}, None, None;
    }

    method RequireExists(present: bool) returns (ok: bool)
      modifies `existence
      ensures ok <==> old(existence) == 0 || old(existence) == (if present then 1 else -1)
      ensures existence == if ok then (if present then 1 else -1) else old(existence)
    {
      var wanted := if present then 1 else -1;
      if existence != 0 && existence != wanted { return false; }
      existence := wanted;
      return true;
    }

    /** Folds one more requirement in. It fails exactly when the requirements
        seen so far and this one are inconsistent, and otherwise leaves the
        constraint of all of them. */
    method Apply(r: Requirement, ghost seen: set<Requirement>) returns (ok: bool)
      requires Summarises(Value(), seen) && Consistent(seen)
      modifies this
      ensures ok <==> Consistent(seen + {r})
      ensures ok ==> Summarises(Value(), seen + {r})
    {
      FoldableIff(Value(), r, seen);
      if Foldable(Value(), r) { FoldedSummarises(Value(), r, seen); }
      ok := Fold(r);
    }

    method Fold(r: Requirement) returns (ok: bool)
      requires existence == 0 || existence == 1 || existence == -1
      modifies this
      ensures ok <==> Foldable(old(Value()), r)
      ensures ok ==> Value() == Folded(old(Value()), r)
    {
      match r.op {
        case In =>
          var present := RequireExists(true);
          if !present || r.values == [] { return false; }
          var incoming := set x | x in r.values;
          if allowed.None? {
            allowed := Some(incoming);
          } else {
            allowed := Some(allowed.value * incoming);
          }
        case NotIn =>
          var present := RequireExists(true);
          if !present { return false; }
          ghost var before := excluded;
          for i := 0 to |r.values|
            invariant excluded == before + (set x | x in r.values[..i])
            invariant existence == 1 && allowed == old(allowed) && lower == old(lower) && upper == old(upper)
          {
            assert r.values[..i+1] == r.values[..i] + [r.values[i]];
            excluded := excluded + {r.values[i]};
          }
          assert r.values[..|r.values|] == r.values;
        case Exists =>
          ok := RequireExists(true);
          return;
        case DoesNotExist =>
          ok := RequireExists(false);
          return;
        case Gt =>
          var present := RequireExists(true);
          if !present || |r.values| != 1 { return false; }
          var value := ParseInt64(r.values[0]);
          if value.None? { return false; }
          if lower.None? || value.value > lower.value { lower := value; }
        case Lt =>
          var present := RequireExists(true);
          if !present || |r.values| != 1 { return false; }
          var value := ParseInt64(r.values[0]);
          if value.None? { return false; }
          if upper.None? || value.value < upper.value { upper := value; }
        case Other(_) =>
          return true;
      }
      return true;
    }
  }

  predicate WithinBounds(c: Constraint, value: string) {
    && value !in c.excluded
    && (c.lower.Some? || c.upper.Some? ==>
          var numeric := ParseInt64(value);
          && numeric.Some?
          && (c.lower.Some? ==> numeric.value > c.lower.value)
          && (c.upper.Some? ==> numeric.value < c.upper.value))
  }

  /** `selectorConstraintSatisfiable`. */
  predicate Satisfiable(c: Constraint) {
    if c.existence < 0 then
      c.allowed.None? && c.lower.None? && c.upper.None?
    else if c.allowed.Some? then
      exists value :: value in c.allowed.value && WithinBounds(c, value)
    else if c.lower.Some? && c.upper.Some? then
      c.lower.value != MAX_INT64 && c.lower.value + 1 < c.upper.value &&
      (c.lower.value + 2 == c.upper.value ==> FormatInt64(c.lower.value + 1) !in c.excluded)
    else
      true
  }

  /** The answer of the source for the requirements on one key, as a property
      of the set of those requirements. */
  ghost predicate Feasible(requirements: set<Requirement>) {
    Consistent(requirements) && exists c :: Summarises(c, requirements) && Satisfiable(c)
  }

  lemma SummaryExists(requirements: set<Requirement>) returns (c: Constraint)
    requires Consistent(requirements)
    ensures Summarises(c, requirements)
  {
    if requirements == {} {
      c := Constraint(0, None, {}, None, None);
    } else {
      var r :| r in requirements;
      var rest := requirements - {r};
      assert rest + {r} == requirements;
      assert Consistent(rest) by {
        if SomeNeedsKey(rest) { NeedsKeyAdd(rest, r); }
        if Has(rest, DoesNotExist) { HasAdd(rest, r, DoesNotExist); }
      }
      var d := SummaryExists(rest);
      FoldableIff(d, r, rest);
      FoldedSummarises(d, r, rest);
      c := Folded(d, r);
    }
  }

  // ---- when the answer is the truth ----------------------------------------

  /** The key must be absent, and some listed values must not be there: every
      node without the key would do, but the source reads NotIn as needing the
      key. */
  ghost predicate AbsentTrap(requirements: set<Requirement>) {
    && Has(requirements, DoesNotExist) && Has(requirements, NotIn)
    && forall r :: r in requirements ==> !(r.op.In? || r.op.Exists? || r.op.Gt? || r.op.Lt?)
  }

  /** The bounds leave one integer, and only its canonical numeral is excluded. */
  ghost predicate WindowTrap(requirements: set<Requirement>) {
    && Consistent(requirements) && !Has(requirements, In)
    && exists b ::
         LowerIs(requirements, b) && UpperIs(requirements, b + 2) && Excludes(requirements, FormatInt64(b + 1))
  }

  /** A lone bound at the end of the 64-bit range. */
  ghost predicate ExtremeTrap(requirements: set<Requirement>) {
    && Consistent(requirements) && !Has(requirements, In)
    && ((!Has(requirements, Lt) && LowerIs(requirements, MAX_INT64))
        || (!Has(requirements, Gt) && UpperIs(requirements, MIN_INT64)))
  }

  ghost predicate Trap(requirements: set<Requirement>) {
    AbsentTrap(requirements) || WindowTrap(requirements) || ExtremeTrap(requirements)
  }

  ghost predicate HasValue(requirements: set<Requirement>) {
    exists value: Option<string> :: MatchesAll(value, requirements)
  }

  lemma InconsistentKey(requirements: set<Requirement>)
    requires !Consistent(requirements)
    ensures !WindowTrap(requirements) && !ExtremeTrap(requirements)
    ensures HasValue(requirements) <==> AbsentTrap(requirements)
  {
    if AbsentTrap(requirements) {
      assert MatchesAll(None, requirements);
    } else {
      forall value: Option<string> ensures !MatchesAll(value, requirements) {
        if r :| r in requirements && !WellFormed(r) {
          assert !Matches(value, r);
        } else {
          var d :| d in requirements && d.op == DoesNotExist;
          var k :| k in requirements && NeedsKey(k);
          if Matches(value, d) {
            assert value.None?;
            if k.op.NotIn? {
              assert Has(requirements, NotIn);
              var q :| q in requirements && (q.op.In? || q.op.Exists? || q.op.Gt? || q.op.Lt?);
              assert !Matches(value, q);
            } else {
              assert !Matches(value, k);
            }
          }
        }
      }
    }
  }

  /** On a present key the constraint says exactly what its requirements say. */
  lemma PresentValue(c: Constraint, requirements: set<Requirement>, value: string)
    requires Consistent(requirements) && Summarises(c, requirements) && c.existence >= 0
    ensures MatchesAll(Some(value), requirements) <==>
            WithinBounds(c, value) && (c.allowed.Some? ==> value in c.allowed.value)
  {
    var v := Some(value);
    if MatchesAll(v, requirements) {
      assert forall r :: r in requirements ==> Matches(v, r);
      assert !Excludes(requirements, value);
      assert c.lower.Some? ==> exists r :: r in requirements && r.op.Gt? && Bound(r) == c.lower && Matches(v, r);
      assert c.upper.Some? ==> exists r :: r in requirements && r.op.Lt? && Bound(r) == c.upper && Matches(v, r);
    }
    if WithinBounds(c, value) && (c.allowed.Some? ==> value in c.allowed.value) {
      assert !Excludes(requirements, value);
      forall r | r in requirements ensures Matches(v, r) {
        assert WellFormed(r) && Has(requirements, r.op);
        assert !r.op.DoesNotExist?;
      }
    }
  }

  /** A numeric window has a value exactly when it holds a 64-bit integer. */
  lemma WindowValue(c: Constraint, requirements: set<Requirement>, n: int)
    requires Consistent(requirements) && Summarises(c, requirements) && c.existence >= 0 && c.allowed.None?
    requires MIN_INT64 <= n <= MAX_INT64
    requires (c.lower.Some? ==> c.lower.value < n) && (c.upper.Some? ==> n < c.upper.value)
    ensures HasValue(requirements)
  {
    var s := NumeralOutside(n, c.excluded);
    PresentValue(c, requirements, s);
    assert MatchesAll(Some(s), requirements);
  }

  lemma NoWindowValue(c: Constraint, requirements: set<Requirement>)
    requires Consistent(requirements) && Summarises(c, requirements) && c.existence >= 0 && c.allowed.None?
    requires c.lower.Some? || c.upper.Some?
    requires c.lower.Some? && c.upper.Some? ==> c.upper.value <= c.lower.value + 1
    requires c.upper.None? ==> c.lower.value == MAX_INT64
    requires c.lower.None? ==> c.upper.value == MIN_INT64
    ensures !HasValue(requirements)
  {
    assert Has(requirements, Gt) || Has(requirements, Lt);
    var r :| r in requirements && (r.op.Gt? || r.op.Lt?);
    forall value: Option<string> ensures !MatchesAll(value, requirements) {
      if value.Some? {
        PresentValue(c, requirements, value.value);
        assert !WithinBounds(c, value.value);
      } else {
        assert !Matches(value, r);
      }
    }
  }

  lemma BoundedKey(c: Constraint, requirements: set<Requirement>)
    requires Consistent(requirements) && Summarises(c, requirements) && c.existence >= 0 && c.allowed.None?
    requires c.lower.Some? || c.upper.Some?
    ensures (Satisfiable(c) <==> HasValue(requirements)) <==> !WindowTrap(requirements) && !ExtremeTrap(requirements)
  {
    BoundRange(c, requirements);
    WindowTrapIff(c, requirements);
    ExtremeTrapIff(c, requirements);
    if c.lower.Some? && c.upper.Some? {
      if c.lower.value + 1 < c.upper.value { WindowValue(c, requirements, c.lower.value + 1); }
      else { NoWindowValue(c, requirements); }
    } else if c.lower.Some? {
      if c.lower.value < MAX_INT64 { WindowValue(c, requirements, c.lower.value + 1); }
      else { NoWindowValue(c, requirements); }
    } else {
      if c.upper.value > MIN_INT64 { WindowValue(c, requirements, c.upper.value - 1); }
      else { NoWindowValue(c, requirements); }
    }
  }

  lemma BoundRange(c: Constraint, requirements: set<Requirement>)
    requires Summarises(c, requirements)
    ensures c.lower.Some? ==> MIN_INT64 <= c.lower.value <= MAX_INT64
    ensures c.upper.Some? ==> MIN_INT64 <= c.upper.value <= MAX_INT64
  {
    if c.lower.Some? { var r :| r in requirements && r.op.Gt? && Bound(r) == c.lower; }
    if c.upper.Some? { var r :| r in requirements && r.op.Lt? && Bound(r) == c.upper; }
  }

  lemma BoundUnique(requirements: set<Requirement>, a: int, b: int)
    ensures LowerIs(requirements, a) && LowerIs(requirements, b) ==> a == b
    ensures UpperIs(requirements, a) && UpperIs(requirements, b) ==> a == b
  {
  }

  lemma WindowTrapIff(c: Constraint, requirements: set<Requirement>)
    requires Consistent(requirements) && Summarises(c, requirements)
    ensures WindowTrap(requirements) <==>
            && c.allowed.None? && c.lower.Some? && c.upper.Some?
            && c.lower.value + 2 == c.upper.value && FormatInt64(c.lower.value + 1) in c.excluded
  {
    if WindowTrap(requirements) {
      var b :| LowerIs(requirements, b) && UpperIs(requirements, b + 2) && Excludes(requirements, FormatInt64(b + 1));
      assert Has(requirements, Gt) && Has(requirements, Lt);
      BoundUnique(requirements, b, c.lower.value);
      BoundUnique(requirements, b + 2, c.upper.value);
    }
  }

  lemma ExtremeTrapIff(c: Constraint, requirements: set<Requirement>)
    requires Consistent(requirements) && Summarises(c, requirements)
    ensures ExtremeTrap(requirements) <==>
            && c.allowed.None?
            && ((c.upper.None? && c.lower == Some(MAX_INT64)) || (c.lower.None? && c.upper == Some(MIN_INT64)))
  {
    if LowerIs(requirements, MAX_INT64) {
      assert Has(requirements, Gt);
      BoundUnique(requirements, MAX_INT64, c.lower.value);
    }
    if UpperIs(requirements, MIN_INT64) {
      assert Has(requirements, Lt);
      BoundUnique(requirements, MIN_INT64, c.upper.value);
    }
  }

  /** For one key: the source is right exactly when there is no trap. */
  lemma KeyExact(requirements: set<Requirement>)
    ensures (Feasible(requirements) <==> HasValue(requirements)) <==> !Trap(requirements)
  {
    if !Consistent(requirements) {
      InconsistentKey(requirements);
    } else {
      var c := SummaryExists(requirements);
      assert Feasible(requirements) <==> Satisfiable(c) by {
        if d :| Summarises(d, requirements) && Satisfiable(d) { SummaryUnique(c, d, requirements); }
      }
      assert !AbsentTrap(requirements) by {
        if n :| n in requirements && n.op == NotIn { assert NeedsKey(n); }
      }
      if c.existence < 0 {
        NoKeyNeeded(c, requirements);
      } else if c.allowed.Some? {
        AllowedKey(c, requirements);
      } else if c.lower.Some? || c.upper.Some? {
        BoundedKey(c, requirements);
      } else {
        FreeKey(c, requirements);
      }
    }
  }

  lemma NoKeyNeeded(c: Constraint, requirements: set<Requirement>)
    requires Consistent(requirements) && Summarises(c, requirements) && c.existence < 0
    ensures Satisfiable(c) && HasValue(requirements) && !WindowTrap(requirements) && !ExtremeTrap(requirements)
  {
    WindowTrapIff(c, requirements);
    ExtremeTrapIff(c, requirements);
    assert forall r :: r in requirements ==> !NeedsKey(r);
    assert MatchesAll(None, requirements);
  }

  lemma AllowedKey(c: Constraint, requirements: set<Requirement>)
    requires Consistent(requirements) && Summarises(c, requirements) && c.existence >= 0 && c.allowed.Some?
    ensures Satisfiable(c) <==> HasValue(requirements)
    ensures !WindowTrap(requirements) && !ExtremeTrap(requirements)
  {
    WindowTrapIff(c, requirements);
    ExtremeTrapIff(c, requirements);
    if Satisfiable(c) {
      var x :| x in c.allowed.value && WithinBounds(c, x);
      PresentValue(c, requirements, x);
      assert MatchesAll(Some(x), requirements);
    }
    if HasValue(requirements) {
      var value: Option<string> :| MatchesAll(value, requirements);
      var r :| r in requirements && r.op == In;
      assert Matches(value, r);
      PresentValue(c, requirements, value.value);
    }
  }

  lemma FreeKey(c: Constraint, requirements: set<Requirement>)
    requires Consistent(requirements) && Summarises(c, requirements) && c.existence >= 0
    requires c.allowed.None? && c.lower.None? && c.upper.None?
    ensures Satisfiable(c) && HasValue(requirements) && !WindowTrap(requirements) && !ExtremeTrap(requirements)
  {
    WindowTrapIff(c, requirements);
    ExtremeTrapIff(c, requirements);
    WindowValue(c, requirements, 0);
  }

  // ---- two terms, two affinities -------------------------------------------

  datatype Domain = Label | Field

  function Side(term: Term, domain: Domain): seq<Requirement> {
    if domain.Label? then term.expressions else term.fields
  }

  /** All requirements of the two terms on one key. */
  function At(left: Term, right: Term, domain: Domain, key: string): set<Requirement> {
    set r | r in Side(left, domain) + Side(right, domain) && r.key == key
  }

  function Tagged(domain: Domain, requirements: seq<Requirement>): seq<(Domain, Requirement)> {
    seq(|requirements|, i requires 0 <= i < |requirements| => (domain, requirements[i]))
  }

  function Gathered(left: Term, right: Term): seq<(Domain, Requirement)> {
    Tagged(Label, left.expressions) + Tagged(Label, right.expressions) +
    Tagged(Field, left.fields) + Tagged(Field, right.fields)
  }

  function Seen(items: seq<(Domain, Requirement)>, k: (Domain, string)): set<Requirement> {
    set item | item in items && (item.0, item.1.key) == k :: item.1
  }

  lemma GatheredAt(left: Term, right: Term, domain: Domain, key: string)
    ensures Seen(Gathered(left, right), (domain, key)) == At(left, right, domain, key)
  {
    var items := Gathered(left, right);
    forall r ensures r in Seen(items, (domain, key)) <==> r in At(left, right, domain, key) {
      TaggedHas(Label, left.expressions, domain, r);
      TaggedHas(Label, right.expressions, domain, r);
      TaggedHas(Field, left.fields, domain, r);
      TaggedHas(Field, right.fields, domain, r);
      assert (domain, r) in items <==>
        r in (if domain.Label? then left.expressions + right.expressions else left.fields + right.fields);
    }
  }

  lemma TaggedHas(domain: Domain, requirements: seq<Requirement>, d: Domain, r: Requirement)
    ensures (d, r) in Tagged(domain, requirements) <==> d == domain && r in requirements
  {
    if d == domain && r in requirements {
      var i :| 0 <= i < |requirements| && requirements[i] == r;
      assert Tagged(domain, requirements)[i] == (d, r);
    }
  }

  lemma SeenStep(items: seq<(Domain, Requirement)>, i: nat, k: (Domain, string))
    requires i < |items|
    ensures Seen(items[..i+1], k) ==
            Seen(items[..i], k) + (if (items[i].0, items[i].1.key) == k then {items[i].1} else {})
    ensures Seen(items[..i+1], k) <= Seen(items, k)
  {
    assert items[..i+1] == items[..i] + [items[i]];
  }

  lemma InconsistentGrows(a: set<Requirement>, b: set<Requirement>)
    requires a <= b && !Consistent(a)
    ensures !Consistent(b)
  {
    if r :| r in a && !WellFormed(r) { assert r in b; }
    else {
      var n :| n in a && NeedsKey(n);
      var d :| d in a && d.op == DoesNotExist;
      assert n in b && d in b;
    }
  }

  /** Every key of the two terms is feasible: a property in which neither the
      order of the requirements nor that of the two terms occurs. */
  ghost predicate TermsFeasible(left: Term, right: Term) {
    forall domain, key :: Feasible(At(left, right, domain, key))
  }

  type Constraints = map<(Domain, string), SelectorConstraint>

  ghost predicate Distinct(constraints: Constraints) {
    forall k, l :: k in constraints && l in constraints && k != l ==> constraints[k] != constraints[l]
  }

  function Snapshot(constraints: Constraints): map<(Domain, string), Constraint>
    reads constraints.Values
  {
    map k | k in constraints :: constraints[k].Value()
  }

  ghost predicate Fits(c: Constraint, requirements: set<Requirement>) {
    Consistent(requirements) && Summarises(c, requirements)
  }

  /** The constraints built so far are those of the items seen so far. */
  ghost predicate Tracks(values: map<(Domain, string), Constraint>, items: seq<(Domain, Requirement)>) {
    && (forall k :: k !in values ==> Seen(items, k) == {})
    && (forall k :: k in values ==> Fits(values[k], Seen(items, k)))
  }

  lemma TracksStep(values: map<(Domain, string), Constraint>, items: seq<(Domain, Requirement)>,
                   item: (Domain, Requirement), c: Constraint)
    requires Tracks(values, items)
    requires Fits(c, Seen(items + [item], (item.0, item.1.key)))
    ensures Tracks(values[(item.0, item.1.key) := c], items + [item])
  {
    SeenAppend(items, item);
    var k := (item.0, item.1.key);
    forall l | l in values && l != k ensures Fits(values[l], Seen(items + [item], l)) {
      assert Seen(items + [item], l) == Seen(items, l);
    }
  }

  lemma SeenAppend(items: seq<(Domain, Requirement)>, item: (Domain, Requirement))
    ensures forall k :: Seen(items + [item], k) ==
                        Seen(items, k) + (if (item.0, item.1.key) == k then {item.1} else {})
  {
  }

  method LookupOrCreate(constraints: Constraints, k: (Domain, string), ghost items: seq<(Domain, Requirement)>)
    returns (updated: Constraints)
    requires Distinct(constraints) && Tracks(Snapshot(constraints), items)
    ensures Distinct(updated) && k in updated && fresh(updated.Values - constraints.Values)
    ensures Tracks(Snapshot(updated), items)
  {
    updated := constraints;
    if k !in constraints {
      var created := new SelectorConstraint();
      updated := constraints[k := created];
      assert Snapshot(updated) == Snapshot(constraints)[k := created.Value()];
    }
  }

  method FoldItem(constraints: Constraints, item: (Domain, Requirement), ghost items: seq<(Domain, Requirement)>)
    returns (ok: bool)
    requires Distinct(constraints) && Tracks(Snapshot(constraints), items) && (item.0, item.1.key) in constraints
    modifies constraints.Values
    ensures ok ==> Tracks(Snapshot(constraints), items + [item])
    ensures !ok ==> !Consistent(Seen(items + [item], (item.0, item.1.key)))
  {
    var k := (item.0, item.1.key);
    SeenAppend(items, item);
    ghost var before := Snapshot(constraints);
    assert Fits(before[k], Seen(items, k));
    var constraint := constraints[k];
    ok := constraint.Apply(item.1, Seen(items, k));
    assert Snapshot(constraints) == before[k := constraint.Value()];
    if ok { TracksStep(before, items, item, constraint.Value()); }
  }

  /** One turn of the loop over the requirements. */
  method TakeItem(constraints: Constraints, items: seq<(Domain, Requirement)>, i: nat)
    returns (updated: Constraints, ok: bool)
    requires i < |items| && Distinct(constraints) && Tracks(Snapshot(constraints), items[..i])
    modifies constraints.Values
    ensures Distinct(updated) && fresh(updated.Values - constraints.Values)
    ensures ok ==> Tracks(Snapshot(updated), items[..i+1])
    ensures !ok ==> !Consistent(Seen(items[..i+1], (items[i].0, items[i].1.key)))
  {
    assert items[..i+1] == items[..i] + [items[i]];
    updated := LookupOrCreate(constraints, (items[i].0, items[i].1.key), items[..i]);
    ok := FoldItem(updated, items[i], items[..i]);
  }

  /** The loop over the requirements of both terms: the constraints of all
      keys, or the item that contradicts those before it. */
  method FoldItems(items: seq<(Domain, Requirement)>) returns (constraints: Constraints, failed: nat)
    ensures failed <= |items| && fresh(constraints.Values)
    ensures failed == |items| ==> Tracks(Snapshot(constraints), items)
    ensures failed < |items| ==> !Consistent(Seen(items[..failed+1], (items[failed].0, items[failed].1.key)))
  {
    constraints, failed := map[], 0;
    while failed < |items|
      invariant failed <= |items| && fresh(constraints.Values) && Distinct(constraints)
      invariant Tracks(Snapshot(constraints), items[..failed])
    {
      var ok;
      constraints, ok := TakeItem(constraints, items, failed);
      if !ok { return; }
      failed := failed + 1;
    }
    assert items[..failed] == items;
  }

  lemma FoldFails(left: Term, right: Term, items: seq<(Domain, Requirement)>, i: nat)
    requires items == Gathered(left, right) && i < |items|
    requires !Consistent(Seen(items[..i+1], (items[i].0, items[i].1.key)))
    ensures !TermsFeasible(left, right)
  {
    var k := (items[i].0, items[i].1.key);
    SeenStep(items, i, k);
    InconsistentGrows(Seen(items[..i+1], k), Seen(items, k));
    GatheredAt(left, right, k.0, k.1);
    assert !Feasible(At(left, right, k.0, k.1));
  }

  method TermsCompatible(left: Term, right: Term) returns (ok: bool)
    ensures ok <==> TermsFeasible(left, right)
  {
    var items := Gathered(left, right);
    var constraints, failed := FoldItems(items);
    if failed < |items| {
      FoldFails(left, right, items, failed);
      return false;
    }
    ok := AllSatisfiable(constraints);
    TracksFeasible(Snapshot(constraints), left, right);
  }

  method AllSatisfiable(constraints: Constraints) returns (ok: bool)
    ensures ok <==> forall k :: k in Snapshot(constraints) ==> Satisfiable(Snapshot(constraints)[k])
  {
    ok := forall k :: k in constraints ==> Satisfiable(constraints[k].Value());
    assert forall k :: k in constraints ==> Snapshot(constraints)[k] == constraints[k].Value();
  }

  lemma TracksFeasible(values: map<(Domain, string), Constraint>, left: Term, right: Term)
    requires Tracks(values, Gathered(left, right))
    ensures (forall k :: k in values ==> Satisfiable(values[k])) <==> TermsFeasible(left, right)
  {
    forall domain, key
      ensures Feasible(At(left, right, domain, key)) <==>
              ((domain, key) in values ==> Satisfiable(values[(domain, key)]))
    {
      var k := (domain, key);
      GatheredAt(left, right, domain, key);
      if k in values {
        SummaryFeasible(values[k], Seen(Gathered(left, right), k));
      } else {
        SummaryFeasible(Constraint(0, None, {}, None, None), {});
      }
    }
    if k :| k in values && !Satisfiable(values[k]) {
      assert !Feasible(At(left, right, k.0, k.1));
    }
  }

  lemma SummaryFeasible(c: Constraint, requirements: set<Requirement>)
    requires Consistent(requirements) && Summarises(c, requirements)
    ensures Feasible(requirements) <==> Satisfiable(c)
  {
    if d :| Summarises(d, requirements) && Satisfiable(d) { SummaryUnique(c, d, requirements); }
  }

  /** The answer for two affinities. An unconstrained side stands for the empty
      term; an empty term of a constrained side matches nothing. */
  ghost predicate Compatible(left: NodeAffinity, right: NodeAffinity) {
    if left.Unconstrained? && right.Unconstrained? then true
    else if left.Unconstrained? then
      exists t :: t in right.terms && Nonempty(t) && TermsFeasible(EMPTY_TERM, t)
    else if right.Unconstrained? then
      exists t :: t in left.terms && Nonempty(t) && TermsFeasible(t, EMPTY_TERM)
    else
      exists l, r :: l in left.terms && r in right.terms && Nonempty(l) && Nonempty(r) && TermsFeasible(l, r)
  }

  method VolumeNodeAffinitiesCompatible(left: NodeAffinity, right: NodeAffinity) returns (ok: bool)
    ensures ok <==> Compatible(left, right)
  {
    if left.Unconstrained? && right.Unconstrained? { return true; }
    if left.Unconstrained? {
      for i := 0 to |right.terms|
        invariant forall j :: 0 <= j < i ==> !(Nonempty(right.terms[j]) && TermsFeasible(EMPTY_TERM, right.terms[j]))
      {
        if Nonempty(right.terms[i]) {
          var feasible := TermsCompatible(EMPTY_TERM, right.terms[i]);
          if feasible { return true; }
        }
      }
      return false;
    }
    if right.Unconstrained? {
      for i := 0 to |left.terms|
        invariant forall j :: 0 <= j < i ==> !(Nonempty(left.terms[j]) && TermsFeasible(left.terms[j], EMPTY_TERM))
      {
        if Nonempty(left.terms[i]) {
          var feasible := TermsCompatible(left.terms[i], EMPTY_TERM);
          if feasible { return true; }
        }
      }
      return false;
    }
    for i := 0 to |left.terms|
      invariant forall l, r :: l in left.terms[..i] && r in right.terms ==>
          !(Nonempty(l) && Nonempty(r) && TermsFeasible(l, r))
    {
      if Nonempty(left.terms[i]) {
        for j := 0 to |right.terms|
          invariant forall r :: r in right.terms[..j] ==> !(Nonempty(r) && TermsFeasible(left.terms[i], r))
        {
          if Nonempty(right.terms[j]) {
            var feasible := TermsCompatible(left.terms[i], right.terms[j]);
            if feasible { return true; }
          }
          assert right.terms[..j+1] == right.terms[..j] + [right.terms[j]];
        }
        assert right.terms[..|right.terms|] == right.terms;
      }
      assert left.terms[..i+1] == left.terms[..i] + [left.terms[i]];
    }
    assert left.terms[..|left.terms|] == left.terms;
    return false;
  }

  /** The answer does not depend on which side is called left, on the order of
      the requirements in a term, or on repeated requirements; all operators. */
  lemma CompatibleSymmetric(left: NodeAffinity, right: NodeAffinity)
    ensures Compatible(left, right) <==> Compatible(right, left)
  {
    forall l: Term, r: Term ensures TermsFeasible(l, r) <==> TermsFeasible(r, l) {
      TermsOrder(l, r, r, l);
    }
  }

  function Both(left: Term, right: Term, domain: Domain): set<Requirement> {
    set q | q in Side(left, domain) + Side(right, domain)
  }

  lemma TermsOrder(l: Term, r: Term, l': Term, r': Term)
    requires forall domain :: Both(l, r, domain) == Both(l', r', domain)
    ensures TermsFeasible(l, r) <==> TermsFeasible(l', r')
  {
    forall domain, key ensures At(l, r, domain, key) == At(l', r', domain, key) {
      assert forall q :: q in At(l, r, domain, key) <==> q in Both(l, r, domain) && q.key == key;
      assert forall q :: q in At(l', r', domain, key) <==> q in Both(l', r', domain) && q.key == key;
    }
  }

  // ---- the answer and the nodes --------------------------------------------

  function NodeValue(node: Node, domain: Domain, key: string): Option<string> {
    Lookup(if domain.Label? then node.labels else node.fields, key)
  }

  lemma SatisfiesAt(node: Node, left: Term, right: Term)
    ensures NodeSatisfies(node, left) && NodeSatisfies(node, right) <==>
            forall domain, key :: MatchesAll(NodeValue(node, domain, key), At(left, right, domain, key))
  {
    if forall domain, key :: MatchesAll(NodeValue(node, domain, key), At(left, right, domain, key)) {
      forall r | r in left.expressions || r in right.expressions ensures Matches(Lookup(node.labels, r.key), r) {
        assert r in Side(left, Label) + Side(right, Label);
        assert r in At(left, right, Label, r.key);
        assert MatchesAll(NodeValue(node, Label, r.key), At(left, right, Label, r.key));
      }
      forall r | r in left.fields || r in right.fields ensures Matches(Lookup(node.fields, r.key), r) {
        assert r in Side(left, Field) + Side(right, Field);
        assert r in At(left, right, Field, r.key);
        assert MatchesAll(NodeValue(node, Field, r.key), At(left, right, Field, r.key));
      }
    }
  }

  ghost function Witness(requirements: set<Requirement>): (value: Option<string>)
    requires HasValue(requirements)
    ensures MatchesAll(value, requirements)
  {
    var value: Option<string> :| MatchesAll(value, requirements);
    value
  }

  ghost function WitnessMap(left: Term, right: Term, domain: Domain): (m: map<string, string>)
    requires forall key :: HasValue(At(left, right, domain, key))
    ensures forall key :: MatchesAll(Lookup(m, key), At(left, right, domain, key))
  {
    var keys := set r | r in Side(left, domain) + Side(right, domain) :: r.key;
    map key | key in keys && Witness(At(left, right, domain, key)).Some? :: Witness(At(left, right, domain, key)).value
  }

  /** Some node satisfies both terms. */
  ghost predicate Meet(left: Term, right: Term) {
    exists node :: NodeSatisfies(node, left) && NodeSatisfies(node, right)
  }

  lemma MeetIff(left: Term, right: Term)
    ensures Meet(left, right) <==> forall domain, key :: HasValue(At(left, right, domain, key))
  {
    if forall domain, key :: HasValue(At(left, right, domain, key)) {
      var node := Node(WitnessMap(left, right, Label), WitnessMap(left, right, Field));
      forall domain, key ensures MatchesAll(NodeValue(node, domain, key), At(left, right, domain, key)) {
        if domain.Label? { assert MatchesAll(Lookup(node.labels, key), At(left, right, Label, key)); }
        else { assert MatchesAll(Lookup(node.fields, key), At(left, right, Field, key)); }
      }
      SatisfiesAt(node, left, right);
    }
    if node :| NodeSatisfies(node, left) && NodeSatisfies(node, right) {
      SatisfiesAt(node, left, right);
      forall domain, key ensures HasValue(At(left, right, domain, key)) {
        assert MatchesAll(NodeValue(node, domain, key), At(left, right, domain, key));
      }
    }
  }

  /** A trap that makes the source refuse a key that has a value. */
  ghost predicate RefusingTrap(requirements: set<Requirement>) {
    AbsentTrap(requirements) || WindowTrap(requirements)
  }

  /** In which direction a trap misleads the source. */
  lemma TrapDirection(requirements: set<Requirement>)
    ensures RefusingTrap(requirements) ==> HasValue(requirements) && !Feasible(requirements)
    ensures ExtremeTrap(requirements) ==> !HasValue(requirements) && Feasible(requirements)
  {
    KeyExact(requirements);
    if AbsentTrap(requirements) {
      assert MatchesAll(None, requirements);
    } else if WindowTrap(requirements) {
      var c := SummaryExists(requirements);
      WindowTrapIff(c, requirements);
      BoundRange(c, requirements);
      WindowValue(c, requirements, c.lower.value + 1);
    } else if ExtremeTrap(requirements) {
      var c := SummaryExists(requirements);
      ExtremeTrapIff(c, requirements);
      NoWindowValue(c, requirements);
    }
  }

  /** The source accepts the pair, and some key is at the end of the range. */
  ghost predicate WronglyAccepted(left: Term, right: Term) {
    TermsFeasible(left, right) && exists domain, key :: ExtremeTrap(At(left, right, domain, key))
  }

  /** The source refuses the pair, and only for keys that are refusing traps. */
  ghost predicate WronglyRefused(left: Term, right: Term) {
    && (exists domain, key :: RefusingTrap(At(left, right, domain, key)))
    && forall domain, key ::
         var at := At(left, right, domain, key);
         RefusingTrap(at) || (Feasible(at) && !ExtremeTrap(at))
  }

  /** For two terms: the source is right exactly when it is misled in neither
      direction. */
  lemma TermsExact(left: Term, right: Term)
    ensures WronglyAccepted(left, right) <==> TermsFeasible(left, right) && !Meet(left, right)
    ensures WronglyRefused(left, right) <==> !TermsFeasible(left, right) && Meet(left, right)
  {
    MeetIff(left, right);
    forall domain, key
      ensures var at := At(left, right, domain, key);
              && ((Feasible(at) <==> HasValue(at)) <==> !RefusingTrap(at) && !ExtremeTrap(at))
              && (RefusingTrap(at) ==> HasValue(at) && !Feasible(at))
              && (ExtremeTrap(at) ==> !HasValue(at) && Feasible(at))
    {
      KeyExact(At(left, right, domain, key));
      TrapDirection(At(left, right, domain, key));
    }
  }

  function TermsOf(affinity: NodeAffinity): seq<Term> {
    if affinity.Unconstrained? then [EMPTY_TERM] else affinity.terms
  }

  /** The pairs of terms the source compares. */
  ghost predicate Compared(left: NodeAffinity, right: NodeAffinity, l: Term, r: Term) {
    && l in TermsOf(left) && r in TermsOf(right)
    && (left.Required? ==> Nonempty(l)) && (right.Required? ==> Nonempty(r))
  }

  lemma CompatiblePairs(left: NodeAffinity, right: NodeAffinity)
    ensures Compatible(left, right) <==> exists l, r :: Compared(left, right, l, r) && TermsFeasible(l, r)
  {
    assert EMPTY_TERM in [EMPTY_TERM];
    if left.Unconstrained? && right.Unconstrained? {
      assert Compared(left, right, EMPTY_TERM, EMPTY_TERM);
      assert TermsFeasible(EMPTY_TERM, EMPTY_TERM) by { SummaryFeasible(Constraint(0, None, {}, None, None), {}); }
    } else if Compatible(left, right) {
      if left.Unconstrained? {
        var t :| t in right.terms && Nonempty(t) && TermsFeasible(EMPTY_TERM, t);
        assert Compared(left, right, EMPTY_TERM, t);
      } else if right.Unconstrained? {
        var t :| t in left.terms && Nonempty(t) && TermsFeasible(t, EMPTY_TERM);
        assert Compared(left, right, t, EMPTY_TERM);
      } else {
        var l, r :| l in left.terms && r in right.terms && Nonempty(l) && Nonempty(r) && TermsFeasible(l, r);
        assert Compared(left, right, l, r);
      }
    }
  }

  /** One node satisfies a non-empty term of each constrained side. */
  ghost predicate CommonNode(left: NodeAffinity, right: NodeAffinity) {
    exists node :: Admits(left, node) && Admits(right, node)
  }

  lemma CommonNodePairs(left: NodeAffinity, right: NodeAffinity)
    ensures CommonNode(left, right) <==> exists l, r :: Compared(left, right, l, r) && Meet(l, r)
  {
    assert EMPTY_TERM in [EMPTY_TERM];
    assert forall node :: NodeSatisfies(node, EMPTY_TERM);
    if node :| Admits(left, node) && Admits(right, node) {
      var l: Term := if left.Unconstrained? then EMPTY_TERM
               else var t :| t in left.terms && Nonempty(t) && NodeSatisfies(node, t); t;
      var r := if right.Unconstrained? then EMPTY_TERM
               else var t :| t in right.terms && Nonempty(t) && NodeSatisfies(node, t); t;
      assert NodeSatisfies(node, l) && NodeSatisfies(node, r);
      assert Compared(left, right, l, r) && Meet(l, r);
    }
    if l, r :| Compared(left, right, l, r) && Meet(l, r) {
      var node :| NodeSatisfies(node, l) && NodeSatisfies(node, r);
      assert Admits(left, node) && Admits(right, node);
    }
  }

  /** When the whole check is right: it is misled on no pair, or some pair is
      accepted rightly, or its mistakes go both ways. */
  ghost predicate Reliable(left: NodeAffinity, right: NodeAffinity) {
    || (forall l, r :: Compared(left, right, l, r) ==> !WronglyAccepted(l, r) && !WronglyRefused(l, r))
    || (exists l, r :: Compared(left, right, l, r) && TermsFeasible(l, r) && !WronglyAccepted(l, r))
    || ((exists l, r :: Compared(left, right, l, r) && WronglyAccepted(l, r))
        && (exists l, r :: Compared(left, right, l, r) && WronglyRefused(l, r)))
  }

  /** For two affinities, all operators and all bounds. */
  lemma CompatibleExact(left: NodeAffinity, right: NodeAffinity)
    ensures (Compatible(left, right) <==> CommonNode(left, right)) <==> Reliable(left, right)
  {
    CompatiblePairs(left, right);
    CommonNodePairs(left, right);
    forall l, r
      ensures WronglyAccepted(l, r) <==> TermsFeasible(l, r) && !Meet(l, r)
      ensures WronglyRefused(l, r) <==> !TermsFeasible(l, r) && Meet(l, r)
    {
      TermsExact(l, r);
    }
  }

  /** No key of any compared pair of terms is a trap: a condition on the
      requirements alone. */
  ghost predicate TrapFree(left: NodeAffinity, right: NodeAffinity) {
    forall l, r, domain, key :: Compared(left, right, l, r) ==> !Trap(At(l, r, domain, key))
  }

  /** Without traps the check is true exactly when one node satisfies a
      non-empty term of each constrained side, NotIn and all. */
  lemma TrapFreeExact(left: NodeAffinity, right: NodeAffinity)
    requires TrapFree(left, right)
    ensures Compatible(left, right) <==> CommonNode(left, right)
  {
    forall l, r | Compared(left, right, l, r) ensures !WronglyAccepted(l, r) && !WronglyRefused(l, r) {
      forall domain, key ensures !ExtremeTrap(At(l, r, domain, key)) && !RefusingTrap(At(l, r, domain, key)) {
        assert !Trap(At(l, r, domain, key));
      }
    }
    CompatibleExact(left, right);
  }

  /** No NotIn, and no bound at the end of the range. */
  predicate Plain(r: Requirement) {
    !r.op.NotIn? && (r.op.Gt? ==> Bound(r) != Some(MAX_INT64)) && (r.op.Lt? ==> Bound(r) != Some(MIN_INT64))
  }

  lemma PlainRequirementsTrapFree(requirements: set<Requirement>)
    requires forall r :: r in requirements ==> Plain(r)
    ensures !Trap(requirements)
    ensures Feasible(requirements) <==> HasValue(requirements)
  {
    KeyExact(requirements);
  }

  predicate PlainAffinity(affinity: NodeAffinity) {
    affinity.Required? ==> forall t :: t in affinity.terms ==>
      forall r :: r in t.expressions + t.fields ==> Plain(r)
  }

  /** Over plain requirements the check is true exactly when one node satisfies
      a non-empty term of each constrained side. */
  lemma PlainCompatibleExact(left: NodeAffinity, right: NodeAffinity)
    requires PlainAffinity(left) && PlainAffinity(right)
    ensures Compatible(left, right) <==> CommonNode(left, right)
  {
    forall l, r, domain, key | Compared(left, right, l, r) ensures !Trap(At(l, r, domain, key)) {
      forall q | q in At(l, r, domain, key) ensures Plain(q) {
        assert q in l.expressions + l.fields || q in r.expressions + r.fields;
      }
      PlainRequirementsTrapFree(At(l, r, domain, key));
    }
    TrapFreeExact(left, right);
  }

  /** A term without requirements admits no node and counts for nothing in the
      check, as Kubernetes has it; an affinity without other terms is met by
      nothing. */
  lemma EmptyTermIgnored(terms: seq<Term>, right: NodeAffinity, node: Node)
    ensures Admits(Required(terms + [Term([], [])]), node) <==> Admits(Required(terms), node)
    ensures Compatible(Required(terms + [Term([], [])]), right) <==> Compatible(Required(terms), right)
    ensures !Admits(Required([Term([], [])]), node) && !Compatible(Required([Term([], [])]), right)
  {
    var more := terms + [Term([], [])];
    assert forall t :: t in more && Nonempty(t) <==> t in terms && Nonempty(t);
  }

  // ---- the traps occur ------------------------------------------------------

  /** A key that must be absent or differ from "a": every node without the key
      would do, the source answers no. */
  lemma AbsentTrapOccurs()
    ensures var s := {Requirement("zone", DoesNotExist, []), Requirement("zone", NotIn, ["a"])};
            HasValue(s) && !Feasible(s)
  {
    var d, n := Requirement("zone", DoesNotExist, []), Requirement("zone", NotIn, ["a"]);
    assert d in {d, n} && n in {d, n} && NeedsKey(n);
    assert MatchesAll(None, {d, n});
  }

  /** The same on two affinities: a node without labels satisfies both, the
      check answers no. */
  lemma CheckMisled()
    ensures var left := Required([Term([Requirement("zone", DoesNotExist, [])], [])]);
            var right := Required([Term([Requirement("zone", NotIn, ["a"])], [])]);
            CommonNode(left, right) && !Compatible(left, right)
  {
    var d, n := Requirement("zone", DoesNotExist, []), Requirement("zone", NotIn, ["a"]);
    var l, r := Term([d], []), Term([n], []);
    var node := Node(map[], map[]);
    assert Matches(Lookup(node.labels, "zone"), d) && Matches(Lookup(node.labels, "zone"), n);
    assert l in [l] && r in [r] && NodeSatisfies(node, l) && NodeSatisfies(node, r);
    assert Admits(Required([l]), node) && Admits(Required([r]), node);
    assert At(l, r, Label, "zone") == {d, n};
    AbsentTrapOccurs();
    assert !TermsFeasible(l, r);
  }

  /** Gt at the end of the range: no value exists, the source answers yes. */
  lemma ExtremeTrapOccurs()
    ensures var s := {Requirement("cpu", Gt, [FormatInt64(MAX_INT64)])};
            !HasValue(s) && Feasible(s)
  {
    var g := Requirement("cpu", Gt, [FormatInt64(MAX_INT64)]);
    FormatParses(MAX_INT64);
    assert g in {g} && NeedsKey(g);
    assert Bound(g) == Some(MAX_INT64);
    assert LowerIs({g}, MAX_INT64);
    assert ExtremeTrap({g});
    TrapDirection({g});
  }

  lemma SmallNumerals()
    ensures ParseInt64("4") == Some(4) && ParseInt64("6") == Some(6) && FormatInt64(5) == "5"
  {
    assert "4"[..0] == "" && "6"[..0] == "";
  }

  /** Between 4 and 6 but not "5": the label "05" would do, the source answers no. */
  lemma WindowTrapOccurs()
    ensures var s := {Requirement("cpu", Gt, ["4"]), Requirement("cpu", Lt, ["6"]), Requirement("cpu", NotIn, ["5"])};
            HasValue(s) && !Feasible(s)
  {
    var g, l, n := Requirement("cpu", Gt, ["4"]), Requirement("cpu", Lt, ["6"]), Requirement("cpu", NotIn, ["5"]);
    var s := {g, l, n};
    assert g in s && l in s && n in s;
    assert forall r :: r in s ==> r == g || r == l || r == n;
    SmallNumerals();
    assert Bound(g) == Some(4) && Bound(l) == Some(6);
    assert LowerIs(s, 4) && UpperIs(s, 6);
    assert Excludes(s, "5");
    assert WindowTrap(s);
    TrapDirection(s);
  }
}
