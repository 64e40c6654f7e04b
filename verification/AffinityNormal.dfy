/** The canonical form of a required node affinity.

    A volume's affinity is recorded once and compared for equality afterwards,
    so its stored form must not depend on the order or repetition of values,
    requirements or terms. The encoding of a term as JSON is a parameter: all
    that is used of it is that it is injective.
 */
module AffinityNormal {
  import opened Basics
  import opened Numerals
  import opened Ordering
  import opened Affinity

  type Encoding = Term -> string

  ghost predicate Injective(json: Encoding) {
    forall s, t :: json(s) == json(t) ==> s == t
  }

  /** What the Kubernetes API accepts of one requirement: the number of values
      fits the operator, and no value holds a NUL byte. */
  predicate Valid(r: Requirement) {
    && !r.op.Other?
    && (r.op.In? || r.op.NotIn? ==> r.values != [])
    && (r.op.Exists? || r.op.DoesNotExist? ==> r.values == [])
    && (r.op.Gt? || r.op.Lt? ==> |r.values| == 1)
    && (forall v :: v in r.values ==> '\0' !in v)
  }

  predicate ValidTerm(t: Term) {
    (forall r :: r in t.expressions ==> Valid(r)) && (forall r :: r in t.fields ==> Valid(r))
  }

  predicate ValidAffinity(a: NodeAffinity) {
    a.Required? ==> forall t :: t in a.terms ==> ValidTerm(t)
  }

  // ---- the three orders ------------------------------------------------------

  function OperatorName(op: Operator): string {
    match op
    case In => "In"
    case NotIn => "NotIn"
    case Exists => "Exists"
    case DoesNotExist => "DoesNotExist"
    case Gt => "Gt"
    case Lt => "Lt"
    case Other(name) => name
  }

  /** `strings.Join(values, "\x00")`. */
  function Join(values: seq<string>): string {
    if values == [] then ""
    else if |values| == 1 then values[0]
    else values[0] + "\0" + Join(values[1..])
  }

  predicate RequirementLeq(a: Requirement, b: Requirement) {
    if a.key != b.key then LexLeq(a.key, b.key)
    else if a.op != b.op then LexLeq(OperatorName(a.op), OperatorName(b.op))
    else LexLeq(Join(a.values), Join(b.values))
  }

  lemma {:induction false} JoinInjective(a: seq<string>, b: seq<string>)
    requires a != [] && b != [] && Join(a) == Join(b)
    requires (forall v :: v in a ==> '\0' !in v) && (forall v :: v in b ==> '\0' !in v)
    ensures a == b
  {
    var j := Join(a);
    assert a[0] in a && b[0] in b;
    FirstField(a);
    FirstField(b);
    assert forall i :: 0 <= i < |a[0]| ==> j[i] == a[0][i] != '\0';
    assert forall i :: 0 <= i < |b[0]| ==> j[i] == b[0][i] != '\0';
    assert |a[0]| == |b[0]|;
    assert a[0] == j[..|a[0]|] == b[0];
    if |a| > 1 {
      assert |b| > 1;
      assert Join(a[1..]) == j[|a[0]|+1..] == Join(b[1..]);
      JoinInjective(a[1..], b[1..]);
    }
    assert a == [a[0]] + a[1..] && b == [b[0]] + b[1..];
  }

  lemma FirstField(a: seq<string>)
    requires a != []
    ensures |a[0]| <= |Join(a)| && Join(a)[..|a[0]|] == a[0]
    ensures |a| == 1 <==> |a[0]| == |Join(a)|
    ensures |a| > 1 ==> Join(a)[|a[0]|] == '\0' && Join(a)[|a[0]|+1..] == Join(a[1..])
  {
  }

  lemma NamesDiffer(a: Operator, b: Operator)
    requires !a.Other? && !b.Other? && OperatorName(a) == OperatorName(b)
    ensures a == b
  {
  }

  lemma RequirementTotal(a: Requirement, b: Requirement)
    requires Valid(a) && Valid(b)
    ensures RequirementLeq(a, b) || RequirementLeq(b, a)
    ensures RequirementLeq(a, b) && RequirementLeq(b, a) ==> a == b
  {
    LexTotal(a.key, b.key);
    LexTotal(OperatorName(a.op), OperatorName(b.op));
    LexTotal(Join(a.values), Join(b.values));
    if a.key == b.key && a.op != b.op && OperatorName(a.op) == OperatorName(b.op) { NamesDiffer(a.op, b.op); }
    if a.key == b.key && a.op == b.op && Join(a.values) == Join(b.values) && a.values != [] {
      JoinInjective(a.values, b.values);
    }
  }

  lemma RequirementTransitive(a: Requirement, b: Requirement, c: Requirement)
    requires Valid(a) && Valid(b) && Valid(c) && RequirementLeq(a, b) && RequirementLeq(b, c)
    ensures RequirementLeq(a, c)
  {
    LexTotal(a.key, b.key);
    LexTotal(b.key, c.key);
    if LexLeq(a.key, b.key) && LexLeq(b.key, c.key) { LexTransitive(a.key, b.key, c.key); }
    var x, y, z := OperatorName(a.op), OperatorName(b.op), OperatorName(c.op);
    LexTotal(x, y);
    LexTotal(y, z);
    if LexLeq(x, y) && LexLeq(y, z) { LexTransitive(x, y, z); }
    if a.op != b.op && x == y { NamesDiffer(a.op, b.op); }
    if b.op != c.op && y == z { NamesDiffer(b.op, c.op); }
    if LexLeq(Join(a.values), Join(b.values)) && LexLeq(Join(b.values), Join(c.values)) {
      LexTransitive(Join(a.values), Join(b.values), Join(c.values));
    }
  }

  lemma RequirementOrder(s: set<Requirement>)
    requires forall r :: r in s ==> Valid(r)
    ensures TotalOrderOn(RequirementLeq, s)
  {
    forall x, y | x in s && y in s
      ensures (RequirementLeq(x, y) || RequirementLeq(y, x))
              && (RequirementLeq(x, y) && RequirementLeq(y, x) ==> x == y)
    {
      RequirementTotal(x, y);
    }
    forall x, y, z | x in s && y in s && z in s && RequirementLeq(x, y) && RequirementLeq(y, z)
      ensures RequirementLeq(x, z)
    {
      RequirementTransitive(x, y, z);
    }
  }

  // ---- the canonical form ----------------------------------------------------

  function NormalRequirement(r: Requirement): Requirement {
    r.(values := Canonical(LexLeq, r.values))
  }

  function NormalEach(requirements: seq<Requirement>): seq<Requirement> {
    seq(|requirements|, i requires 0 <= i < |requirements| => NormalRequirement(requirements[i]))
  }

  function NormalRequirements(requirements: seq<Requirement>): seq<Requirement> {
    Canonical(RequirementLeq, NormalEach(requirements))
  }

  function NormalTerm(t: Term): Term {
    Term(NormalRequirements(t.expressions), NormalRequirements(t.fields))
  }

  function NormalTerms(terms: seq<Term>): seq<Term> {
    seq(|terms|, i requires 0 <= i < |terms| => NormalTerm(terms[i]))
  }

  function TermLeq(json: Encoding): (Term, Term) -> bool {
    (s, t) => LexLeq(json(s), json(t))
  }

  function Normalize(json: Encoding, a: NodeAffinity): NodeAffinity {
    if a.Unconstrained? then a
    else Required(Canonical(TermLeq(json), NormalTerms(a.terms)))
  }

  lemma TermOrder(json: Encoding, s: set<Term>)
    requires Injective(json)
    ensures TotalOrderOn(TermLeq(json), s)
  {
    var leq := TermLeq(json);
    forall x, y | x in s && y in s
      ensures (leq(x, y) || leq(y, x)) && (leq(x, y) && leq(y, x) ==> x == y)
    {
      LexTotal(json(x), json(y));
    }
    forall x, y, z | x in s && y in s && z in s && leq(x, y) && leq(y, z)
      ensures leq(x, z)
    {
      LexTransitive(json(x), json(y), json(z));
    }
  }

  // ---- the loops of the source, in place --------------------------------------

  method NormalizeValues(values: seq<string>) returns (result: seq<string>)
    ensures result == Canonical(LexLeq, values)
  {
    var slice := new string[|values|](i requires 0 <= i < |values| => values[i]);
    assert slice[..] == values;
    var n := CanonicalInPlace(LexLeq, slice);
    result := slice[..n];
  }

  /** `normalizeRequirements`: the first `n` elements of the slice are the result. */
  method NormalizeRequirements(requirements: array<Requirement>) returns (n: nat)
    modifies requirements
    ensures n <= requirements.Length
    ensures requirements[..n] == NormalRequirements(old(requirements[..]))
  {
    ghost var was := requirements[..];
    for i := 0 to requirements.Length
      invariant requirements[..i] == NormalEach(was)[..i]
      invariant requirements[i..] == was[i..]
    {
      assert requirements[i] == was[i] by { assert requirements[i..][0] == was[i..][0]; }
      var values := NormalizeValues(requirements[i].values);
      requirements[i] := requirements[i].(values := values);
      assert requirements[i+1..] == was[i..][1..];
    }
    assert requirements[..] == NormalEach(was);
    n := CanonicalInPlace(RequirementLeq, requirements);
  }

  method NormalizeRequirementList(requirements: seq<Requirement>) returns (result: seq<Requirement>)
    ensures result == NormalRequirements(requirements)
  {
    var slice := new Requirement[|requirements|](i requires 0 <= i < |requirements| => requirements[i]);
    assert slice[..] == requirements;
    var n := NormalizeRequirements(slice);
    result := slice[..n];
  }

  /** `normalizeVolumeNodeAffinity`, on a copy of its argument. */
  method NormalizeVolumeNodeAffinity(json: Encoding, affinity: NodeAffinity) returns (result: NodeAffinity)
    ensures result == Normalize(json, affinity)
  {
    if affinity.Unconstrained? { return affinity; }
    var given := affinity.terms;
    var terms := new Term[|given|](i requires 0 <= i < |given| => given[i]);
    for i := 0 to |given|
      invariant terms[..i] == NormalTerms(given)[..i]
      invariant terms[i..] == given[i..]
    {
      assert terms[i] == given[i] by { assert terms[i..][0] == given[i..][0]; }
      var expressions := NormalizeRequirementList(terms[i].expressions);
      var fields := NormalizeRequirementList(terms[i].fields);
      terms[i] := Term(expressions, fields);
      assert terms[i+1..] == given[i..][1..];
    }
    assert terms[..] == NormalTerms(given);
    var n := CanonicalInPlace(TermLeq(json), terms);
    result := Required(terms[..n]);
  }

  // ---- what the form forgets ---------------------------------------------------

  /** A requirement, a term and an affinity up to order and repetition. */
  datatype RequirementView = RequirementView(key: string, op: Operator, values: set<string>)
  datatype TermView = TermView(expressions: set<RequirementView>, fields: set<RequirementView>)

  function View(r: Requirement): RequirementView {
    RequirementView(r.key, r.op, Elements(r.values))
  }

  function Views(requirements: seq<Requirement>): set<RequirementView> {
    set r | r in requirements :: View(r)
  }

  function ViewTerm(t: Term): TermView {
    TermView(Views(t.expressions), Views(t.fields))
  }

  function ViewTerms(terms: seq<Term>): set<TermView> {
    set t | t in terms :: ViewTerm(t)
  }

  lemma NormalRequirementView(r: Requirement, q: Requirement)
    ensures NormalRequirement(r) == NormalRequirement(q) <==> View(r) == View(q)
    ensures View(NormalRequirement(r)) == View(r)
  {
    LexOrder(Elements(r.values));
    LexOrder(Elements(q.values));
    CanonicalUnique(LexLeq, r.values, q.values);
    CanonicalIs(LexLeq, r.values);
  }

  lemma NormalRequirementValid(r: Requirement)
    requires Valid(r)
    ensures Valid(NormalRequirement(r))
    ensures |r.values| <= 1 ==> NormalRequirement(r) == r
  {
    LexOrder(Elements(r.values));
    CanonicalIs(LexLeq, r.values);
    var values := Canonical(LexLeq, r.values);
    assert forall v :: v in values ==> v in Elements(values);
    if r.values != [] {
      assert r.values[0] in Elements(r.values);
      assert values != [] by { assert r.values[0] in values; }
    }
    if |r.values| == 1 {
      assert r.values[1..] == [];
      assert Sort(LexLeq, r.values) == r.values;
    }
  }

  lemma EachHas(requirements: seq<Requirement>, q: Requirement)
    ensures q in NormalEach(requirements) <==> exists r :: r in requirements && NormalRequirement(r) == q
  {
    if r :| r in requirements && NormalRequirement(r) == q {
      var i :| 0 <= i < |requirements| && requirements[i] == r;
      assert NormalEach(requirements)[i] == q;
    }
  }

  lemma EachValid(requirements: seq<Requirement>)
    requires forall r :: r in requirements ==> Valid(r)
    ensures forall q :: q in NormalEach(requirements) ==> Valid(q)
    ensures TotalOrderOn(RequirementLeq, Elements(NormalEach(requirements)))
  {
    forall q | q in NormalEach(requirements) ensures Valid(q) {
      EachHas(requirements, q);
      var r :| r in requirements && NormalRequirement(r) == q;
      NormalRequirementValid(r);
    }
    RequirementOrder(Elements(NormalEach(requirements)));
  }

  /** The canonical list has exactly the canonical requirements of the list. */
  lemma NormalRequirementsHas(requirements: seq<Requirement>, q: Requirement)
    requires forall r :: r in requirements ==> Valid(r)
    ensures q in NormalRequirements(requirements) <==> exists r :: r in requirements && NormalRequirement(r) == q
  {
    EachValid(requirements);
    CanonicalIs(RequirementLeq, NormalEach(requirements));
    EachHas(requirements, q);
    assert q in Elements(NormalRequirements(requirements)) <==> q in Elements(NormalEach(requirements));
  }

  lemma NormalRequirementsView(a: seq<Requirement>, b: seq<Requirement>)
    requires (forall r :: r in a ==> Valid(r)) && (forall r :: r in b ==> Valid(r))
    ensures NormalRequirements(a) == NormalRequirements(b) <==> Views(a) == Views(b)
  {
    EachValid(a);
    EachValid(b);
    CanonicalUnique(RequirementLeq, NormalEach(a), NormalEach(b));
    EachViews(a, b);
  }

  lemma EachViews(a: seq<Requirement>, b: seq<Requirement>)
    ensures Elements(NormalEach(a)) == Elements(NormalEach(b)) <==> Views(a) == Views(b)
  {
    if Views(a) == Views(b) {
      EachSubset(a, b);
      EachSubset(b, a);
    }
    if Elements(NormalEach(a)) == Elements(NormalEach(b)) {
      ViewsSubset(a, b);
      ViewsSubset(b, a);
    }
  }

  lemma EachSubset(a: seq<Requirement>, b: seq<Requirement>)
    requires Views(a) <= Views(b)
    ensures Elements(NormalEach(a)) <= Elements(NormalEach(b))
  {
    forall q | q in NormalEach(a) ensures q in NormalEach(b) {
      EachHas(a, q);
      EachHas(b, q);
      var r :| r in a && NormalRequirement(r) == q;
      assert View(r) in Views(b);
      var s :| s in b && View(s) == View(r);
      NormalRequirementView(r, s);
    }
  }

  lemma ViewsSubset(a: seq<Requirement>, b: seq<Requirement>)
    requires Elements(NormalEach(a)) <= Elements(NormalEach(b))
    ensures Views(a) <= Views(b)
  {
    forall v | v in Views(a) ensures v in Views(b) {
      var r :| r in a && View(r) == v;
      EachHas(a, NormalRequirement(r));
      EachHas(b, NormalRequirement(r));
      assert NormalRequirement(r) in Elements(NormalEach(b));
      var s :| s in b && NormalRequirement(s) == NormalRequirement(r);
      NormalRequirementView(r, s);
    }
  }

  lemma NormalTermView(s: Term, t: Term)
    requires ValidTerm(s) && ValidTerm(t)
    ensures NormalTerm(s) == NormalTerm(t) <==> ViewTerm(s) == ViewTerm(t)
  {
    NormalRequirementsView(s.expressions, t.expressions);
    NormalRequirementsView(s.fields, t.fields);
  }

  lemma TermsHas(terms: seq<Term>, q: Term)
    ensures q in NormalTerms(terms) <==> exists t :: t in terms && NormalTerm(t) == q
  {
    if t :| t in terms && NormalTerm(t) == q {
      var i :| 0 <= i < |terms| && terms[i] == t;
      assert NormalTerms(terms)[i] == q;
    }
  }

  lemma TermsSubset(a: seq<Term>, b: seq<Term>)
    requires (forall t :: t in a ==> ValidTerm(t)) && (forall t :: t in b ==> ValidTerm(t))
    ensures ViewTerms(a) <= ViewTerms(b) <==> Elements(NormalTerms(a)) <= Elements(NormalTerms(b))
  {
    if ViewTerms(a) <= ViewTerms(b) {
      forall q | q in NormalTerms(a) ensures q in NormalTerms(b) {
        TermsHas(a, q);
        TermsHas(b, q);
        var s :| s in a && NormalTerm(s) == q;
        assert ViewTerm(s) in ViewTerms(b);
        var t :| t in b && ViewTerm(t) == ViewTerm(s);
        NormalTermView(s, t);
      }
    }
    if Elements(NormalTerms(a)) <= Elements(NormalTerms(b)) {
      forall v | v in ViewTerms(a) ensures v in ViewTerms(b) {
        var s :| s in a && ViewTerm(s) == v;
        TermsHas(a, NormalTerm(s));
        TermsHas(b, NormalTerm(s));
        assert NormalTerm(s) in Elements(NormalTerms(b));
        var t :| t in b && NormalTerm(t) == NormalTerm(s);
        NormalTermView(s, t);
      }
    }
  }

  /** Two affinities have the same form exactly when they differ only by order
      or repetition of values, requirements or terms. */
  lemma NormalizeCanonical(json: Encoding, a: NodeAffinity, b: NodeAffinity)
    requires Injective(json) && a.Required? && b.Required? && ValidAffinity(a) && ValidAffinity(b)
    ensures Normalize(json, a) == Normalize(json, b) <==> ViewTerms(a.terms) == ViewTerms(b.terms)
  {
    TermOrder(json, Elements(NormalTerms(a.terms)));
    TermOrder(json, Elements(NormalTerms(b.terms)));
    CanonicalUnique(TermLeq(json), NormalTerms(a.terms), NormalTerms(b.terms));
    TermsSubset(a.terms, b.terms);
    TermsSubset(b.terms, a.terms);
  }

  // ---- idempotence and meaning -------------------------------------------------

  lemma NormalRequirementsStable(requirements: seq<Requirement>)
    requires forall r :: r in requirements ==> Valid(r)
    ensures forall q :: q in NormalRequirements(requirements) ==> Valid(q)
    ensures Views(NormalRequirements(requirements)) == Views(requirements)
    ensures NormalRequirements(NormalRequirements(requirements)) == NormalRequirements(requirements)
  {
    var normal := NormalRequirements(requirements);
    forall q | q in normal ensures Valid(q) && View(q) in Views(requirements) {
      NormalRequirementsHas(requirements, q);
      var r :| r in requirements && NormalRequirement(r) == q;
      NormalRequirementValid(r);
      NormalRequirementView(r, r);
    }
    forall v | v in Views(requirements) ensures v in Views(normal) {
      var r :| r in requirements && View(r) == v;
      NormalRequirementsHas(requirements, NormalRequirement(r));
      NormalRequirementView(r, r);
      assert NormalRequirement(r) in normal;
    }
    NormalRequirementsView(normal, requirements);
  }

  lemma NormalTermStable(t: Term)
    requires ValidTerm(t)
    ensures ValidTerm(NormalTerm(t)) && ViewTerm(NormalTerm(t)) == ViewTerm(t)
  {
    NormalRequirementsStable(t.expressions);
    NormalRequirementsStable(t.fields);
  }

  lemma NormalizedTerms(json: Encoding, a: NodeAffinity)
    requires Injective(json) && a.Required? && ValidAffinity(a)
    ensures ValidAffinity(Normalize(json, a))
    ensures ViewTerms(Normalize(json, a).terms) == ViewTerms(a.terms)
    ensures forall q :: q in Normalize(json, a).terms <==> exists t :: t in a.terms && NormalTerm(t) == q
  {
    var normal := Normalize(json, a).terms;
    TermOrder(json, Elements(NormalTerms(a.terms)));
    CanonicalIs(TermLeq(json), NormalTerms(a.terms));
    forall q ensures q in normal <==> exists t :: t in a.terms && NormalTerm(t) == q {
      TermsHas(a.terms, q);
      assert q in Elements(normal) <==> q in Elements(NormalTerms(a.terms));
    }
    forall q | q in normal ensures ValidTerm(q) && ViewTerm(q) in ViewTerms(a.terms) {
      var t :| t in a.terms && NormalTerm(t) == q;
      NormalTermStable(t);
      assert ViewTerm(t) in ViewTerms(a.terms);
    }
    forall v | v in ViewTerms(a.terms) ensures v in ViewTerms(normal) {
      var t :| t in a.terms && ViewTerm(t) == v;
      NormalTermStable(t);
      assert NormalTerm(t) in normal;
    }
  }

  lemma NormalizeIdempotent(json: Encoding, a: NodeAffinity)
    requires Injective(json) && ValidAffinity(a)
    ensures Normalize(json, Normalize(json, a)) == Normalize(json, a)
  {
    if a.Required? {
      NormalizedTerms(json, a);
      NormalizeCanonical(json, Normalize(json, a), a);
    }
  }

  lemma MatchesNormal(value: Option<string>, r: Requirement)
    requires Valid(r)
    ensures Matches(value, NormalRequirement(r)) <==> Matches(value, r)
  {
    NormalRequirementValid(r);
    NormalRequirementView(r, r);
    var values := NormalRequirement(r).values;
    assert forall v :: v in values <==> v in Elements(values);
    assert forall v :: v in r.values <==> v in Elements(r.values);
  }

  lemma MatchListNormal(m: map<string, string>, requirements: seq<Requirement>)
    requires forall r :: r in requirements ==> Valid(r)
    ensures (forall r :: r in requirements ==> Matches(Lookup(m, r.key), r)) <==>
            (forall r :: r in NormalRequirements(requirements) ==> Matches(Lookup(m, r.key), r))
    ensures |requirements| > 0 <==> |NormalRequirements(requirements)| > 0
  {
    var normal := NormalRequirements(requirements);
    forall q { NormalRequirementsHas(requirements, q); }
    forall r | r in requirements
      ensures NormalRequirement(r) in normal
      ensures Matches(Lookup(m, r.key), NormalRequirement(r)) <==> Matches(Lookup(m, r.key), r)
    {
      MatchesNormal(Lookup(m, r.key), r);
    }
    if |requirements| > 0 { assert requirements[0] in requirements; }
    if |normal| > 0 {
      assert normal[0] in normal;
      var r :| r in requirements && NormalRequirement(r) == normal[0];
    }
  }

  lemma SatisfiesNormal(node: Node, t: Term)
    requires ValidTerm(t)
    ensures NodeSatisfies(node, NormalTerm(t)) <==> NodeSatisfies(node, t)
    ensures Nonempty(NormalTerm(t)) <==> Nonempty(t)
  {
    MatchListNormal(node.labels, t.expressions);
    MatchListNormal(node.fields, t.fields);
  }

  /** The form admits exactly the nodes of the affinity. */
  lemma NormalizePreservesNodes(json: Encoding, a: NodeAffinity, node: Node)
    requires Injective(json) && ValidAffinity(a)
    ensures Admits(Normalize(json, a), node) <==> Admits(a, node)
  {
    if a.Required? {
      NormalizedTerms(json, a);
      forall t | t in a.terms
        ensures NormalTerm(t) in Normalize(json, a).terms
        ensures NodeSatisfies(node, NormalTerm(t)) <==> NodeSatisfies(node, t)
        ensures Nonempty(NormalTerm(t)) <==> Nonempty(t)
      {
        SatisfiesNormal(node, t);
      }
    }
  }
}
