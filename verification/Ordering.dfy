/** Sorting, in-place compaction and the byte order of strings.

    Three places of the source sort a slice and then keep one element of every
    run of equal neighbours: selected files, the values of a node selector
    requirement, and the requirements and terms of a node affinity. All three
    rest on the two facts proved here: the result is strictly increasing and
    has the elements of the input, and those two facts determine it.
 */
module Ordering {

  function Elements<T(==)>(s: seq<T>): set<T> {
    set x | x in s
  }

  /** `leq` compares the elements of `s` and may leave ties. */
  ghost predicate TotalPreorderOn<T(!new)>(leq: (T, T) -> bool, s: set<T>) {
    && (forall x, y :: x in s && y in s ==> leq(x, y) || leq(y, x))
    && (forall x, y, z :: x in s && y in s && z in s && leq(x, y) && leq(y, z) ==> leq(x, z))
  }

  /** `leq` is a total order on the elements of `s`. */
  ghost predicate TotalOrderOn<T(!new)>(leq: (T, T) -> bool, s: set<T>) {
    && TotalPreorderOn(leq, s)
    && (forall x, y :: x in s && y in s && leq(x, y) && leq(y, x) ==> x == y)
  }

  ghost predicate SortedBy<T(!new)>(leq: (T, T) -> bool, s: seq<T>) {
    forall i, j :: 0 <= i < j < |s| ==> leq(s[i], s[j])
  }

  ghost predicate StrictlySortedBy<T(!new)>(leq: (T, T) -> bool, s: seq<T>) {
    forall i, j :: 0 <= i < j < |s| ==> leq(s[i], s[j]) && s[i] != s[j]
  }

  function Insert<T>(leq: (T, T) -> bool, x: T, s: seq<T>): (r: seq<T>)
    ensures |r| == |s| + 1
  {
    if s == [] then [x]
    else if leq(x, s[0]) then [x] + s
    else [s[0]] + Insert(leq, x, s[1..])
  }

  /** The library sort (`slices.Sort`, `slices.SortFunc`). */
  function Sort<T>(leq: (T, T) -> bool, s: seq<T>): (r: seq<T>)
    ensures |r| == |s|
  {
    if s == [] then [] else Insert(leq, s[0], Sort(leq, s[1..]))
  }

  lemma SortedCons<T(!new)>(leq: (T, T) -> bool, x: T, s: seq<T>)
    requires SortedBy(leq, s) && forall y :: y in s ==> leq(x, y)
    ensures SortedBy(leq, [x] + s)
  {
    var t := [x] + s;
    forall i, j | 0 <= i < j < |t| ensures leq(t[i], t[j]) {
      assert t[j] == s[j-1];
      if i > 0 { assert t[i] == s[i-1]; }
    }
  }

  lemma {:induction false} InsertKeeps<T(!new)>(leq: (T, T) -> bool, x: T, s: seq<T>, domain: set<T>)
    requires TotalPreorderOn(leq, domain) && x in domain && (forall y :: y in s ==> y in domain)
    requires SortedBy(leq, s)
    ensures SortedBy(leq, Insert(leq, x, s))
    ensures multiset(Insert(leq, x, s)) == multiset{x} + multiset(s)
  {
    if s == [] {
    } else if leq(x, s[0]) {
      forall y | y in s ensures leq(x, y) {
        var i :| 0 <= i < |s| && s[i] == y;
        assert i == 0 || leq(s[0], s[i]);
      }
      SortedCons(leq, x, s);
    } else {
      InsertKeeps(leq, x, s[1..], domain);
      var rest := Insert(leq, x, s[1..]);
      assert s == [s[0]] + s[1..];
      forall y | y in rest ensures leq(s[0], y) {
        assert y in multiset(rest);
        assert y == x || y in s[1..];
      }
      SortedCons(leq, s[0], rest);
    }
  }

  lemma {:induction false} SortSorts<T(!new)>(leq: (T, T) -> bool, s: seq<T>, domain: set<T>)
    requires TotalPreorderOn(leq, domain) && (forall y :: y in s ==> y in domain)
    ensures SortedBy(leq, Sort(leq, s))
    ensures multiset(Sort(leq, s)) == multiset(s)
  {
    if s != [] {
      SortSorts(leq, s[1..], domain);
      assert s == [s[0]] + s[1..];
      forall y | y in Sort(leq, s[1..]) ensures y in domain {
        assert y in multiset(Sort(leq, s[1..]));
      }
      InsertKeeps(leq, s[0], Sort(leq, s[1..]), domain);
    }
  }

  /** One element of every run of equal neighbours. */
  function Compact<T(==)>(s: seq<T>): seq<T> {
    if |s| <= 1 then s
    else if s[|s|-1] == s[|s|-2] then Compact(s[..|s|-1])
    else Compact(s[..|s|-1]) + [s[|s|-1]]
  }

  lemma {:induction false} CompactKeeps<T(!new)>(s: seq<T>)
    ensures Elements(Compact(s)) == Elements(s)
    ensures s != [] ==> Compact(s) != [] && Compact(s)[|Compact(s)|-1] == s[|s|-1]
  {
    if |s| > 1 {
      CompactKeeps(s[..|s|-1]);
      assert s == s[..|s|-1] + [s[|s|-1]];
      forall x | x in s ensures x in Compact(s) {
        assert x in s[..|s|-1] || x == s[|s|-1];
        assert x in s[..|s|-1] ==> x in Elements(s[..|s|-1]);
      }
      forall x | x in Compact(s) ensures x in s {
        assert x in Elements(Compact(s[..|s|-1])) || x == s[|s|-1];
      }
    }
  }

  lemma {:induction false} CompactSorted<T(!new)>(leq: (T, T) -> bool, s: seq<T>, domain: set<T>)
    requires TotalOrderOn(leq, domain) && (forall y :: y in s ==> y in domain)
    requires SortedBy(leq, s)
    ensures StrictlySortedBy(leq, Compact(s))
  {
    if |s| > 1 {
      var front, last := s[..|s|-1], s[|s|-1];
      CompactSorted(leq, front, domain);
      CompactKeeps(front);
      if last != s[|s|-2] {
        var c := Compact(front);
        forall i | 0 <= i < |c| ensures leq(c[i], last) && c[i] != last {
          assert c[i] in Elements(c);
          var k :| 0 <= k < |front| && front[k] == c[i];
          assert leq(s[k], last);
          assert leq(s[k], s[|s|-2]) || k == |s|-2;
          assert leq(s[|s|-2], last);
        }
      }
    }
  }

  /** Sort, then compact: the shape shared by every canonicaliser of the source. */
  function Canonical<T(==)>(leq: (T, T) -> bool, s: seq<T>): seq<T> {
    Compact(Sort(leq, s))
  }

  lemma CanonicalIs<T(!new)>(leq: (T, T) -> bool, s: seq<T>)
    requires TotalOrderOn(leq, Elements(s))
    ensures StrictlySortedBy(leq, Canonical(leq, s))
    ensures Elements(Canonical(leq, s)) == Elements(s)
  {
    SortSorts(leq, s, Elements(s));
    var sorted := Sort(leq, s);
    forall x ensures x in sorted <==> x in s {
      assert x in multiset(sorted) <==> x in multiset(s);
    }
    assert Elements(sorted) == Elements(s);
    CompactSorted(leq, sorted, Elements(s));
    CompactKeeps(sorted);
  }

  /** A strictly increasing sequence is determined by its elements. */
  lemma {:induction false} StrictlySortedUnique<T(!new)>(leq: (T, T) -> bool, a: seq<T>, b: seq<T>)
    requires TotalOrderOn(leq, Elements(a)) && Elements(a) == Elements(b)
    requires StrictlySortedBy(leq, a) && StrictlySortedBy(leq, b)
    ensures a == b
    decreases |a|
  {
    if a == [] {
      assert forall i :: 0 <= i < |b| ==> b[i] in Elements(b);
    } else {
      assert a[0] in Elements(a);
      assert b != [];
      assert b[0] in Elements(b);
      var i :| 0 <= i < |b| && b[i] == a[0];
      var j :| 0 <= j < |a| && a[j] == b[0];
      assert leq(b[0], a[0]) || i == 0;
      assert leq(a[0], b[0]) || j == 0;
      assert a[0] == b[0];
      forall x ensures x in a[1..] <==> x in b[1..] {
        assert x in a[1..] <==> x in Elements(a) && x != a[0] by {
          if x in Elements(a) && x != a[0] { var k :| 0 <= k < |a| && a[k] == x; assert a[1..][k-1] == x; }
        }
        assert x in b[1..] <==> x in Elements(b) && x != b[0] by {
          if x in Elements(b) && x != b[0] { var k :| 0 <= k < |b| && b[k] == x; assert b[1..][k-1] == x; }
        }
      }
      assert Elements(a[1..]) == Elements(b[1..]);
      assert forall x :: x in Elements(a[1..]) ==> x in Elements(a);
      StrictlySortedUnique(leq, a[1..], b[1..]);
      assert a == [a[0]] + a[1..] && b == [b[0]] + b[1..];
    }
  }

  /** Two slices with the same elements have the same canonical form, and only those. */
  lemma CanonicalUnique<T(!new)>(leq: (T, T) -> bool, a: seq<T>, b: seq<T>)
    requires TotalOrderOn(leq, Elements(a)) && TotalOrderOn(leq, Elements(b))
    ensures Elements(a) == Elements(b) <==> Canonical(leq, a) == Canonical(leq, b)
  {
    CanonicalIs(leq, a);
    CanonicalIs(leq, b);
    if Elements(a) == Elements(b) {
      StrictlySortedUnique(leq, Canonical(leq, a), Canonical(leq, b));
    }
  }

  /** The loop that compacts a slice inside its own backing array: the write
      index never passes the read index. */
  method CompactInPlace<T(==)>(a: array<T>) returns (n: nat)
    modifies a
    ensures n <= a.Length
    ensures a[..n] == Compact(old(a[..]))
  {
    n := 0;
    ghost var was := a[..];
    var i := 0;
    while i < a.Length
      invariant 0 <= n <= i <= a.Length
      invariant a[i..] == was[i..]
      invariant a[..n] == Compact(was[..i])
      invariant i > 0 ==> n > 0 && a[n-1] == was[i-1]
    {
      assert was[..i+1][..i] == was[..i];
      assert a[i] == was[i] by { assert a[i..][0] == was[i..][0]; }
      ghost var rest := was[i..];
      if n == 0 || a[n-1] != a[i] {
        a[n] := a[i];
        assert a[..n+1] == a[..n] + [was[i]];
        n := n + 1;
      }
      i := i + 1;
      assert a[i..] == was[i..] by {
        forall k | i <= k < a.Length ensures a[k] == was[k] { assert rest[k-i+1] == was[k]; }
      }
    }
    assert was[..i] == was;
  }

  /** A library sort followed by the compaction loop, both in place. */
  method CanonicalInPlace<T(==)>(leq: (T, T) -> bool, a: array<T>) returns (n: nat)
    modifies a
    ensures n <= a.Length && a[..n] == Canonical(leq, old(a[..]))
  {
    var sorted := Sort(leq, a[..]);
    for i := 0 to a.Length
      invariant a[..i] == sorted[..i]
    {
      a[i] := sorted[i];
    }
    assert a[..] == sorted;
    n := CompactInPlace(a);
  }

  // ---- the byte order of strings -------------------------------------------

  /** `strings.Compare(a, b) <= 0`. */
  predicate LexLeq(a: string, b: string) {
    a == [] || (b != [] && (a[0] < b[0] || (a[0] == b[0] && LexLeq(a[1..], b[1..]))))
  }

  lemma {:induction false} LexTotal(a: string, b: string)
    ensures LexLeq(a, b) || LexLeq(b, a)
    ensures LexLeq(a, b) && LexLeq(b, a) ==> a == b
  {
    if a != [] && b != [] && a[0] == b[0] {
      LexTotal(a[1..], b[1..]);
      assert a == [a[0]] + a[1..] && b == [b[0]] + b[1..];
    }
  }

  lemma {:induction false} LexTransitive(a: string, b: string, c: string)
    requires LexLeq(a, b) && LexLeq(b, c)
    ensures LexLeq(a, c)
  {
    if a != [] && b != [] && c != [] && a[0] == b[0] == c[0] {
      LexTransitive(a[1..], b[1..], c[1..]);
    }
  }

  lemma LexOrder(s: set<string>)
    ensures TotalOrderOn(LexLeq, s)
  {
    forall x, y | x in s && y in s
      ensures (LexLeq(x, y) || LexLeq(y, x)) && (LexLeq(x, y) && LexLeq(y, x) ==> x == y)
    {
      LexTotal(x, y);
    }
    forall x, y, z | x in s && y in s && z in s && LexLeq(x, y) && LexLeq(y, z)
      ensures LexLeq(x, z)
    {
      LexTransitive(x, y, z);
    }
  }
}
