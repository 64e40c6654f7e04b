/** Relative paths and the names of standard llama.cpp shards.

    A shard is named `<stem>-<index>-of-<count>.gguf` with five decimal digits
    each. Writing and reading such a name are inverse, the names of a set sort
    in index order, and every member of a set is as good a path as the first.
 */
module Paths {
  import opened Basics
  import opened Ordering

  // ---- relative paths ---------------------------------------------------------------

  /** The components of a path, split at every slash. */
  function Parts(path: string): (parts: seq<string>)
    ensures parts != []
  {
    if path == "" then [""]
    else
      var parts := Parts(path[..|path|-1]);
      if path[|path|-1] == '/' then parts + [""]
      else parts[..|parts|-1] + [parts[|parts|-1] + [path[|path|-1]]]
  }

  predicate SafePart(part: string) {
    part != "" && part != "." && part != ".."
  }

  /** `ValidateRelativePath`. A path all of whose components are safe is
      relative and clean. */
  predicate ValidRelative(path: string) {
    && '\0' !in path && '\\' !in path
    && forall i :: 0 <= i < |Parts(path)| ==> SafePart(Parts(path)[i])
  }

  function Base(path: string): string {
    var parts := Parts(path); parts[|parts|-1]
  }

  function Above(path: string): seq<string> {
    var parts := Parts(path); parts[..|parts|-1]
  }

  lemma PartsGrow(path: string, c: char)
    requires c != '/'
    ensures Parts(path + [c]) == Above(path) + [Base(path) + [c]]
  {
    var whole := path + [c];
    assert whole[..|whole|-1] == path && whole[|whole|-1] == c;
  }

  lemma {:induction false} PartsExtend(path: string, tail: string)
    requires '/' !in tail
    ensures Parts(path + tail) == Above(path) + [Base(path) + tail]
  {
    if tail == "" {
      assert path + tail == path && Base(path) + tail == Base(path);
    } else {
      var front, last := tail[..|tail|-1], tail[|tail|-1];
      assert tail == front + [last];
      PartsExtend(path, front);
      PartsGrow(path + front, last);
      Regrouped(path, front, last);
      Regrouped(Base(path), front, last);
    }
  }

  lemma Regrouped(a: string, b: string, c: char)
    ensures (a + b) + [c] == a + (b + [c])
  {
  }

  lemma TwoParts(a: string, b: string)
    requires '/' !in a && '/' !in b
    ensures Parts(a + ['/'] + b) == [a, b]
  {
    PartsExtend("", a);
    assert "" + a == a;
    var front := a + ['/'];
    assert front[..|front|-1] == a;
    PartsExtend(front, b);
    assert "" + b == b;
  }

  /** Where a walk from the root ends, or nothing if it leaves the root. */
  function Walk(parts: seq<string>): Option<seq<string>> {
    if parts == [] then Some([])
    else
      var at, last := Walk(parts[..|parts|-1]), parts[|parts|-1];
      if at.None? then None
      else if last == "" || last == "." then at
      else if last == ".." then if at.value == [] then None else Some(at.value[..|at.value|-1])
      else Some(at.value + [last])
  }

  lemma {:induction false} WalkExact(parts: seq<string>)
    ensures Walk(parts).Some? ==> |Walk(parts).value| <= |parts|
    ensures Walk(parts) == Some(parts) <==> forall i :: 0 <= i < |parts| ==> SafePart(parts[i])
    decreases |parts|
  {
    if parts != [] {
      var front, last := parts[..|parts|-1], parts[|parts|-1];
      assert parts == front + [last];
      WalkExact(front);
      if Walk(front).Some? && SafePart(last) {
        assert Walk(front).value + [last] == parts <==> Walk(front).value == front;
      }
    }
  }

  function Joined(parts: seq<string>): string {
    if |parts| == 0 then ""
    else if |parts| == 1 then parts[0]
    else Joined(parts[..|parts|-1]) + ['/'] + parts[|parts|-1]
  }

  lemma JoinedMore(parts: seq<string>, c: char)
    requires parts != []
    ensures Joined(parts[..|parts|-1] + [parts[|parts|-1] + [c]]) == Joined(parts) + [c]
  {
    var front, last := parts[..|parts|-1], parts[|parts|-1];
    assert (front + [last + [c]])[..|parts|-1] == front;
    if front == [] { assert front + [last + [c]] == [last + [c]]; } else { Regrouped(Joined(front) + ['/'], last, c); }
  }

  lemma {:induction false} PartsJoin(path: string)
    ensures Joined(Parts(path)) == path
    decreases |path|
  {
    if path != "" {
      var front, c := path[..|path|-1], path[|path|-1];
      assert path == front + [c];
      PartsJoin(front);
      if c == '/' {
        assert (Parts(front) + [""])[..|Parts(front)|] == Parts(front);
        assert Joined(Parts(path)) == Joined(Parts(front)) + ['/'] + "";
      } else {
        JoinedMore(Parts(front), c);
      }
    }
  }

  /** A path is valid exactly when it has no NUL and no backslash and a walk along
      it from any root stays inside and goes down with every component; and it
      is the only path that leads where it leads. */
  lemma ValidExact(path: string, other: string)
    ensures ValidRelative(path) <==> '\0' !in path && '\\' !in path && Walk(Parts(path)) == Some(Parts(path))
    ensures ValidRelative(path) && ValidRelative(other) && Walk(Parts(path)) == Walk(Parts(other)) ==> path == other
  {
    WalkExact(Parts(path));
    WalkExact(Parts(other));
    PartsJoin(path);
    PartsJoin(other);
  }

  // ---- fixed-width numerals -----------------------------------------------------------

  function Pow10(w: nat): nat {
    if w == 0 then 1 else 10 * Pow10(w - 1)
  }

  /** `%0wd` for a number of at most `w` digits. */
  function Fixed(n: nat, w: nat): (s: string)
    ensures |s| == w
  {
    if w == 0 then "" else Fixed(n / 10, w - 1) + [('0' as int + n % 10) as char]
  }

  predicate Decimal(s: string) {
    forall i :: 0 <= i < |s| ==> '0' <= s[i] <= '9'
  }

  /** `strconv.Atoi` on a string of digits. */
  function Number(s: string): nat
    requires Decimal(s)
  {
    if s == "" then 0 else 10 * Number(s[..|s|-1]) + (s[|s|-1] as int - '0' as int)
  }

  lemma {:induction false} FixedReads(n: nat, w: nat)
    requires n < Pow10(w)
    ensures Decimal(Fixed(n, w)) && Number(Fixed(n, w)) == n
  {
    if w > 0 {
      FixedReads(n / 10, w - 1);
      var s := Fixed(n, w);
      assert s[..w-1] == Fixed(n / 10, w - 1);
    }
  }

  lemma {:induction false} NumberWrites(s: string)
    requires Decimal(s)
    ensures Number(s) < Pow10(|s|) && Fixed(Number(s), |s|) == s
  {
    if s != "" {
      var front, digit := s[..|s|-1], s[|s|-1] as int - '0' as int;
      NumberWrites(front);
      LastDigit(Number(front), digit);
      assert s == front + [s[|s|-1]];
    }
  }

  lemma LastDigit(n: nat, digit: nat)
    requires digit < 10
    ensures (10 * n + digit) % 10 == digit && (10 * n + digit) / 10 == n
  {
  }

  lemma {:induction false} LexAfterPrefix(p: string, a: string, b: string)
    ensures LexLeq(p + a, p + b) == LexLeq(a, b)
  {
    if p == "" {
      assert p + a == a && p + b == b;
    } else {
      assert (p + a)[1..] == p[1..] + a && (p + b)[1..] == p[1..] + b;
      LexAfterPrefix(p[1..], a, b);
    }
  }

  lemma Digits(i: nat, j: nat)
    requires i < j
    ensures i / 10 <= j / 10 && (i / 10 == j / 10 ==> i % 10 < j % 10)
  {
  }

  /** Fixed-width numerals sort as the numbers do. */
  lemma {:induction false} FixedSorts(i: nat, j: nat, w: nat, a: string, b: string)
    requires i < j < Pow10(w)
    ensures LexLeq(Fixed(i, w) + a, Fixed(j, w) + b) && Fixed(i, w) != Fixed(j, w)
    decreases w
  {
    if w > 0 {
      var x, y := ('0' as int + i % 10) as char, ('0' as int + j % 10) as char;
      var p, q := Fixed(i / 10, w - 1), Fixed(j / 10, w - 1);
      Digits(i, j);
      assert Fixed(i, w) + a == p + ([x] + a) && Fixed(j, w) + b == q + ([y] + b);
      if i / 10 < j / 10 {
        FixedSorts(i / 10, j / 10, w - 1, [x] + a, [y] + b);
        assert Fixed(i, w)[..w-1] == p && Fixed(j, w)[..w-1] == q;
      } else {
        LexAfterPrefix(p, [x] + a, [y] + b);
        assert Fixed(i, w)[w-1] == x && Fixed(j, w)[w-1] == y;
      }
    }
  }

  // ---- shard names ------------------------------------------------------------------------

  datatype Shard = Shard(stem: string, index: nat, count: nat)

  /** The path of one shard: the directory and the first group of the pattern
      are its stem. */
  function ShardPath(stem: string, index: nat, count: nat): string {
    stem + Suffix(index, count)
  }

  function Suffix(index: nat, count: nat): (s: string)
    ensures |s| == 20
  {
    "-" + Fixed(index, 5) + "-of-" + Fixed(count, 5) + ".gguf"
  }

  predicate SuffixShape(s: string) {
    |s| == 20 && s[0] == '-' && Decimal(s[1..6]) && s[6..10] == "-of-" && Decimal(s[10..15]) && s[15..] == ".gguf"
  }

  /** The pattern, applied to the base name of a path. */
  function ShardOf(path: string): Option<Shard> {
    if |path| < 20 then None
    else
      var stem, suffix := path[..|path|-20], path[|path|-20..];
      if !SuffixShape(suffix) || '\n' in Base(stem) then None
      else Some(Shard(stem, Number(suffix[1..6]), Number(suffix[10..15])))
  }

  lemma FiveDigits()
    ensures Pow10(5) == 100000
  {
    assert Pow10(3) == 10 * Pow10(2);
    assert Pow10(4) == 10 * Pow10(3);
  }

  lemma SuffixParts(index: nat, count: nat)
    ensures var s := Suffix(index, count);
            s[0] == '-' && s[1..6] == Fixed(index, 5) && s[6..10] == "-of-" && s[10..15] == Fixed(count, 5)
                && s[15..] == ".gguf"
  {
  }

  /** A shard path is read back as the shard it was written for. */
  lemma ShardRoundTrip(shard: Shard)
    requires shard.index < 100000 && shard.count < 100000 && '\n' !in Base(shard.stem)
    ensures ShardOf(ShardPath(shard.stem, shard.index, shard.count)) == Some(shard)
  {
    FiveDigits();
    var suffix := Suffix(shard.index, shard.count);
    var path := shard.stem + suffix;
    assert path[..|path|-20] == shard.stem && path[|path|-20..] == suffix;
    SuffixParts(shard.index, shard.count);
    FixedReads(shard.index, 5);
    FixedReads(shard.count, 5);
  }

  /** What is read as a shard was written for it. */
  lemma ShardExact(path: string)
    requires ShardOf(path).Some?
    ensures var s := ShardOf(path).value;
            && s.index < 100000 && s.count < 100000 && '\n' !in Base(s.stem)
            && path == ShardPath(s.stem, s.index, s.count)
  {
    FiveDigits();
    var s := ShardOf(path).value;
    var suffix := path[|path|-20..];
    NumberWrites(suffix[1..6]);
    NumberWrites(suffix[10..15]);
    SuffixWhole(suffix);
    assert path == s.stem + suffix;
  }

  lemma SuffixWhole(s: string)
    requires SuffixShape(s)
    ensures s == "-" + s[1..6] + "-of-" + s[10..15] + ".gguf"
  {
    assert s == [s[0]] + s[1..6] + s[6..10] + s[10..15] + s[15..];
  }

  function Listed(name: nat -> string, count: nat): (names: seq<string>)
    ensures |names| == count
  {
    seq(count, i requires 0 <= i < count => name(i + 1))
  }

  lemma ListedSorted(name: nat -> string, count: nat)
    requires forall i, j :: 1 <= i < j <= count ==> LexLeq(name(i), name(j)) && name(i) != name(j)
    ensures StrictlySortedBy(LexLeq, Listed(name, count))
  {
  }

  lemma ListedAll(name: nat -> string, count: nat, good: string -> bool)
    requires forall i :: 1 <= i <= count ==> good(name(i))
    ensures forall x :: x in Listed(name, count) ==> good(x)
  {
  }

  /** The paths of a whole set, in index order. */
  function ShardPaths(stem: string, count: nat): (paths: seq<string>)
    ensures |paths| == count
  {
    Listed((i: nat) => ShardPath(stem, i, count), count)
  }

  /** The paths of a set sort in index order and are distinct. */
  lemma ShardPathsSorted(stem: string, count: nat)
    requires count < 100000
    ensures StrictlySortedBy(LexLeq, ShardPaths(stem, count))
  {
    var name := (i: nat) => ShardPath(stem, i, count);
    forall i, j | 1 <= i < j <= count ensures LexLeq(name(i), name(j)) && name(i) != name(j) {
      ShardsOrdered(stem, i, j, count);
    }
    ListedSorted(name, count);
  }

  function Tail(count: nat): string {
    "-of-" + Fixed(count, 5) + ".gguf"
  }

  lemma ShardPathSplits(stem: string, index: nat, count: nat)
    ensures ShardPath(stem, index, count) == (stem + "-") + (Fixed(index, 5) + Tail(count))
  {
    assert Suffix(index, count) == "-" + (Fixed(index, 5) + Tail(count));
  }

  lemma ShardsOrdered(stem: string, i: nat, j: nat, count: nat)
    requires i < j < 100000
    ensures LexLeq(ShardPath(stem, i, count), ShardPath(stem, j, count))
    ensures ShardPath(stem, i, count) != ShardPath(stem, j, count)
  {
    FiveDigits();
    ShardPathSplits(stem, i, count);
    ShardPathSplits(stem, j, count);
    FixedSorts(i, j, 5, Tail(count), Tail(count));
    LexAfterPrefix(stem + "-", Fixed(i, 5) + Tail(count), Fixed(j, 5) + Tail(count));
    if ShardPath(stem, i, count) == ShardPath(stem, j, count) {
      SameAfterPrefix(stem + "-", Fixed(i, 5), Fixed(j, 5), Tail(count));
    }
  }

  lemma SameAfterPrefix(p: string, a: string, b: string, tail: string)
    requires |a| == |b| && p + (a + tail) == p + (b + tail)
    ensures a == b
  {
    assert (p + (a + tail))[|p|..][..|a|] == a;
    assert (p + (b + tail))[|p|..][..|b|] == b;
  }

  predicate Plain(s: string) {
    '/' !in s && '\0' !in s && '\\' !in s
  }

  lemma PlainConcat(a: string, b: string)
    requires Plain(a) && Plain(b)
    ensures Plain(a + b)
  {
  }

  lemma SuffixPlain(index: nat, count: nat)
    requires index < 100000 && count < 100000
    ensures Plain(Suffix(index, count))
  {
    FiveDigits();
    FixedReads(index, 5);
    FixedReads(count, 5);
    PlainConcat("-", Fixed(index, 5));
    PlainConcat("-" + Fixed(index, 5), "-of-");
    PlainConcat("-" + Fixed(index, 5) + "-of-", Fixed(count, 5));
    PlainConcat("-" + Fixed(index, 5) + "-of-" + Fixed(count, 5), ".gguf");
  }

  /** Every member of a set is a valid path if one of them is. */
  lemma ShardPathValid(stem: string, i: nat, j: nat, count: nat)
    requires i < 100000 && j < 100000 && count < 100000
    requires ValidRelative(ShardPath(stem, i, count))
    ensures ValidRelative(ShardPath(stem, j, count))
  {
    SuffixPlain(i, count);
    SuffixPlain(j, count);
    PartsExtend(stem, Suffix(i, count));
    PartsExtend(stem, Suffix(j, count));
    var n := |Parts(stem)| - 1;
    forall k | 0 <= k < |Parts(ShardPath(stem, j, count))| ensures SafePart(Parts(ShardPath(stem, j, count))[k]) {
      if k < n { assert Parts(ShardPath(stem, j, count))[k] == Parts(ShardPath(stem, i, count))[k]; }
    }
    forall c | c in stem ensures c in ShardPath(stem, i, count) { }
  }
}
