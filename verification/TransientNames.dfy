/** Names of transient operation files, and their scoped removal.

    A metadata file of an operation is written under a temporary name and
    renamed to its final one. The decoder recognises both, recognises nothing
    else, and attributes a name to one operation only. Cleanup removes by it.
 */
module TransientNames {
  import opened Basics

  // ---- identifiers -------------------------------------------------------------------

  predicate Alphanumeric(c: char) {
    'A' <= c <= 'Z' || 'a' <= c <= 'z' || '0' <= c <= '9'
  }

  predicate IdChar(c: char) {
    Alphanumeric(c) || c == '_' || c == '.' || c == '-'
  }

  /** The operation identifiers of the source. */
  predicate ValidId(s: string) {
    1 <= |s| <= 128 && Alphanumeric(s[0]) && forall i :: 0 <= i < |s| ==> IdChar(s[i])
  }

  /** As `hex.DecodeString` reads them, in either case. */
  predicate HexDigit(c: char) {
    HexChar(c) || 'A' <= c <= 'F'
  }

  predicate RandomSuffix(s: string) {
    |s| == 16 && forall i :: 0 <= i < |s| ==> HexDigit(s[i])
  }

  // ---- names ---------------------------------------------------------------------------

  function FinalName(id: string, suffix: string): string {
    id + suffix
  }

  function Marker(suffix: string): string {
    suffix + ".tmp-"
  }

  function TemporaryName(id: string, suffix: string, random: string): string {
    "." + (id + Marker(suffix) + random)
  }

  predicate EndsWith(s: string, suffix: string) {
    |suffix| <= |s| && s[|s|-|suffix|..] == suffix
  }

  predicate OccursAt(s: string, pattern: string, i: nat) {
    i + |pattern| <= |s| && s[i..i+|pattern|] == pattern
  }

  /** `strings.LastIndex`, from position `i` downwards. */
  function LastIndexFrom(s: string, pattern: string, i: nat): int {
    if OccursAt(s, pattern, i) then i
    else if i == 0 then -1
    else LastIndexFrom(s, pattern, i - 1)
  }

  lemma {:induction false} LastIndexFound(s: string, pattern: string, k: nat, i: nat)
    requires k <= i && OccursAt(s, pattern, k) && forall j :: k < j <= i ==> !OccursAt(s, pattern, j)
    ensures LastIndexFrom(s, pattern, i) == k
  {
    if k < i { LastIndexFound(s, pattern, k, i - 1); }
  }

  lemma {:induction false} LastIndexOccurs(s: string, pattern: string, i: nat)
    requires LastIndexFrom(s, pattern, i) >= 0
    ensures LastIndexFrom(s, pattern, i) <= i && OccursAt(s, pattern, LastIndexFrom(s, pattern, i))
  {
    if !OccursAt(s, pattern, i) { LastIndexOccurs(s, pattern, i - 1); }
  }

  /** `transientMetadataOperation`. */
  function Decode(name: string, suffix: string): Option<string> {
    if EndsWith(name, suffix) then
      var id := name[..|name|-|suffix|];
      if ValidId(id) then Some(id) else None
    else if name == "" || name[0] != '.' then None
    else
      var trimmed := name[1..];
      var at := LastIndexFrom(trimmed, Marker(suffix), |trimmed|);
      if at <= 0 then None
      else
        LastIndexOccurs(trimmed, Marker(suffix), |trimmed|);
        var id, random := trimmed[..at], trimmed[at + |Marker(suffix)|..];
        if ValidId(id) && RandomSuffix(random) then Some(id) else None
  }

  /** The suffixes in use: neither ends in a hexadecimal digit. */
  predicate MetadataSuffix(suffix: string) {
    suffix == ".json" || suffix == ".lock"
  }

  lemma DecodeFinal(id: string, suffix: string)
    requires ValidId(id)
    ensures Decode(FinalName(id, suffix), suffix) == Some(id)
  {
    var name := FinalName(id, suffix);
    assert name[|name|-|suffix|..] == suffix && name[..|name|-|suffix|] == id;
  }

  lemma MarkerLast(id: string, suffix: string, random: string, j: nat)
    requires RandomSuffix(random) && j > |id|
    ensures !OccursAt(id + Marker(suffix) + random, Marker(suffix), j)
  {
    var s, marker := id + Marker(suffix) + random, Marker(suffix);
    var last := j + |marker| - 1;
    assert marker[|marker|-1] == '-';
    if last < |s| {
      assert s[j..j+|marker|][|marker|-1] == s[last];
      assert s[last] == random[last - |id| - |marker|];
    }
  }

  lemma HexEnding(name: string, suffix: string)
    requires MetadataSuffix(suffix) && name != "" && HexDigit(name[|name|-1])
    ensures !EndsWith(name, suffix)
  {
    if |suffix| <= |name| {
      assert name[|name|-|suffix|..][|suffix|-1] == name[|name|-1];
    }
  }

  lemma DecodeTemporary(id: string, suffix: string, random: string)
    requires ValidId(id) && MetadataSuffix(suffix) && RandomSuffix(random)
    ensures Decode(TemporaryName(id, suffix, random), suffix) == Some(id)
  {
    var name, marker := TemporaryName(id, suffix, random), Marker(suffix);
    var trimmed := id + marker + random;
    assert name[1..] == trimmed;
    assert name[|name|-1] == random[15];
    HexEnding(name, suffix);
    assert trimmed[|id|..|id|+|marker|] == marker;
    forall j | |id| < j <= |trimmed| ensures !OccursAt(trimmed, marker, j) { MarkerLast(id, suffix, random, j); }
    LastIndexFound(trimmed, marker, |id|, |trimmed|);
    assert trimmed[..|id|] == id && trimmed[|id| + |marker|..] == random;
  }

  /** The name is the final or a temporary name of the operation. */
  ghost predicate NameOf(name: string, id: string, suffix: string) {
    && ValidId(id)
    && (name == FinalName(id, suffix) || exists random ::
        RandomSuffix(random) && name == TemporaryName(id, suffix, random))
  }

  lemma DecodeSound(name: string, suffix: string)
    requires Decode(name, suffix).Some?
    ensures NameOf(name, Decode(name, suffix).value, suffix)
  {
    if EndsWith(name, suffix) {
      assert name == name[..|name|-|suffix|] + suffix;
    } else {
      var trimmed, marker := name[1..], Marker(suffix);
      var at := LastIndexFrom(trimmed, marker, |trimmed|);
      LastIndexOccurs(trimmed, marker, |trimmed|);
      var id, random := trimmed[..at], trimmed[at + |marker|..];
      assert trimmed == id + trimmed[at..at+|marker|] + random;
      assert name == "." + trimmed;
      assert RandomSuffix(random) && name == TemporaryName(id, suffix, random);
    }
  }

  /** The decoder recognises exactly the names of operations. */
  lemma DecodeExact(name: string, id: string, suffix: string)
    requires MetadataSuffix(suffix)
    ensures Decode(name, suffix) == Some(id) <==> NameOf(name, id, suffix)
  {
    if NameOf(name, id, suffix) {
      if name == FinalName(id, suffix) {
        DecodeFinal(id, suffix);
      } else {
        var random :| RandomSuffix(random) && name == TemporaryName(id, suffix, random);
        DecodeTemporary(id, suffix, random);
      }
    }
    if Decode(name, suffix) == Some(id) { DecodeSound(name, suffix); }
  }

  /** No name belongs to two operations. */
  lemma OneOperation(name: string, a: string, b: string, suffix: string)
    requires MetadataSuffix(suffix) && NameOf(name, a, suffix) && NameOf(name, b, suffix)
    ensures a == b
  {
    DecodeExact(name, a, suffix);
    DecodeExact(name, b, suffix);
  }

  // ---- scoped removal -------------------------------------------------------------------

  /** `ValidateOperationPrefix`. */
  predicate ValidPrefix(prefix: string) {
    && prefix != "" && prefix[|prefix|-1] == '-' && |prefix| <= 108
    && ValidId(prefix[..|prefix|-1])
  }

  datatype Area = Staging | Intents | Operations | Revisions | Locks

  const AREAS: seq<Area> := [Staging, Intents, Operations, Revisions, Locks]

  function SuffixOf(area: Area): string {
    if area == Locks then ".lock" else ".json"
  }

  function OperationOf(area: Area, name: string): Option<string> {
    if area == Staging then Some(name) else Decode(name, SuffixOf(area))
  }

  /** The entry is state of an operation with the prefix. */
  predicate Owned(area: Area, name: string, prefix: string) {
    var id := OperationOf(area, name); id.Some? && prefix <= id.value && ValidId(id.value)
  }

  /** What is owned, without the decoder: a staging directory named by an
      operation, or a metadata file of one. */
  lemma OwnedExact(area: Area, name: string, prefix: string)
    ensures Owned(area, name, prefix) <==>
            exists id :: prefix <= id && ValidId(id) && (if area == Staging then name == id
                else NameOf(name, id, SuffixOf(area)))
  {
    if area != Staging {
      if Owned(area, name, prefix) { DecodeSound(name, SuffixOf(area)); }
      forall id | NameOf(name, id, SuffixOf(area)) ensures Decode(name, SuffixOf(area)) == Some(id) {
        DecodeExact(name, id, SuffixOf(area));
      }
    } else if Owned(area, name, prefix) {
      assert prefix <= name && ValidId(name);
    }
  }

  /** Operations of different artifacts are apart: prefixes of one length
      own disjoint state. */
  lemma PrefixesApart(area: Area, name: string, p: string, q: string)
    requires |p| == |q| && p != q && Owned(area, name, p)
    ensures !Owned(area, name, q)
  {
    var id := OperationOf(area, name).value;
    assert p == id[..|p|];
  }

  function Kept(area: Area, names: set<string>, prefix: string): set<string> {
    set name | name in names && !Owned(area, name, prefix)
  }

  function OwnedIn(area: Area, names: set<string>, prefix: string): set<string> {
    set name | name in names && Owned(area, name, prefix)
  }

  /** A sweep over `before`: `names` are left, those in `todo` not yet looked at,
      `spent` removed. */
  ghost predicate Sweeping(area: Area, prefix: string, before: set<string>, names: set<string>, todo: set<string>,
    spent: nat) {
    && todo <= names <= before && Kept(area, before, prefix) <= names
    && OwnedIn(area, names, prefix) <= todo
    && spent + |OwnedIn(area, names, prefix)| == |OwnedIn(area, before, prefix)|
  }

  lemma SweepNext(
    area: Area, prefix: string, before: set<string>, names: set<string>, todo: set<string>, spent: nat, name: string)
    requires Sweeping(area, prefix, before, names, todo, spent) && name in todo
    ensures if Owned(area, name, prefix) then
              Sweeping(area, prefix, before, names - {name}, todo - {name}, spent + 1)
                  && |OwnedIn(area, names, prefix)| > 0
            else Sweeping(area, prefix, before, names, todo - {name}, spent)
  {
    if Owned(area, name, prefix) {
      assert OwnedIn(area, names, prefix) == OwnedIn(area, names - {name}, prefix) + {name};
      assert name !in Kept(area, before, prefix);
    }
  }

  lemma SweepDone(area: Area, prefix: string, before: set<string>, names: set<string>, spent: nat)
    requires Sweeping(area, prefix, before, names, {}, spent)
    ensures names == Kept(area, before, prefix) && OwnedIn(area, names, prefix) == {}
            && spent == |OwnedIn(area, before, prefix)|
  {
    assert OwnedIn(area, names, prefix) == {};
    forall name | name in names ensures name in Kept(area, before, prefix) {
      assert name !in OwnedIn(area, names, prefix);
    }
  }

  datatype Outcome = Rejected | Interrupted | Cleaned

  type Entries = map<Area, set<string>>

  /** Nothing was added, and what is gone was owned. */
  ghost predicate OnlyOwnedGone(before: Entries, after: Entries, prefix: string) {
    && after.Keys == before.Keys
    && forall area :: area in after ==> Kept(area, before[area], prefix) <= after[area] <= before[area]
  }

  function OwnedAt(entries: Entries, area: Area, prefix: string): nat {
    if area in entries then |OwnedIn(area, entries[area], prefix)| else 0
  }

  /** How many entries of the prefix the areas from the k-th on hold. */
  function OwnedFrom(entries: Entries, prefix: string, k: nat): nat
    requires k <= |AREAS|
    decreases |AREAS| - k
  {
    if k == |AREAS| then 0 else OwnedAt(entries, AREAS[k], prefix) + OwnedFrom(entries, prefix, k + 1)
  }

  lemma {:induction false} SameFrom(before: Entries, after: Entries, prefix: string, k: nat)
    requires k <= |AREAS| && after.Keys == before.Keys && UntouchedFrom(before, after, k)
    ensures OwnedFrom(after, prefix, k) == OwnedFrom(before, prefix, k)
    decreases |AREAS| - k
  {
    if k < |AREAS| { SameFrom(before, after, prefix, k + 1); }
  }

  ghost predicate CleanUpTo(before: Entries, after: Entries, prefix: string, k: nat)
    requires k <= |AREAS|
  {
    forall i :: 0 <= i < k && AREAS[i] in before && AREAS[i] in after ==>
        after[AREAS[i]] == Kept(AREAS[i], before[AREAS[i]], prefix)
  }

  ghost predicate UntouchedFrom(before: Entries, after: Entries, k: nat)
    requires k <= |AREAS|
  {
    forall i :: k <= i < |AREAS| && AREAS[i] in before && AREAS[i] in after ==> after[AREAS[i]] == before[AREAS[i]]
  }

  /** The areas were worked through in order: all before one of them are clean,
      all behind it untouched. */
  ghost predicate InOrder(before: Entries, after: Entries, prefix: string) {
    exists k :: 0 <= k < |AREAS| && CleanUpTo(before, after, prefix, k) && UntouchedFrom(before, after, k + 1)
  }

  lemma AreaCleaned(before: Entries, middle: Entries, after: Entries, prefix: string, k: nat, done: bool)
    requires k < |AREAS| && AREAS[k] in middle
    requires OnlyOwnedGone(before, middle, prefix) && CleanUpTo(before, middle, prefix, k)
            && UntouchedFrom(before, middle, k)
    requires after.Keys == middle.Keys && forall a :: a in after && a != AREAS[k] ==> after[a] == middle[a]
    requires Kept(AREAS[k], middle[AREAS[k]], prefix) <= after[AREAS[k]] <= middle[AREAS[k]]
    requires done ==> after[AREAS[k]] == Kept(AREAS[k], middle[AREAS[k]], prefix)
    ensures OnlyOwnedGone(before, after, prefix)
    ensures CleanUpTo(before, after, prefix, if done then k + 1 else k) && UntouchedFrom(before, after, k + 1)
  {
    Distinct();
  }

  /** What is left when the k-th area was the last one worked on. */
  lemma Remaining(before: Entries, after: Entries, prefix: string, k: nat)
    requires k < |AREAS| && after.Keys == before.Keys && CleanUpTo(before, after, prefix, k)
            && UntouchedFrom(before, after, k + 1)
    ensures OwnedFrom(after, prefix, 0) == OwnedAt(after, AREAS[k], prefix) + OwnedFrom(before, prefix, k + 1)
  {
    SameFrom(before, after, prefix, k + 1);
    NothingBefore(before, after, prefix, k, 0);
  }

  lemma {:induction false} NothingBefore(before: Entries, after: Entries, prefix: string, k: nat, i: nat)
    requires i <= k <= |AREAS| && after.Keys == before.Keys && CleanUpTo(before, after, prefix, k)
    ensures OwnedFrom(after, prefix, i) == OwnedFrom(after, prefix, k)
    decreases k - i
  {
    if i < k {
      NothingBefore(before, after, prefix, k, i + 1);
      if AREAS[i] in after {
        assert after[AREAS[i]] == Kept(AREAS[i], before[AREAS[i]], prefix);
        assert OwnedIn(AREAS[i], after[AREAS[i]], prefix) == {};
      }
    }
  }

  lemma Distinct()
    ensures forall i, j :: 0 <= i < j < |AREAS| ==> AREAS[i] != AREAS[j]
  {
  }

  /** The cache directory: the transient areas that exist, and the blobs. */
  class CacheDirectory {
    var entries: Entries
    var blobs: map<string, seq<byte>>

    constructor (entries: Entries, blobs: map<string, seq<byte>>)
      ensures this.entries == entries && this.blobs == blobs
    {
      this.entries := entries;
      this.blobs := blobs;
    }

    /** One area, its entries in any order, of which `steps` can be removed:
        all entries of the prefix if that is enough, otherwise so many of them. */
    method RemoveArea(area: Area, prefix: string, steps: nat) returns (left: Option<nat>)
      requires area in entries
      modifies this`entries
      ensures entries.Keys == old(entries).Keys
      ensures forall a :: a in entries && a != area ==> entries[a] == old(entries)[a]
      ensures Kept(area, old(entries)[area], prefix) <= entries[area] <= old(entries)[area]
      ensures var owned := OwnedAt(old(entries), area, prefix);
              && left == (if steps < owned then None else Some(steps - owned))
              && OwnedAt(entries, area, prefix) == (if steps < owned then owned - steps else 0)
      ensures left.Some? ==> entries[area] == Kept(area, old(entries)[area], prefix)
    {
      var budget: nat := steps;
      var names, todo := entries[area], entries[area];
      while todo != {}
        invariant entries == old(entries)[area := names] && budget <= steps
        invariant Sweeping(area, prefix, old(entries)[area], names, todo, steps - budget)
        decreases |todo|
      {
        var name :| name in todo;
        SweepNext(area, prefix, old(entries)[area], names, todo, steps - budget, name);
        todo := todo - {name};
        if Owned(area, name, prefix) {
          if budget == 0 { return None; }
          names := names - {name};
          entries := entries[area := names];
          budget := budget - 1;
        }
      }
      SweepDone(area, prefix, old(entries)[area], names, steps - budget);
      return Some(budget);
    }

    /** `RemoveOperationState`, when `steps` removals succeed: only state of the
        prefix is ever gone, area after area. All of it goes exactly when
        `steps` is enough, otherwise so many entries. Blobs stay. */
    method RemoveOperationState(prefix: string, steps: nat) returns (outcome: Outcome)
      modifies this`entries
      ensures var owned := OwnedFrom(old(entries), prefix, 0);
              outcome == if !ValidPrefix(prefix) then Rejected else if steps < owned then Interrupted else Cleaned
      ensures OnlyOwnedGone(old(entries), entries, prefix)
      ensures outcome == Rejected ==> entries == old(entries)
      ensures InOrder(old(entries), entries, prefix)
      ensures outcome == Cleaned ==> CleanUpTo(old(entries), entries, prefix, |AREAS|)
      ensures outcome == Interrupted ==> OwnedFrom(entries, prefix, 0) == OwnedFrom(old(entries), prefix, 0) - steps
    {
      if !ValidPrefix(prefix) {
        assert CleanUpTo(entries, entries, prefix, 0) && UntouchedFrom(entries, entries, 1);
        return Rejected;
      }
      var budget: nat := steps;
      var k := 0;
      while k < |AREAS|
        invariant 0 <= k <= |AREAS|
        invariant OnlyOwnedGone(old(entries), entries, prefix)
        invariant CleanUpTo(old(entries), entries, prefix, k) && UntouchedFrom(old(entries), entries, k)
        invariant steps - budget + OwnedFrom(old(entries), prefix, k) == OwnedFrom(old(entries), prefix, 0)
      {
        if AREAS[k] in entries {
          ghost var middle := entries;
          var left := RemoveArea(AREAS[k], prefix, budget);
          AreaCleaned(old(entries), middle, entries, prefix, k, left.Some?);
          if left.None? {
            Remaining(old(entries), entries, prefix, k);
            return Interrupted;
          }
          budget := left.value;
        }
        k := k + 1;
      }
      assert CleanUpTo(old(entries), entries, prefix, |AREAS| - 1) && UntouchedFrom(old(entries), entries, |AREAS|);
      return Cleaned;
    }
  }
}
