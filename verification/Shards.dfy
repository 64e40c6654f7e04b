/** Selected files, manifests and sets of GGUF shards.

    The selection of an import is normalised and expanded to the whole shard
    set of its entrypoint; a manifest lists its files strictly sorted; a set is
    accepted exactly when the k-th file of its manifest is the k-th shard.
 */
module Shards {
  import opened Basics
  import opened Ordering
  import opened Paths
  import opened GgufFile
  import opened GgufLayout

  const MAX_SELECTED_FILES := 128

  // ---- selections -------------------------------------------------------------------

  function Lower(c: char): char {
    if 'A' <= c <= 'Z' then c - 'A' + 'a' else c
  }

  /** `strings.EqualFold(path.Ext(name), ".gguf")`. */
  predicate HasGgufExtension(name: string) {
    |name| >= 5 && var e := name[|name|-5..];
    e[0] == '.' && Lower(e[1]) == 'g' && Lower(e[2]) == 'g' && Lower(e[3]) == 'u' && Lower(e[4]) == 'f'
  }

  predicate Selectable(name: string) {
    ValidRelative(name) && HasGgufExtension(name)
  }

  /** An empty selection stands for the entrypoint. */
  function Chosen(entrypoint: string, selected: seq<string>): seq<string> {
    if selected == [] then [entrypoint] else selected
  }

  predicate Normalizable(entrypoint: string, selected: seq<string>) {
    && |selected| <= MAX_SELECTED_FILES && entrypoint in selected
    && forall name :: name in selected ==> Selectable(name)
  }

  /** `for name := range unique`, in whatever order, and then a sort. */
  method SortedMembers(names: set<string>) returns (sorted: seq<string>)
    ensures StrictlySortedBy(LexLeq, sorted) && Elements(sorted) == names
  {
    var list: seq<string> := [];
    var left := names;
    while left != {}
      invariant left <= names && Elements(list) == names - left
      invariant forall i, j :: 0 <= i < j < |list| ==> list[i] != list[j]
      decreases |left|
    {
      var name :| name in left;
      assert name !in Elements(list);
      assert Elements(list + [name]) == Elements(list) + {name};
      list := list + [name];
      left := left - {name};
    }
    sorted := Sort(LexLeq, list);
    LexOrder(Elements(list));
    SortSorts(LexLeq, list, Elements(list));
    DistinctSorted(list, sorted);
  }

  lemma DistinctSorted(list: seq<string>, sorted: seq<string>)
    requires multiset(sorted) == multiset(list) && SortedBy(LexLeq, sorted)
    requires forall i, j :: 0 <= i < j < |list| ==> list[i] != list[j]
    ensures StrictlySortedBy(LexLeq, sorted) && Elements(sorted) == Elements(list)
  {
    forall x ensures x in sorted <==> x in list {
      assert x in multiset(sorted) <==> x in multiset(list);
    }
    forall i, j | 0 <= i < j < |sorted| ensures sorted[i] != sorted[j] {
      if sorted[i] == sorted[j] {
        Twice(sorted, i, j);
        Once(list, sorted[i]);
      }
    }
  }

  lemma Twice(s: seq<string>, i: nat, j: nat)
    requires i < j < |s| && s[i] == s[j]
    ensures multiset(s)[s[i]] >= 2
  {
    assert s == s[..i] + [s[i]] + s[i+1..j] + [s[j]] + s[j+1..];
  }

  lemma {:induction false} Once(s: seq<string>, x: string)
    requires forall i, j :: 0 <= i < j < |s| ==> s[i] != s[j]
    ensures multiset(s)[x] <= 1
  {
    if s != [] {
      var front, last := s[..|s|-1], s[|s|-1];
      assert s == front + [last];
      Once(front, x);
      if last == x {
        assert last !in front;
      }
    }
  }

  predicate Accepted(name: string) {
    ValidRelative(name) && name != "manifest.json" && name != "READY" && HasGgufExtension(name)
  }

  /** The reserved names are no GGUF names: the test for them rejects nothing more. */
  lemma AcceptedIsSelectable(name: string)
    ensures Accepted(name) == Selectable(name)
  {
  }

  /** The loop over a selection: every name is checked, then collected. */
  method UniqueNames(names: seq<string>, accept: string -> bool) returns (r: Option<set<string>>)
    ensures r.Some? <==> forall name :: name in names ==> accept(name)
    ensures r.Some? ==> r.value == Elements(names)
  {
    var unique: set<string> := {};
    var i := 0;
    while i < |names|
      invariant 0 <= i <= |names|
      invariant unique == Elements(names[..i])
      invariant forall k :: 0 <= k < i ==> accept(names[k])
    {
      assert names[i] in names;
      if !accept(names[i]) { return None; }
      assert names[..i+1] == names[..i] + [names[i]];
      unique := unique + {names[i]};
      i := i + 1;
    }
    assert names[..i] == names;
    return Some(unique);
  }

  method NormalizeSelectedFiles(entrypoint: string, selected: seq<string>) returns (r: Option<seq<string>>)
    ensures r.Some? <==> ValidRelative(entrypoint) && Normalizable(entrypoint, Chosen(entrypoint, selected))
    ensures r.Some? ==> StrictlySortedBy(LexLeq, r.value) && Elements(r.value) == Elements(Chosen(entrypoint, selected))
  {
    if !ValidRelative(entrypoint) { return None; }
    var chosen := if selected == [] then [entrypoint] else selected;
    if |chosen| > MAX_SELECTED_FILES { return None; }
    forall name ensures Accepted(name) == Selectable(name) { AcceptedIsSelectable(name); }
    var unique := UniqueNames(chosen, Accepted);
    if unique.None? || entrypoint !in unique.value { return None; }
    var sorted := SortedMembers(unique.value);
    return Some(sorted);
  }

  // ---- expansion ------------------------------------------------------------------------

  /** `ValidateShardEntrypoint`. */
  predicate EntrypointOk(entrypoint: string) {
    var shard := ShardOf(entrypoint); shard.Some? ==> shard.value.index == 1
  }

  /** The shard names of a set, one loop turn each. */
  method ListShards(shard: Shard) returns (names: seq<string>)
    ensures names == ShardPaths(shard.stem, shard.count)
  {
    names := [];
    var index := 1;
    while index <= shard.count
      invariant 1 <= index <= shard.count + 1 && |names| == index - 1
      invariant forall k :: 0 <= k < |names| ==> names[k] == ShardPath(shard.stem, k + 1, shard.count)
    {
      names := names + [ShardPath(shard.stem, index, shard.count)];
      index := index + 1;
    }
  }

  /** What an expansion selects. */
  function Expanded(entrypoint: string, selected: seq<string>): seq<string> {
    var chosen := Chosen(entrypoint, selected);
    if ShardOf(entrypoint).None? then chosen
    else chosen + ShardPaths(ShardOf(entrypoint).value.stem, ShardOf(entrypoint).value.count)
  }

  /** When an expansion succeeds. The limit is on the selection and the set
      together, before duplicates are dropped. */
  predicate Expandable(entrypoint: string, selected: seq<string>) {
    && Selectable(entrypoint) && EntrypointOk(entrypoint)
    && (forall name :: name in selected ==> Selectable(name))
    && match ShardOf(entrypoint)
       case None => (selected == [] || entrypoint in selected) && |selected| <= MAX_SELECTED_FILES
       case Some(shard) => shard.count >= 1 && |Chosen(entrypoint, selected)| + shard.count <= MAX_SELECTED_FILES
  }

  method ExpandStandardShards(entrypoint: string, selected: seq<string>) returns (r: Option<seq<string>>)
    ensures r.Some? <==> Expandable(entrypoint, selected)
    ensures r.Some? ==>
            StrictlySortedBy(LexLeq, r.value) && Elements(r.value) == Elements(Expanded(entrypoint, selected))
  {
    if !ValidRelative(entrypoint) || !EntrypointOk(entrypoint) { return None; }
    var chosen := if selected == [] then [entrypoint] else selected;
    var shard := ShardOf(entrypoint);
    if shard.Some? {
      if shard.value.count < 1 || shard.value.count > MAX_SELECTED_FILES { return None; }
      var names := ListShards(shard.value);
      chosen := chosen + names;
    }
    ExpandedOk(entrypoint, selected);
    r := NormalizeSelectedFiles(entrypoint, chosen);
  }

  lemma ShardNameSelectable(shard: Shard, k: nat)
    requires 1 <= k < 100000 && shard.count < 100000 && shard.index < 100000
    requires ValidRelative(ShardPath(shard.stem, shard.index, shard.count))
    ensures Selectable(ShardPath(shard.stem, k, shard.count))
  {
    ShardPathValid(shard.stem, shard.index, k, shard.count);
    var path := ShardPath(shard.stem, k, shard.count);
    SuffixParts(k, shard.count);
    assert path[|path|-5..] == Suffix(k, shard.count)[15..];
  }

  lemma ShardNamesSelectable(entrypoint: string)
    requires ValidRelative(entrypoint) && ShardOf(entrypoint).Some?
            && ShardOf(entrypoint).value.count <= MAX_SELECTED_FILES
    ensures var shard := ShardOf(entrypoint).value;
            forall name :: name in ShardPaths(shard.stem, shard.count) ==> Selectable(name)
  {
    ShardExact(entrypoint);
    var shard := ShardOf(entrypoint).value;
    var name := (i: nat) => ShardPath(shard.stem, i, shard.count);
    forall i | 1 <= i <= shard.count ensures Selectable(name(i)) {
      ShardNameSelectable(shard, i);
    }
    ListedAll(name, shard.count, Selectable);
  }

  lemma FirstShardListed(entrypoint: string)
    requires ShardOf(entrypoint).Some? && ShardOf(entrypoint).value.index == 1 && 1 <= ShardOf(entrypoint).value.count
    ensures var shard := ShardOf(entrypoint).value; entrypoint in ShardPaths(shard.stem, shard.count)
  {
    ShardExact(entrypoint);
    var shard := ShardOf(entrypoint).value;
    assert ShardPaths(shard.stem, shard.count)[0] == entrypoint;
  }

  lemma ExpandedOk(entrypoint: string, selected: seq<string>)
    requires ValidRelative(entrypoint) && EntrypointOk(entrypoint)
    requires var shard := ShardOf(entrypoint); shard.Some? ==> 1 <= shard.value.count <= MAX_SELECTED_FILES
    ensures Normalizable(entrypoint, Expanded(entrypoint, selected)) <==> Expandable(entrypoint, selected)
  {
    if ShardOf(entrypoint).Some? {
      ShardNamesSelectable(entrypoint);
      FirstShardListed(entrypoint);
    }
  }

  /** A set of the largest size a manifest may have is never expanded, whatever
      is selected with it. */
  lemma LargestSetNotExpanded(entrypoint: string, selected: seq<string>)
    requires ShardOf(entrypoint).Some? && ShardOf(entrypoint).value.count == MAX_SELECTED_FILES
    ensures !Expandable(entrypoint, selected)
  {
  }

  /** From an entrypoint alone a set is expanded exactly up to one shard less. */
  lemma WholeSetExpanded(entrypoint: string)
    requires ShardOf(entrypoint).Some? && ShardOf(entrypoint).value.index == 1
    ensures Expandable(entrypoint, []) <==>
            ValidRelative(entrypoint) && 1 <= ShardOf(entrypoint).value.count < MAX_SELECTED_FILES
  {
    var count := ShardOf(entrypoint).value.count;
    if ValidRelative(entrypoint) && 1 <= count < MAX_SELECTED_FILES {
      ShardNamesSelectable(entrypoint);
      FirstShardListed(entrypoint);
    }
  }

  // ---- manifests ------------------------------------------------------------------------

  datatype FileRecord = FileRecord(path: string, size: int, sha256: string)

  datatype Manifest = Manifest(schemaVersion: int, format: string, entrypoint: string, files: seq<FileRecord>)

  const SCHEMA_VERSION := 1

  const FORMAT_GGUF := "GGUF"

  /** `validSHA256`. */
  predicate ValidSha256(s: string) {
    |s| == 64 && AllHex(s)
  }

  function PathsOf(files: seq<FileRecord>): seq<string> {
    seq(|files|, i requires 0 <= i < |files| => files[i].path)
  }

  predicate RecordOk(f: FileRecord) {
    ValidRelative(f.path) && f.size >= 0 && ValidSha256(f.sha256)
  }

  /** A canonical manifest: of the one schema and format, between 1 and 128
      files with valid paths, sizes and hashes, strictly sorted, the entrypoint
      among them. */
  ghost predicate CanonicalManifest(m: Manifest) {
    && m.schemaVersion == SCHEMA_VERSION && m.format == FORMAT_GGUF
    && ValidRelative(m.entrypoint) && 1 <= |m.files| <= MAX_SELECTED_FILES
    && (forall i :: 0 <= i < |m.files| ==> RecordOk(m.files[i]))
    && StrictlySortedBy(LexLeq, PathsOf(m.files))
    && m.entrypoint in PathsOf(m.files)
  }

  /** `ValidateManifest`: neighbours are compared, the order is total. */
  method ValidateManifest(m: Manifest) returns (ok: bool)
    ensures ok <==> CanonicalManifest(m)
  {
    if m.schemaVersion != SCHEMA_VERSION || m.format != FORMAT_GGUF { return false; }
    if !ValidRelative(m.entrypoint) || m.files == [] || |m.files| > MAX_SELECTED_FILES { return false; }
    var entrypointFound := false;
    var previous := "";
    ghost var paths := PathsOf(m.files);
    var i := 0;
    while i < |m.files|
      invariant 0 <= i <= |m.files|
      invariant forall k :: 0 <= k < i ==> RecordOk(m.files[k])
      invariant StrictlySortedBy(LexLeq, paths[..i])
      invariant i > 0 ==> previous == paths[i-1]
      invariant entrypointFound <==> m.entrypoint in paths[..i]
    {
      var record := m.files[i];
      assert record.path == paths[i];
      if !ValidRelative(record.path) { return false; }
      if i > 0 && LexLeq(record.path, previous) {
        NotSorted(paths, i);
        return false;
      }
      if record.size < 0 || !ValidSha256(record.sha256) { return false; }
      if i > 0 { SortedStep(paths, i); }
      assert paths[..i+1] == paths[..i] + [record.path];
      entrypointFound := entrypointFound || record.path == m.entrypoint;
      previous := record.path;
      i := i + 1;
    }
    assert paths[..i] == paths;
    return entrypointFound;
  }

  lemma NotSorted(paths: seq<string>, i: nat)
    requires 0 < i < |paths| && LexLeq(paths[i], paths[i-1])
    ensures !StrictlySortedBy(LexLeq, paths)
  {
    LexTotal(paths[i-1], paths[i]);
  }

  lemma SortedStep(paths: seq<string>, i: nat)
    requires 0 < i < |paths| && StrictlySortedBy(LexLeq, paths[..i]) && !LexLeq(paths[i], paths[i-1])
    ensures StrictlySortedBy(LexLeq, paths[..i+1])
  {
    var next := paths[..i+1];
    forall a, b | 0 <= a < b < |next| ensures LexLeq(next[a], next[b]) && next[a] != next[b] {
      LexTotal(paths[i], paths[i-1]);
      if b < i {
        assert next[a] == paths[..i][a] && next[b] == paths[..i][b];
      } else if a < i - 1 {
        assert LexLeq(paths[..i][a], paths[..i][i-1]);
        LexTransitive(paths[a], paths[i-1], paths[i]);
        LexTotal(paths[a], paths[i-1]);
      }
    }
  }

  // ---- a set of shards ---------------------------------------------------------------

  datatype Inspected = Inspected(path: string, document: Document, tensorCount: nat)

  datatype Metadata = Metadata(architecture: seq<byte>, fileType: Option<nat>, tensorCount: nat, shardCount: nat)

  /** `validGGUFArchitecture`, byte by byte. */
  predicate ValidArchitecture(value: seq<byte>) {
    && 1 <= |value| <= 64
    && forall i :: 0 <= i < |value| ==>
         var c := value[i];
         || 'a' as int <= c <= 'z' as int || '0' as int <= c <= '9' as int
         || (i > 0 && (c == '_' as int || c == '-' as int || c == '.' as int))
  }

  function TotalTensors(docs: seq<Inspected>): nat {
    if docs == [] then 0 else TotalTensors(docs[..|docs|-1]) + docs[|docs|-1].tensorCount
  }

  predicate Agreeing(docs: seq<Inspected>) {
    forall k :: 0 <= k < |docs| ==>
      docs[k].document.architecture == docs[0].document.architecture
          && docs[k].document.fileType == docs[0].document.fileType
  }

  /** The k-th file is shard k+1 of the set, by its name and by its metadata. */
  predicate InOrder(docs: seq<Inspected>, paths: seq<string>) {
    && |docs| == |paths|
    && forall k :: 0 <= k < |docs| ==> ShardMatches(docs[k], paths[k], k, |paths|)
  }

  predicate ShardMatches(doc: Inspected, path: string, index: nat, count: nat) {
    doc.path == path && doc.document.shardNo == Some(index) && doc.document.shardCount == Some(count)
  }

  predicate ShardsOk(entrypoint: string, docs: seq<Inspected>) {
    match ShardOf(entrypoint)
    case None => |docs| == 1 && (docs[0].document.shardCount.None? || docs[0].document.shardCount.value <= 1)
    case Some(shard) => 1 <= shard.count <= MAX_SELECTED_FILES && InOrder(docs, ShardPaths(shard.stem, shard.count))
  }

  function DocPaths(docs: seq<Inspected>): seq<string> {
    seq(|docs|, i requires 0 <= i < |docs| => docs[i].path)
  }

  /** A strictly sorted sequence inside another of the same length is that one. */
  lemma SortedInside(a: seq<string>, b: seq<string>, index: seq<nat>)
    requires |a| == |b| == |index| && StrictlySortedBy(LexLeq, a) && StrictlySortedBy(LexLeq, b)
    requires forall k :: 0 <= k < |a| ==> index[k] < |b| && a[k] == b[index[k]]
    ensures forall k :: 0 <= k < |a| ==> index[k] == k
  {
    forall i, j | 0 <= i < j < |a| ensures index[i] < index[j] {
      LexTotal(a[i], a[j]);
    }
    Increasing(index, |b|);
  }

  lemma Increasing(index: seq<nat>, n: nat)
    requires |index| == n
    requires forall i, j :: 0 <= i < j < n ==> index[i] < index[j]
    requires forall k :: 0 <= k < n ==> index[k] < n
    ensures forall k :: 0 <= k < n ==> index[k] == k
  {
    var k := 0;
    while k < n
      invariant 0 <= k <= n
      invariant forall i :: 0 <= i < k ==> index[i] >= i
    {
      if k > 0 { assert index[k-1] < index[k]; }
      k := k + 1;
    }
    while k > 0
      invariant 0 <= k <= n
      invariant forall i :: 0 <= i < n ==> index[i] >= i
      invariant forall i :: k <= i < n ==> index[i] <= i
    {
      if k < n { assert index[k-1] < index[k]; }
      k := k - 1;
    }
  }

  /** The shard part of `ValidateGGUFSet`: every file takes its name out of the
      map of expected names. */
  method CheckShards(entrypoint: string, docs: seq<Inspected>) returns (ok: bool)
    requires docs != [] && StrictlySortedBy(LexLeq, DocPaths(docs))
    ensures ok <==> ShardsOk(entrypoint, docs)
  {
    var shard := ShardOf(entrypoint);
    if shard.None? {
      return |docs| == 1 && !(docs[0].document.shardCount.Some? && docs[0].document.shardCount.value > 1);
    }
    var count := shard.value.count;
    if count < 1 || count > MAX_SELECTED_FILES { return false; }
    ShardPathsSorted(shard.value.stem, count);
    var names := ListShards(shard.value);
    var expected := ExpectedNames(names);
    if |docs| != count { return false; }
    var rest := TakeExpected(names, expected, docs);
    return rest == Some(map[]);
  }

  method ExpectedNames(names: seq<string>) returns (expected: map<string, nat>)
    requires StrictlySortedBy(LexLeq, names)
    ensures expected == IndexOf(names, {})
  {
    expected := map[];
    var i := 0;
    while i < |names|
      invariant 0 <= i <= |names|
      invariant forall name :: name in expected <==> name in names[..i]
      invariant forall k :: 0 <= k < i ==> expected[names[k]] == k
    {
      assert names[..i+1] == names[..i] + [names[i]];
      expected := expected[names[i] := i];
      i := i + 1;
    }
    assert names[..i] == names;
    assert expected == IndexOf(names, {});
  }

  /** Name to position, without the names taken. */
  ghost function IndexOf(names: seq<string>, taken: set<string>): map<string, nat>
    requires StrictlySortedBy(LexLeq, names)
  {
    map name | name in names && name !in taken :: Position(names, name)
  }

  ghost function Position(names: seq<string>, name: string): (k: nat)
    requires name in names
    ensures k < |names| && names[k] == name
  {
    var k :| 0 <= k < |names| && names[k] == name; k
  }

  lemma PositionUnique(names: seq<string>, k: nat)
    requires StrictlySortedBy(LexLeq, names) && k < |names|
    ensures Position(names, names[k]) == k
  {
  }

  /** The first `i` files have taken their names and matched them. */
  ghost predicate Took(names: seq<string>, docs: seq<Inspected>, i: nat, expected: map<string, nat>)
    requires StrictlySortedBy(LexLeq, names) && i <= |docs|
  {
    && expected == IndexOf(names, Elements(DocPaths(docs)[..i]))
    && forall k :: 0 <= k < i ==>
         docs[k].path in names && ShardMatches(docs[k], docs[k].path, Position(names, docs[k].path), |names|)
  }

  predicate Takes(expected: map<string, nat>, doc: Inspected, count: nat) {
    doc.path in expected && doc.document.shardCount == Some(count) && doc.document.shardNo == Some(expected[doc.path])
  }

  lemma TakeBlocked(names: seq<string>, docs: seq<Inspected>, i: nat, expected: map<string, nat>)
    requires StrictlySortedBy(LexLeq, names) && StrictlySortedBy(LexLeq, DocPaths(docs)) && i < |docs|
    requires Took(names, docs, i, expected) && !Takes(expected, docs[i], |names|)
    ensures !InOrder(docs, names)
  {
    if InOrder(docs, names) {
      assert ShardMatches(docs[i], names[i], i, |names|);
      PositionUnique(names, i);
      NotTaken(DocPaths(docs), i);
    }
  }

  lemma TakeNext(names: seq<string>, docs: seq<Inspected>, i: nat, expected: map<string, nat>)
    requires StrictlySortedBy(LexLeq, names) && i < |docs|
    requires Took(names, docs, i, expected) && Takes(expected, docs[i], |names|)
    ensures Took(names, docs, i + 1, expected - {docs[i].path})
  {
    var paths := DocPaths(docs);
    assert paths[..i+1] == paths[..i] + [docs[i].path];
    assert Elements(paths[..i+1]) == Elements(paths[..i]) + {docs[i].path};
    assert expected - {docs[i].path} == IndexOf(names, Elements(paths[..i+1]));
  }

  /** The loop that deletes each file's name from the map. When it gets through,
      nothing is left over. */
  method TakeExpected(names: seq<string>, expected0: map<string, nat>, docs: seq<Inspected>)
    returns (rest: Option<map<string, nat>>)
    requires StrictlySortedBy(LexLeq, names) && StrictlySortedBy(LexLeq, DocPaths(docs)) && |docs| == |names|
    requires expected0 == IndexOf(names, {})
    ensures rest.Some? <==> InOrder(docs, names)
    ensures rest.Some? ==> rest.value == map[]
  {
    var expected := expected0;
    var i := 0;
    assert Elements(DocPaths(docs)[..0]) == {};
    while i < |docs|
      invariant 0 <= i <= |docs| && Took(names, docs, i, expected)
    {
      if !(docs[i].path in expected) || docs[i].document.shardCount != Some(|names|)
         || docs[i].document.shardNo != Some(expected[docs[i].path]) {
        TakeBlocked(names, docs, i, expected);
        return None;
      }
      TakeNext(names, docs, i, expected);
      expected := expected - {docs[i].path};
      i := i + 1;
    }
    assert DocPaths(docs)[..i] == DocPaths(docs);
    AllTaken(names, docs);
    return Some(expected);
  }

  lemma NotTaken(paths: seq<string>, i: nat)
    requires StrictlySortedBy(LexLeq, paths) && i < |paths|
    ensures paths[i] !in Elements(paths[..i])
  {
  }

  lemma AllTaken(names: seq<string>, docs: seq<Inspected>)
    requires StrictlySortedBy(LexLeq, names) && StrictlySortedBy(LexLeq, DocPaths(docs)) && |docs| == |names|
    requires forall k :: 0 <= k < |docs| ==>
            docs[k].path in names && ShardMatches(docs[k], docs[k].path, Position(names, docs[k].path), |names|)
    ensures InOrder(docs, names)
    ensures IndexOf(names, Elements(DocPaths(docs))) == map[]
  {
    var paths := DocPaths(docs);
    var index := seq(|docs|, k requires 0 <= k < |docs| => Position(names, docs[k].path));
    SortedInside(paths, names, index);
    forall k | 0 <= k < |docs| ensures ShardMatches(docs[k], names[k], k, |names|) && names[k] in Elements(paths) {
      assert index[k] == k;
      assert paths[k] == names[k];
    }
  }

  // ---- the whole validation ---------------------------------------------------------------

  /** The parse of every file, or nothing when one of them does not parse. */
  ghost predicate Inspects(files: seq<FileRecord>, read: string -> Option<(Document, nat)>, docs: seq<Inspected>) {
    && |docs| == |files|
    && forall k :: 0 <= k < |files| ==>
         read(files[k].path) == Some((docs[k].document, docs[k].tensorCount)) && docs[k].path == files[k].path
  }

  method InspectAll(files: seq<FileRecord>, read: string -> Option<(Document, nat)>) returns (r: Option<seq<Inspected>>)
    ensures r.Some? <==> forall k :: 0 <= k < |files| ==> read(files[k].path).Some?
    ensures r.Some? ==> Inspects(files, read, r.value)
  {
    var docs: seq<Inspected> := [];
    var i := 0;
    while i < |files|
      invariant 0 <= i <= |files| && |docs| == i
      invariant forall k :: 0 <= k < i ==>
          read(files[k].path) == Some((docs[k].document, docs[k].tensorCount)) && docs[k].path == files[k].path
    {
      var parsed := read(files[i].path);
      if parsed.None? { return None; }
      docs := docs + [Inspected(files[i].path, parsed.value.0, parsed.value.1)];
      i := i + 1;
    }
    return Some(docs);
  }

  /** One architecture, one file type, and the tensors of all files added up.
      The guard against overflow never fires. */
  method MergeMetadata(docs: seq<Inspected>) returns (r: Option<Metadata>)
    requires 1 <= |docs| <= MAX_SELECTED_FILES && forall k :: 0 <= k < |docs| ==> docs[k].tensorCount <= MAX_TENSORS
    ensures r.Some? <==> ValidArchitecture(docs[0].document.architecture) && Agreeing(docs)
    ensures r.Some? ==>
            r.value == Metadata(docs[0].document.architecture, docs[0].document.fileType, TotalTensors(docs), 1)
  {
    var first := docs[0].document;
    if first.architecture == [] || !ValidArchitecture(first.architecture) { return None; }
    var total := 0;
    var i := 0;
    while i < |docs|
      invariant 0 <= i <= |docs| && Agreeing(docs[..i])
      invariant total == TotalTensors(docs[..i]) <= i * MAX_TENSORS
    {
      var item := docs[i];
      if item.document.architecture != first.architecture { return None; }
      if item.document.fileType != first.fileType { return None; }
      if total > MAX_UINT64 - item.tensorCount {
        assert false;
      }
      assert docs[..i+1][..i] == docs[..i];
      total := total + item.tensorCount;
      i := i + 1;
    }
    assert docs[..i] == docs;
    return Some(Metadata(first.architecture, first.fileType, total, 1));
  }

  /** A set of files is accepted exactly when each parses, they agree, and the
      k-th of them is the k-th shard of the entrypoint's set. */
  ghost predicate SetOk(m: Manifest, docs: seq<Inspected>)
    requires docs != []
  {
    && CanonicalManifest(m) && EntrypointOk(m.entrypoint)
    && ValidArchitecture(docs[0].document.architecture) && Agreeing(docs)
    && ShardsOk(m.entrypoint, docs)
  }

  method ValidateGgufSet(m: Manifest, read: string -> Option<(Document, nat)>) returns (r: Option<Metadata>)
    requires forall path :: read(path).Some? ==> read(path).value.1 <= MAX_TENSORS
    ensures r.Some? <==>
            CanonicalManifest(m) && exists docs: seq<Inspected> ::
            Inspects(m.files, read, docs) && docs != [] && SetOk(m, docs)
    ensures forall docs: seq<Inspected> :: Inspects(m.files, read, docs) && docs != [] && r.Some? ==>
              r.value == Metadata(docs[0].document.architecture, docs[0].document.fileType, TotalTensors(docs), |docs|)
  {
    var canonical := ValidateManifest(m);
    if !canonical { return None; }
    if !EntrypointOk(m.entrypoint) { return None; }
    var docs := InspectAll(m.files, read);
    if docs.None? { return None; }
    InspectsUnique(m.files, read, docs.value);
    assert DocPaths(docs.value) == PathsOf(m.files);
    var metadata := MergeMetadata(docs.value);
    if metadata.None? { return None; }
    var ok := CheckShards(m.entrypoint, docs.value);
    if !ok { return None; }
    return Some(metadata.value.(shardCount := if ShardOf(m.entrypoint).Some? then ShardOf(m.entrypoint).value.count
        else 1));
  }

  lemma InspectsUnique(files: seq<FileRecord>, read: string -> Option<(Document, nat)>, docs: seq<Inspected>)
    requires Inspects(files, read, docs)
    ensures forall others :: Inspects(files, read, others) ==> others == docs
  {
    forall others | Inspects(files, read, others) ensures others == docs {
      forall k | 0 <= k < |files| ensures others[k] == docs[k] { assert read(files[k].path).Some?; }
    }
  }
}
