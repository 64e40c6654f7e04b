/** The GGUF v3 parser as a whole.

    A reader object is consumed field by field; the result says of every byte
    string, without exception, whether the parser accepts it.
 */
module GgufFile {
  import opened Basics
  import opened GgufValue
  import opened GgufLayout

  const MAX_METADATA_ENTRIES := 1048576
  const MAX_TENSORS := 1048576
  const DEFAULT_ALIGNMENT := 32
  const MAX_ALIGNMENT := 1048576
  const MAX_UINT32 := 4294967295

  function Ascii(s: string): seq<byte> {
    seq(|s|, i requires 0 <= i < |s| => s[i] as int % 256)
  }

  // ---- the counting reader ---------------------------------------------------------

  /** What the value reader hands back: arrays are checked and dropped. */
  datatype Any = Nil | Scalar(value: Value)

  function Erase(v: Value): Any {
    if v.Arr? then Nil else Scalar(v)
  }

  /** The reader returned what the parser finds and stands behind it. */
  ghost predicate Agrees<T>(r: Option<T>, p: Parsed<T>, rest: seq<byte>) {
    (r.Some? <==> p.Good?) && (r.Some? ==> r.value == p.value && rest == p.rest)
  }

  class Reader {
    const size: nat
    var rest: seq<byte>
    var count: nat

    ghost predicate Valid()
      reads this
    {
      count + |rest| == size
    }

    constructor (data: seq<byte>)
      ensures Valid() && rest == data && size == |data|
    {
      size := |data|;
      rest := data;
      count := 0;
    }

    /** `io.ReadFull`; a short read consumes what there is. */
    method ReadFull(n: nat) returns (bytes: Option<seq<byte>>)
      requires Valid()
      modifies this
      ensures Valid()
      ensures bytes.Some? <==> n <= |old(rest)|
      ensures bytes.Some? ==> bytes.value == old(rest)[..n] && rest == old(rest)[n..]
    {
      if |rest| < n {
        count, rest := count + |rest|, [];
        return None;
      }
      bytes := Some(rest[..n]);
      count, rest := count + n, rest[n..];
    }

    method ReadUnsigned(k: nat) returns (n: Option<nat>)
      requires Valid()
      modifies this
      ensures Valid() && Agrees(n, ParseUnsigned(old(rest), k), rest)
    {
      var bytes := ReadFull(k);
      if bytes.None? { return None; }
      n := Some(Unsigned(bytes.value));
    }

    method ReadString() returns (text: Option<seq<byte>>)
      requires Valid()
      modifies this
      ensures Valid() && Agrees(text, ParseString(old(rest)), rest)
    {
      var length := ReadUnsigned(8);
      if length.None? || length.value > MAX_STRING_BYTES { return None; }
      text := ReadFull(length.value);
    }

    /** `readGGUFValue`: recursion bounded by the depth, a loop over the array. */
    method ReadValue(t: nat, depth: nat) returns (value: Option<Any>)
      requires Valid() && depth <= MAX_DEPTH + 1
      modifies this
      ensures Valid()
      ensures var p := ParseValue(old(rest), t, depth);
              (value.Some? <==> p.Good?) && (value.Some? ==> value.value == Erase(p.value) && rest == p.rest)
      decreases MAX_DEPTH + 1 - depth, 0
    {
      if depth > MAX_DEPTH { return None; }
      if ScalarType(t) {
        var n := ReadUnsigned(ScalarWidth(t));
        if n.None? || (t == 7 && n.value > 1) { return None; }
        return Some(Scalar(GgufValue.Scalar(t, n.value)));
      } else if t == 8 {
        var text := ReadString();
        if text.None? { return None; }
        return Some(Scalar(Str(text.value)));
      } else if t == 9 {
        var elementType := ReadUnsigned(4);
        if elementType.None? { return None; }
        var count := ReadUnsigned(8);
        if count.None? || count.value > MAX_ARRAY_ENTRIES { return None; }
        var ok := ReadItems(elementType.value, depth + 1, count.value);
        if !ok { return None; }
        return Some(Nil);
      } else {
        return None;
      }
    }

    /** The element loop of an array. */
    method ReadItems(t: nat, depth: nat, count: nat) returns (ok: bool)
      requires Valid() && depth <= MAX_DEPTH + 1
      modifies this
      ensures Valid()
      ensures var p := ParseItems(old(rest), t, depth, count);
              (ok <==> p.Good?) && (ok ==> rest == p.rest)
      decreases MAX_DEPTH + 1 - depth, 1
    {
      ghost var all := ParseItems(rest, t, depth, count);
      var i := 0;
      while i < count
        invariant 0 <= i <= count && Valid()
        invariant var p := ParseItems(rest, t, depth, count - i);
                  (all.Good? <==> p.Good?) && (all.Good? ==> all.rest == p.rest)
      {
        var item := ReadValue(t, depth);
        if item.None? { return false; }
        i := i + 1;
      }
      return true;
    }
  }

  // ---- metadata ----------------------------------------------------------------------

  datatype Document = Document(
    architecture: seq<byte>,
    fileType: Option<nat>,
    shardNo: Option<nat>,
    shardCount: Option<nat>,
    alignment: nat)

  const EMPTY_DOCUMENT := Document([], None, None, None, DEFAULT_ALIGNMENT)

  function NumericUint32(any: Any): Option<nat> {
    match any
    case Scalar(UInt(_, n)) => if n <= MAX_UINT32 then Some(n) else None
    case Scalar(SInt(_, i)) => if 0 <= i <= MAX_UINT32 then Some(i) else None
    case _ => None
  }

  /** The switch over the known keys. */
  function Record(doc: Document, key: seq<byte>, any: Any): Document {
    var number := NumericUint32(any);
    if key == Ascii("general.architecture") then
      if any.Scalar? && any.value.Str? then doc.(architecture := any.value.text) else doc
    else if number.None? then doc
    else if key == Ascii("general.file_type") then doc.(fileType := number)
    else if key == Ascii("split.no") then doc.(shardNo := number)
    else if key == Ascii("split.count") then doc.(shardCount := number)
    else if key == Ascii("general.alignment") then doc.(alignment := number.value)
    else doc
  }

  function Folded<D>(record: (D, seq<byte>, Any) -> D, doc: D, entries: seq<Entry>): D
    decreases |entries|
  {
    if entries == [] then doc
    else Folded(record, record(doc, entries[0].key, Erase(entries[0].value)), entries[1..])
  }

  function Recorded(entries: seq<Entry>): Document {
    Folded(Record, EMPTY_DOCUMENT, entries)
  }

  /** The last entry of a key that holds a 32-bit number. */
  function LastNumber(entries: seq<Entry>, key: seq<byte>): Option<nat> {
    if entries == [] then None
    else
      var last := entries[|entries|-1];
      if last.key == key && NumericUint32(Erase(last.value)).Some? then NumericUint32(Erase(last.value))
      else LastNumber(entries[..|entries|-1], key)
  }

  /** The last entry of a key that holds a string. */
  function LastText(entries: seq<Entry>, key: seq<byte>): seq<byte> {
    if entries == [] then []
    else
      var last := entries[|entries|-1];
      if last.key == key && last.value.Str? then last.value.text else LastText(entries[..|entries|-1], key)
  }

  lemma KeysDiffer()
    ensures Ascii("general.architecture") != Ascii("general.file_type")
            && Ascii("general.architecture") != Ascii("split.no")
    ensures Ascii("general.architecture") != Ascii("split.count")
            && Ascii("general.architecture") != Ascii("general.alignment")
    ensures Ascii("general.file_type") != Ascii("split.no") && Ascii("general.file_type") != Ascii("split.count")
    ensures Ascii("general.file_type") != Ascii("general.alignment") && Ascii("split.no") != Ascii("split.count")
    ensures Ascii("split.no") != Ascii("general.alignment") && Ascii("split.count") != Ascii("general.alignment")
  {
    assert |Ascii("general.architecture")| == 20;
    assert |Ascii("general.file_type")| == 17;
    assert Ascii("general.file_type")[8] == 'f' as int;
    assert Ascii("general.alignment")[8] == 'a' as int;
    assert |Ascii("split.no")| == 8 && |Ascii("split.count")| == 11;
  }

  lemma {:induction false} FoldedAppend<D>(record: (D, seq<byte>, Any) -> D, doc: D, entries: seq<Entry>, e: Entry)
    ensures Folded(record, doc, entries + [e]) == record(Folded(record, doc, entries), e.key, Erase(e.value))
    decreases |entries|
  {
    if entries == [] {
      assert entries + [e] == [e];
      assert [e][1..] == [];
    } else {
      assert (entries + [e])[1..] == entries[1..] + [e];
      FoldedAppend(record, record(doc, entries[0].key, Erase(entries[0].value)), entries[1..], e);
    }
  }

  /** Of repeated keys the last usable one counts; an unusable one changes nothing. */
  lemma {:induction false} RecordedFields(entries: seq<Entry>)
    ensures Fields(Recorded(entries), entries)
  {
    if entries != [] {
      var front, last := entries[..|entries|-1], entries[|entries|-1];
      assert entries == front + [last];
      RecordedFields(front);
      FoldedAppend(Record, EMPTY_DOCUMENT, front, last);
      RecordKeeps(Recorded(front), entries);
    }
  }

  predicate Fields(doc: Document, entries: seq<Entry>) {
    && doc.architecture == LastText(entries, Ascii("general.architecture"))
    && doc.fileType == LastNumber(entries, Ascii("general.file_type"))
    && doc.shardNo == LastNumber(entries, Ascii("split.no"))
    && doc.shardCount == LastNumber(entries, Ascii("split.count"))
    && doc.alignment == (if LastNumber(entries, Ascii("general.alignment")).Some?
                         then LastNumber(entries, Ascii("general.alignment")).value else DEFAULT_ALIGNMENT)
  }

  lemma RecordKeeps(doc: Document, entries: seq<Entry>)
    requires entries != [] && Fields(doc, entries[..|entries|-1])
    ensures var last := entries[|entries|-1]; Fields(Record(doc, last.key, Erase(last.value)), entries)
  {
    KeysDiffer();
  }

  // ---- tensor descriptions -----------------------------------------------------------

  datatype TensorInfo = TensorInfo(name: seq<byte>, shape: seq<nat>, tensorType: nat, offset: nat)

  function ParseUint64(data: seq<byte>): Parsed<nat> {
    ParseUnsigned(data, 8)
  }

  function ParseInfo(data: seq<byte>): Parsed<TensorInfo> {
    var name := ParseString(data);
    if name.Bad? then Bad else
    var dimensions := ParseUnsigned(name.rest, 4);
    if dimensions.Bad? || dimensions.value == 0 || dimensions.value > 4 then Bad else
    var shape := ParseMany(ParseUint64, dimensions.rest, dimensions.value);
    if shape.Bad? then Bad else
    var tensorType := ParseUnsigned(shape.rest, 4);
    if tensorType.Bad? then Bad else
    var offset := ParseUnsigned(tensorType.rest, 8);
    if offset.Bad? then Bad
    else Good(TensorInfo(name.value, shape.value, tensorType.value, offset.value), offset.rest)
  }

  type Utf8 = seq<byte> -> bool

  predicate InfoOk(info: TensorInfo, alignment: nat, utf8: Utf8) {
    && alignment > 0
    && 1 <= |info.name| <= 64 && utf8(info.name)
    && info.shape != [] && (forall i :: 0 <= i < |info.shape| ==> info.shape[i] > 0)
    && info.offset % alignment == 0
    && Sized(info.tensorType, info.shape)
  }

  function TensorOf(info: TensorInfo): Tensor {
    Tensor(info.name, info.offset, SizeOf(info.tensorType, info.shape))
  }

  function Made(make: TensorInfo -> Tensor, infos: seq<TensorInfo>): seq<Tensor> {
    seq(|infos|, i requires 0 <= i < |infos| => make(infos[i]))
  }

  // ---- the file --------------------------------------------------------------------------

  datatype Header = Header(entries: seq<Entry>, infos: seq<TensorInfo>)

  /** Magic, version and the two counts: tensors, then metadata entries. */
  function ParseFront(data: seq<byte>): Parsed<(nat, nat)> {
    if |data| < 4 || data[..4] != Ascii("GGUF") then Bad else
    var version := ParseUnsigned(data[4..], 4);
    if version.Bad? || version.value != 3 then Bad else
    var tensorCount := ParseUnsigned(version.rest, 8);
    if tensorCount.Bad? || tensorCount.value > MAX_TENSORS then Bad else
    var metadataCount := ParseUnsigned(tensorCount.rest, 8);
    if metadataCount.Bad? || metadataCount.value > MAX_METADATA_ENTRIES then Bad
    else Good((tensorCount.value, metadataCount.value), metadataCount.rest)
  }

  function ParseSections(
    entry: seq<byte> -> Parsed<Entry>, info: seq<byte> -> Parsed<TensorInfo>, data: seq<byte>): Parsed<Header>
  {
    var front := ParseFront(data);
    if front.Bad? then Bad else
    var entries := ParseMany(entry, front.rest, front.value.1);
    if entries.Bad? then Bad else
    var infos := ParseMany(info, entries.rest, front.value.0);
    if infos.Bad? then Bad else Good(Header(entries.value, infos.value), infos.rest)
  }

  function ParseHeader(data: seq<byte>): Parsed<Header> {
    ParseSections(ParseEntry, ParseInfo, data)
  }

  function EncodeUint64(n: nat): seq<byte> {
    LittleEndian(n, 8)
  }

  function EncodeInfo(info: TensorInfo): seq<byte> {
    EncodeString(info.name) + (LittleEndian(|info.shape|, 4) + (EncodeMany(EncodeUint64, info.shape)
      + (LittleEndian(info.tensorType, 4) + LittleEndian(info.offset, 8))))
  }

  function EncodeHeader(h: Header): seq<byte> {
    Ascii("GGUF") + (LittleEndian(3, 4) + (LittleEndian(|h.infos|, 8) + (LittleEndian(|h.entries|, 8)
      + (EncodeMany(EncodeEntry, h.entries) + EncodeMany(EncodeInfo, h.infos)))))
  }

  predicate BoundedInfo(info: TensorInfo) {
    && |info.name| <= MAX_STRING_BYTES && 1 <= |info.shape| <= 4
    && (forall i :: 0 <= i < |info.shape| ==> Uint64(info.shape[i]))
    && info.tensorType <= MAX_UINT32 && Uint64(info.offset)
  }

  predicate BoundedHeader(h: Header) {
    && |h.entries| <= MAX_METADATA_ENTRIES && |h.infos| <= MAX_TENSORS
    && (forall i :: 0 <= i < |h.entries| ==> BoundedEntry(h.entries[i]))
    && (forall i :: 0 <= i < |h.infos| ==> BoundedInfo(h.infos[i]))
  }

  lemma InfoRoundTrip(info: TensorInfo, suffix: seq<byte>)
    requires BoundedInfo(info)
    ensures ParseInfo(EncodeInfo(info) + suffix) == Good(info, suffix)
  {
    Powers();
    var offset := LittleEndian(info.offset, 8);
    var typed := LittleEndian(info.tensorType, 4) + offset;
    var shaped := EncodeMany(EncodeUint64, info.shape) + typed;
    var counted := LittleEndian(|info.shape|, 4) + shaped;
    Regroup(EncodeString(info.name), counted, suffix);
    Regroup(LittleEndian(|info.shape|, 4), shaped, suffix);
    Regroup(EncodeMany(EncodeUint64, info.shape), typed, suffix);
    Regroup(LittleEndian(info.tensorType, 4), offset, suffix);
    StringBack(info.name, counted + suffix);
    UnsignedBack(|info.shape|, 4, shaped + suffix);
    forall i, s | 0 <= i < |info.shape| ensures ParseUint64(EncodeUint64(info.shape[i]) + s) == Good(info.shape[i], s) {
      UnsignedBack(info.shape[i], 8, s);
    }
    ManyRoundTrip(ParseUint64, EncodeUint64, info.shape, typed + suffix);
    UnsignedBack(info.tensorType, 4, offset + suffix);
    UnsignedBack(info.offset, 8, suffix);
  }

  lemma InfoExact(data: seq<byte>)
    requires ParseInfo(data).Good?
    ensures var r := ParseInfo(data); BoundedInfo(r.value) && data == EncodeInfo(r.value) + r.rest
  {
    Powers();
    StringExact(data);
    var name := ParseString(data);
    UnsignedExact(name.rest, 4);
    var dimensions := ParseUnsigned(name.rest, 4);
    ShapeExact(dimensions.rest, dimensions.value);
    var shape := ParseMany(ParseUint64, dimensions.rest, dimensions.value);
    UnsignedExact(shape.rest, 4);
    var tensorType := ParseUnsigned(shape.rest, 4);
    UnsignedExact(tensorType.rest, 8);
    var offset := ParseUnsigned(tensorType.rest, 8);
    Regroup(LittleEndian(tensorType.value, 4), LittleEndian(offset.value, 8), offset.rest);
    var typed := LittleEndian(tensorType.value, 4) + LittleEndian(offset.value, 8);
    Regroup(EncodeMany(EncodeUint64, shape.value), typed, offset.rest);
    var shaped := EncodeMany(EncodeUint64, shape.value) + typed;
    Regroup(LittleEndian(|shape.value|, 4), shaped, offset.rest);
    Regroup(EncodeString(name.value), LittleEndian(|shape.value|, 4) + shaped, offset.rest);
  }

  lemma ShapeExact(data: seq<byte>, n: nat)
    requires ParseMany(ParseUint64, data, n).Good?
    ensures var r := ParseMany(ParseUint64, data, n);
            && |r.value| == n && data == EncodeMany(EncodeUint64, r.value) + r.rest
            && forall i :: 0 <= i < n ==> Uint64(r.value[i])
  {
    Powers();
    forall d | ParseUint64(d).Good?
      ensures Uint64(ParseUint64(d).value) && d == EncodeUint64(ParseUint64(d).value) + ParseUint64(d).rest
    {
      UnsignedExact(d, 8);
    }
    ManyExact(ParseUint64, EncodeUint64, Uint64, data, n);
  }

  lemma FrontBack(tensors: nat, entries: nat, suffix: seq<byte>)
    requires tensors <= MAX_TENSORS && entries <= MAX_METADATA_ENTRIES
    ensures ParseFront(Ascii("GGUF") + (LittleEndian(3, 4)
            + (LittleEndian(tensors, 8) + (LittleEndian(entries, 8) + suffix))))
         == Good((tensors, entries), suffix)
  {
    Powers();
    var counted := LittleEndian(entries, 8) + suffix;
    var counts := LittleEndian(tensors, 8) + counted;
    MagicBack(LittleEndian(3, 4) + counts);
    UnsignedBack(3, 4, counts);
    UnsignedBack(tensors, 8, counted);
    UnsignedBack(entries, 8, suffix);
  }

  /** A header within the limits is read back, with exactly the data left over. */
  lemma HeaderRoundTrip(h: Header, suffix: seq<byte>)
    requires BoundedHeader(h)
    ensures ParseHeader(EncodeHeader(h) + suffix) == Good(h, suffix)
  {
    var entries, infos := EncodeMany(EncodeEntry, h.entries), EncodeMany(EncodeInfo, h.infos);
    HeaderSplits(|h.infos|, |h.entries|, entries, infos, suffix);
    FrontBack(|h.infos|, |h.entries|, entries + (infos + suffix));
    forall i, s | 0 <= i < |h.entries| ensures ParseEntry(EncodeEntry(h.entries[i]) + s) == Good(h.entries[i], s) {
      EntryRoundTrip(h.entries[i], s);
    }
    ManyRoundTrip(ParseEntry, EncodeEntry, h.entries, infos + suffix);
    forall i, s | 0 <= i < |h.infos| ensures ParseInfo(EncodeInfo(h.infos[i]) + s) == Good(h.infos[i], s) {
      InfoRoundTrip(h.infos[i], s);
    }
    ManyRoundTrip(ParseInfo, EncodeInfo, h.infos, suffix);
  }

  lemma HeaderSplits(m: nat, n: nat, entries: seq<byte>, infos: seq<byte>, suffix: seq<byte>)
    ensures Ascii("GGUF") + (LittleEndian(3, 4) + (LittleEndian(m, 8) + (LittleEndian(n, 8) + (entries + infos))))
            + suffix
         == Ascii("GGUF") + (LittleEndian(3, 4) + (LittleEndian(m, 8)
             + (LittleEndian(n, 8) + (entries + (infos + suffix)))))
  {
    var body := entries + infos;
    var counted := LittleEndian(n, 8) + body;
    var counts := LittleEndian(m, 8) + counted;
    Regroup(Ascii("GGUF"), LittleEndian(3, 4) + counts, suffix);
    Regroup(LittleEndian(3, 4), counts, suffix);
    Regroup(LittleEndian(m, 8), counted, suffix);
    Regroup(LittleEndian(n, 8), body, suffix);
    Regroup(entries, infos, suffix);
  }

  lemma MagicBack(suffix: seq<byte>)
    ensures var data := Ascii("GGUF") + suffix; |data| >= 4 && data[..4] == Ascii("GGUF") && data[4..] == suffix
  {
  }

  lemma FrontExact(data: seq<byte>)
    requires ParseFront(data).Good?
    ensures var r := ParseFront(data);
            && r.value.0 <= MAX_TENSORS && r.value.1 <= MAX_METADATA_ENTRIES
            && data == Ascii("GGUF") + (LittleEndian(3, 4)
                + (LittleEndian(r.value.0, 8) + (LittleEndian(r.value.1, 8) + r.rest)))
  {
    assert data == Ascii("GGUF") + data[4..];
    UnsignedExact(data[4..], 4);
    var version := ParseUnsigned(data[4..], 4);
    UnsignedExact(version.rest, 8);
    var tensorCount := ParseUnsigned(version.rest, 8);
    UnsignedExact(tensorCount.rest, 8);
  }

  /** A header that is read was written so: the format has one encoding. */
  lemma HeaderExact(data: seq<byte>)
    requires ParseHeader(data).Good?
    ensures var r := ParseHeader(data); BoundedHeader(r.value) && data == EncodeHeader(r.value) + r.rest
  {
    FrontExact(data);
    var front := ParseFront(data);
    EntriesExact(front.rest, front.value.1);
    var entries := ParseMany(ParseEntry, front.rest, front.value.1);
    InfosExact(entries.rest, front.value.0);
    var infos := ParseMany(ParseInfo, entries.rest, front.value.0);
    HeaderSplits(front.value.0, front.value.1,
                 EncodeMany(EncodeEntry, entries.value), EncodeMany(EncodeInfo, infos.value), infos.rest);
  }

  lemma EntriesExact(data: seq<byte>, count: nat)
    ensures var p := ParseMany(ParseEntry, data, count);
            p.Good? ==> |p.value| == count && data == EncodeMany(EncodeEntry, p.value) + p.rest
                        && forall i :: 0 <= i < count ==> BoundedEntry(p.value[i])
  {
    forall d | ParseEntry(d).Good?
      ensures BoundedEntry(ParseEntry(d).value) && d == EncodeEntry(ParseEntry(d).value) + ParseEntry(d).rest
    {
      EntryExact(d);
    }
    if ParseMany(ParseEntry, data, count).Good? {
      ManyExact(ParseEntry, EncodeEntry, BoundedEntry, data, count);
    }
  }

  /** Every description is acceptable and no name is taken twice. */
  predicate Together(ok: TensorInfo -> bool, infos: seq<TensorInfo>) {
    && (forall i :: 0 <= i < |infos| ==> ok(infos[i]))
    && (forall i, j :: 0 <= i < j < |infos| ==> infos[i].name != infos[j].name)
  }

  predicate AlignmentOk(alignment: nat) {
    0 < alignment <= MAX_ALIGNMENT && alignment % 8 == 0
  }

  /** What is demanded of the tensors behind a header of `headerBytes` bytes. */
  predicate TensorsOk(infos: seq<TensorInfo>, alignment: nat, headerBytes: nat, fileSize: nat, utf8: Utf8) {
    && AlignmentOk(alignment)
    && Together(info => InfoOk(info, alignment, utf8), infos)
    && (infos == [] || ValidLayout(Made(TensorOf, infos), AlignedUp(headerBytes, alignment), fileSize))
  }

  /** `h` is the header of a well-formed file: it is written at the front of
      the data, its tensors are well described and have distinct names, and
      their ranges are disjoint and inside the file behind the aligned end of
      the header. */
  ghost predicate IsHeaderOf(h: Header, data: seq<byte>, utf8: Utf8) {
    && BoundedHeader(h)
    && EncodeHeader(h) <= data
    && TensorsOk(h.infos, Recorded(h.entries).alignment, |EncodeHeader(h)|, |data|, utf8)
  }

  /** The functions the reading methods are specified with, by name only: the
      loops above an entry or a description need nothing of its inside. */
  datatype Grammar = Grammar(
    entry: seq<byte> -> Parsed<Entry>,
    info: seq<byte> -> Parsed<TensorInfo>,
    rule: (seq<TensorInfo>, nat, nat, nat) -> bool)

  ghost predicate IsGrammar(g: Grammar, utf8: Utf8) {
    && (forall data {:trigger ParseEntry(data)} :: g.entry(data) == ParseEntry(data))
    && (forall data {:trigger ParseInfo(data)} :: g.info(data) == ParseInfo(data))
    && (forall infos, alignment, headerBytes,
        fileSize {:trigger TensorsOk(infos, alignment, headerBytes, fileSize, utf8)} ::
          g.rule(infos, alignment, headerBytes, fileSize) == TensorsOk(infos, alignment, headerBytes, fileSize, utf8))
  }

  method ReadEntry(reader: Reader, ghost g: Grammar, ghost utf8: Utf8) returns (e: Option<(seq<byte>, Any)>)
    requires reader.Valid() && IsGrammar(g, utf8)
    modifies reader
    ensures reader.Valid()
    ensures var p := g.entry(old(reader.rest));
            && (e.Some? <==> p.Good?)
            && (e.Some? ==> e.value == (p.value.key, Erase(p.value.value)) && reader.rest == p.rest)
  {
    assert g.entry(reader.rest) == ParseEntry(reader.rest);
    var key := reader.ReadString();
    if key.None? { return None; }
    var t := reader.ReadUnsigned(4);
    if t.None? { return None; }
    var value := reader.ReadValue(t.value, 0);
    if value.None? { return None; }
    return Some((key.value, value.value));
  }

  /** The metadata loop as a function of its state; `record` is the switch
      over the keys. */
  function Metadata<D>(
    parse: seq<byte> -> Parsed<Entry>, record: (D, seq<byte>, Any) -> D, data: seq<byte>, count: nat, doc: D): Parsed<D>
    decreases count
  {
    if count == 0 then Good(doc, data)
    else
      var e := parse(data);
      if e.Bad? then Bad else Metadata(parse, record, e.rest, count - 1, record(doc, e.value.key, Erase(e.value.value)))
  }

  lemma {:induction false} MetadataFolds<D>(
    parse: seq<byte> -> Parsed<Entry>, record: (D, seq<byte>, Any) -> D, data: seq<byte>, count: nat, doc: D)
    ensures var p := ParseMany(parse, data, count);
            Metadata(parse, record, data, count, doc) == if p.Bad? then Bad
                else Good(Folded(record, doc, p.value), p.rest)
    decreases count
  {
    if count > 0 {
      var first := parse(data);
      if first.Good? {
        MetadataFolds(parse, record, first.rest, count - 1, record(doc, first.value.key, Erase(first.value.value)));
        var others := ParseMany(parse, first.rest, count - 1);
        if others.Good? {
          assert ([first.value] + others.value)[1..] == others.value;
        }
      }
    }
  }

  method ReadMetadata<D>(
    reader: Reader, record: (D, seq<byte>, Any) -> D, count: nat, empty: D, ghost g: Grammar, ghost utf8: Utf8)
    returns (doc: Option<D>)
    requires reader.Valid() && IsGrammar(g, utf8)
    modifies reader
    ensures reader.Valid() && Agrees(doc, Metadata(g.entry, record, old(reader.rest), count, empty), reader.rest)
  {
    var document := empty;
    var i := 0;
    while i < count
      invariant 0 <= i <= count && reader.Valid()
      invariant Metadata(g.entry, record, old(reader.rest), count, empty)
             == Metadata(g.entry, record, reader.rest, count - i, document)
    {
      var e := ReadEntry(reader, g, utf8);
      if e.None? { return None; }
      document := record(document, e.value.0, e.value.1);
      i := i + 1;
    }
    return Some(document);
  }

  method ReadShape(reader: Reader, n: nat) returns (shape: Option<seq<nat>>)
    requires reader.Valid()
    modifies reader
    ensures reader.Valid()
    ensures var p := ParseMany(ParseUint64, old(reader.rest), n);
            && (shape.Some? <==> p.Good? && 0 !in p.value)
            && (shape.Some? ==> shape.value == p.value && reader.rest == p.rest)
  {
    ghost var all := ParseMany(ParseUint64, reader.rest, n);
    var values: seq<nat> := [];
    var i := 0;
    while i < n
      invariant 0 <= i <= n && reader.Valid() && 0 !in values
      invariant Left(ParseUint64, all, reader.rest, n - i, values)
    {
      LeftStep(ParseUint64, all, reader.rest, n - i, values);
      var d := reader.ReadUnsigned(8);
      if d.None? || d.value == 0 { return None; }
      values := values + [d.value];
      i := i + 1;
    }
    return Some(values);
  }

  /** What the tensor loop has built: the tensors and the names taken. */
  datatype Built = Built(tensors: seq<Tensor>, names: set<seq<byte>>)

  /** One turn of the tensor loop; `ok` is the demand on one description. */
  function TensorTurn(
    parse: seq<byte> -> Parsed<TensorInfo>, ok: TensorInfo -> bool, make: TensorInfo -> Tensor,
    data: seq<byte>, built: Built): Parsed<Built>
  {
    var p := parse(data);
    if p.Bad? || !ok(p.value) || p.value.name in built.names then Bad
    else Good(Built(built.tensors + [make(p.value)], built.names + {p.value.name}), p.rest)
  }

  type Turn = (seq<byte>, Built) -> Parsed<Built>

  /** The tensor loop as a function of its state. */
  function Tensors(turn: Turn, data: seq<byte>, count: nat, built: Built): Parsed<Built>
    decreases count
  {
    if count == 0 then Good(built, data)
    else
      var p := turn(data, built);
      if p.Bad? then Bad else Tensors(turn, p.rest, count - 1, p.value)
  }

  ghost predicate IsTurn(
    turn: Turn, parse: seq<byte> -> Parsed<TensorInfo>, ok: TensorInfo -> bool, make: TensorInfo -> Tensor) {
    forall data, built {:trigger TensorTurn(parse, ok, make, data, built)} ::
      turn(data, built) == TensorTurn(parse, ok, make, data, built)
  }

  predicate NameOk(name: seq<byte>, utf8: Utf8) {
    1 <= |name| <= 64 && utf8(name)
  }

  function ParseHead(data: seq<byte>): Parsed<(seq<byte>, seq<nat>)> {
    var name := ParseString(data);
    if name.Bad? then Bad else
    var dimensions := ParseUnsigned(name.rest, 4);
    if dimensions.Bad? || dimensions.value == 0 || dimensions.value > 4 then Bad else
    var shape := ParseMany(ParseUint64, dimensions.rest, dimensions.value);
    if shape.Bad? then Bad else Good((name.value, shape.value), shape.rest)
  }

  /** Name, dimensions and shape, each checked before the next is read. */
  method ReadHead(reader: Reader, names: set<seq<byte>>, utf8: Utf8) returns (head: Option<(seq<byte>, seq<nat>)>)
    requires reader.Valid()
    modifies reader
    ensures reader.Valid()
    ensures var p := ParseHead(old(reader.rest));
            && (head.Some? <==> p.Good? && NameOk(p.value.0, utf8) && p.value.0 !in names && 0 !in p.value.1)
            && (head.Some? ==> head.value == p.value && reader.rest == p.rest)
  {
    var name := reader.ReadString();
    if name.None? { return None; }
    if name.value == [] || |name.value| > 64 || !utf8(name.value) || name.value in names { return None; }
    var dimensions := reader.ReadUnsigned(4);
    if dimensions.None? || dimensions.value == 0 || dimensions.value > 4 { return None; }
    var shape := ReadShape(reader, dimensions.value);
    if shape.None? { return None; }
    return Some((name.value, shape.value));
  }

  lemma HeadExact(data: seq<byte>)
    requires ParseHead(data).Good?
    ensures var head := ParseHead(data).value; 1 <= |head.1| <= 4 && forall i :: 0 <= i < |head.1| ==> Uint64(head.1[i])
  {
    var dimensions := ParseUnsigned(ParseString(data).rest, 4);
    ShapeExact(dimensions.rest, dimensions.value);
  }

  /** The checks behind the head of a description, and the size. */
  method MakeTensor(info: TensorInfo, alignment: nat, utf8: Utf8, ghost ok: TensorInfo -> bool)
    returns (t: Option<Tensor>)
    requires alignment > 0 && NameOk(info.name, utf8) && 1 <= |info.shape| && 0 !in info.shape
    requires forall i :: 0 <= i < |info.shape| ==> Uint64(info.shape[i])
    requires forall info {:trigger InfoOk(info, alignment, utf8)} :: ok(info) == InfoOk(info, alignment, utf8)
    ensures t == if ok(info) then Some(TensorOf(info)) else None
  {
    assert ok(info) == InfoOk(info, alignment, utf8);
    if info.offset % alignment != 0 { return None; }
    var size := TensorSize(info.tensorType, info.shape);
    if !size.Bytes? { return None; }
    return Some(Tensor(info.name, info.offset, size.size));
  }

  lemma HeadRejected(data: seq<byte>, alignment: nat, utf8: Utf8, ok: TensorInfo -> bool)
    requires forall info {:trigger InfoOk(info, alignment, utf8)} :: ok(info) == InfoOk(info, alignment, utf8)
    requires ParseInfo(data).Good?
    ensures var head := ParseHead(data);
            && head.Good? && head.value == (ParseInfo(data).value.name, ParseInfo(data).value.shape)
            && (!NameOk(head.value.0, utf8) || 0 in head.value.1 ==> !ok(ParseInfo(data).value))
  {
    var info := ParseInfo(data).value;
    assert ok(info) == InfoOk(info, alignment, utf8);
  }

  method ReadTensor(
    reader: Reader, built: Built, alignment: nat, utf8: Utf8, ghost turn: Turn, ghost ok: TensorInfo -> bool,
        ghost g: Grammar)
    returns (r: Option<Built>)
    requires reader.Valid() && alignment > 0 && IsGrammar(g, utf8) && IsTurn(turn, g.info, ok, TensorOf)
    requires forall info {:trigger InfoOk(info, alignment, utf8)} :: ok(info) == InfoOk(info, alignment, utf8)
    modifies reader
    ensures reader.Valid() && Agrees(r, turn(old(reader.rest), built), reader.rest)
  {
    ghost var here := reader.rest;
    assert turn(here, built) == TensorTurn(g.info, ok, TensorOf, here, built);
    assert g.info(here) == ParseInfo(here);
    if g.info(here).Good? { HeadRejected(here, alignment, utf8, ok); }
    var head := ReadHead(reader, built.names, utf8);
    if head.None? { return None; }
    HeadExact(here);
    var tensorType := reader.ReadUnsigned(4);
    if tensorType.None? { return None; }
    var offset := reader.ReadUnsigned(8);
    if offset.None? { return None; }
    var info := TensorInfo(head.value.0, head.value.1, tensorType.value, offset.value);
    assert g.info(here) == Good(info, reader.rest);
    var tensor := MakeTensor(info, alignment, utf8, ok);
    if tensor.None? { return None; }
    return Some(Built(built.tensors + [tensor.value], built.names + {info.name}));
  }

  method ReadTensors(
    reader: Reader, count: nat, alignment: nat, utf8: Utf8, ghost turn: Turn, ghost ok: TensorInfo -> bool,
        ghost g: Grammar)
    returns (r: Option<Built>)
    requires reader.Valid() && alignment > 0 && IsGrammar(g, utf8) && IsTurn(turn, g.info, ok, TensorOf)
    requires forall info {:trigger InfoOk(info, alignment, utf8)} :: ok(info) == InfoOk(info, alignment, utf8)
    modifies reader
    ensures reader.Valid() && Agrees(r, Tensors(turn, old(reader.rest), count, Built([], {})), reader.rest)
  {
    var built := Built([], {});
    var i := 0;
    while i < count
      invariant 0 <= i <= count && reader.Valid()
      invariant Tensors(turn, old(reader.rest), count, Built([], {})) == Tensors(turn, reader.rest, count - i, built)
    {
      var next := ReadTensor(reader, built, alignment, utf8, turn, ok, g);
      if next.None? { return None; }
      built := next.value;
      i := i + 1;
    }
    return Some(built);
  }

  function NamesOf(infos: seq<TensorInfo>): set<seq<byte>> {
    set i | 0 <= i < |infos| :: infos[i].name
  }

  lemma Accepted(ok: TensorInfo -> bool, done: seq<TensorInfo>, info: TensorInfo)
    requires Together(ok, done) && ok(info) && info.name !in NamesOf(done)
    ensures Together(ok, done + [info])
    ensures NamesOf(done + [info]) == NamesOf(done) + {info.name}
  {
    var all := done + [info];
    assert all[|done|] == info;
    forall name ensures name in NamesOf(all) <==> name in NamesOf(done) + {info.name} {
      if name in NamesOf(done) {
        var i :| 0 <= i < |done| && done[i].name == name;
        assert all[i].name == name;
      }
    }
  }

  /** The loop accepts exactly the descriptions that are acceptable together. */
  lemma {:induction false} TensorsAccept(
    turn: Turn, parse: seq<byte> -> Parsed<TensorInfo>, ok: TensorInfo -> bool, make: TensorInfo -> Tensor,
    data: seq<byte>, count: nat, done: seq<TensorInfo>)
    requires IsTurn(turn, parse, ok, make) && Together(ok, done)
    ensures var r := Tensors(turn, data, count, Built(Made(make, done), NamesOf(done)));
            var p := ParseMany(parse, data, count);
            && (r.Good? <==> p.Good? && Together(ok, done + p.value))
            && (r.Good? ==> r.value.tensors == Made(make, done + p.value) && r.rest == p.rest)
    decreases count
  {
    var built := Built(Made(make, done), NamesOf(done));
    var first := parse(data);
    assert turn(data, built) == TensorTurn(parse, ok, make, data, built);
    if count == 0 {
      assert done + [] == done;
    } else if first.Good? {
      var others := ParseMany(parse, first.rest, count - 1);
      if turn(data, built).Good? {
        Accepted(ok, done, first.value);
        assert Made(make, done + [first.value]) == Made(make, done) + [make(first.value)];
        TensorsAccept(turn, parse, ok, make, first.rest, count - 1, done + [first.value]);
        if others.Good? { assert done + ([first.value] + others.value) == (done + [first.value]) + others.value; }
      } else if others.Good? {
        var all := done + ([first.value] + others.value);
        assert all[..|done|] == done && all[|done|] == first.value;
        if first.value.name in NamesOf(done) {
          var i :| 0 <= i < |done| && done[i].name == first.value.name;
          assert all[i].name == all[|done|].name;
        }
      }
    }
  }

  method ReadFront(reader: Reader) returns (front: Option<(nat, nat)>)
    requires reader.Valid()
    modifies reader
    ensures reader.Valid() && Agrees(front, ParseFront(old(reader.rest)), reader.rest)
  {
    var magic := reader.ReadFull(4);
    if magic.None? || magic.value != Ascii("GGUF") { return None; }
    var version := reader.ReadUnsigned(4);
    if version.None? || version.value != 3 { return None; }
    var tensorCount := reader.ReadUnsigned(8);
    if tensorCount.None? || tensorCount.value > MAX_TENSORS { return None; }
    var metadataCount := reader.ReadUnsigned(8);
    if metadataCount.None? || metadataCount.value > MAX_METADATA_ENTRIES { return None; }
    return Some((tensorCount.value, metadataCount.value));
  }

  /** The tensors, exactly when they are acceptable together. */
  method CollectTensors(
    reader: Reader, count: nat, alignment: nat, utf8: Utf8, ghost good: TensorInfo -> bool, ghost g: Grammar)
    returns (r: Option<seq<Tensor>>)
    requires reader.Valid() && alignment > 0 && IsGrammar(g, utf8)
    requires forall info {:trigger InfoOk(info, alignment, utf8)} :: good(info) == InfoOk(info, alignment, utf8)
    modifies reader
    ensures reader.Valid()
    ensures var p := ParseMany(g.info, old(reader.rest), count);
            && (r.Some? <==> p.Good? && Together(good, p.value))
            && (r.Some? ==> r.value == Made(TensorOf, p.value) && reader.rest == p.rest)
  {
    ghost var turn: Turn := (data, built) => TensorTurn(g.info, good, TensorOf, data, built);
    TensorsAccept(turn, g.info, good, TensorOf, reader.rest, count, []);
    assert Made(TensorOf, []) == [] && NamesOf([]) == {};
    ghost var infos := ParseMany(g.info, reader.rest, count);
    assert infos.Good? ==> [] + infos.value == infos.value;
    var built := ReadTensors(reader, count, alignment, utf8, turn, good, g);
    r := if built.None? then None else Some(built.value.tensors);
  }

  lemma RuleRejects(g: Grammar, infos: seq<TensorInfo>, alignment: nat, headerBytes: nat, fileSize: nat, utf8: Utf8)
    requires IsGrammar(g, utf8)
    requires !AlignmentOk(alignment) || !Together(info => InfoOk(info, alignment, utf8), infos)
    ensures !g.rule(infos, alignment, headerBytes, fileSize)
  {
    assert !TensorsOk(infos, alignment, headerBytes, fileSize, utf8);
  }

  method CheckTensors(
    tensors: seq<Tensor>, ghost infos: seq<TensorInfo>, alignment: nat, headerBytes: nat, fileSize: nat, utf8: Utf8,
    ghost g: Grammar)
    returns (ok: bool)
    requires AlignmentOk(alignment) && tensors == Made(TensorOf, infos) && Uint64(headerBytes) && Uint64(fileSize)
    requires Together(info => InfoOk(info, alignment, utf8), infos)
    requires forall i :: 0 <= i < |infos| ==> BoundedInfo(infos[i])
    requires IsGrammar(g, utf8)
    ensures ok <==> g.rule(infos, alignment, headerBytes, fileSize)
  {
    TensorsFit(infos, alignment, utf8);
    assert g.rule(infos, alignment, headerBytes, fileSize) == TensorsOk(infos, alignment, headerBytes, fileSize, utf8);
    ok := CheckLayout(tensors, headerBytes, alignment, fileSize);
  }

  lemma InfosSound(g: Grammar, utf8: Utf8, data: seq<byte>, count: nat)
    requires IsGrammar(g, utf8) && ParseMany(g.info, data, count).Good?
    ensures var p := ParseMany(g.info, data, count);
            && |p.value| == count && |p.rest| <= |data|
            && forall i :: 0 <= i < count ==> BoundedInfo(p.value[i])
  {
    forall d | g.info(d).Good?
      ensures BoundedInfo(g.info(d).value) && d == EncodeInfo(g.info(d).value) + g.info(d).rest
    {
      assert g.info(d) == ParseInfo(d);
      InfoExact(d);
    }
    ManyExact(g.info, EncodeInfo, BoundedInfo, data, count);
  }

  /** Reading the tensor descriptions and checking the layout of their data. */
  method ReadLayout(reader: Reader, count: nat, alignment: nat, utf8: Utf8, ghost g: Grammar) returns (ok: bool)
    requires reader.Valid() && Uint64(reader.size) && IsGrammar(g, utf8)
    modifies reader
    ensures reader.Valid()
    ensures var p := ParseMany(g.info, old(reader.rest), count);
            && (p.Good? ==> |p.rest| <= |old(reader.rest)|)
            && (ok <==> p.Good? && g.rule(p.value, alignment, reader.size - |p.rest|, reader.size))
  {
    ghost var infos := ParseMany(g.info, reader.rest, count);
    if infos.Good? { InfosSound(g, utf8, reader.rest, count); }
    if !AlignmentOk(alignment) {
      if infos.Good? { RuleRejects(g, infos.value, alignment, reader.size - |infos.rest|, reader.size, utf8); }
      return false;
    }
    var tensors := CollectTensors(reader, count, alignment, utf8, info => InfoOk(info, alignment, utf8), g);
    if tensors.None? {
      if infos.Good? { RuleRejects(g, infos.value, alignment, reader.size - |infos.rest|, reader.size, utf8); }
      return false;
    }
    ok := CheckTensors(tensors.value, infos.value, alignment, reader.count, reader.count + |reader.rest|, utf8, g);
  }

  lemma InfosExact(data: seq<byte>, count: nat)
    ensures var p := ParseMany(ParseInfo, data, count);
            p.Good? ==> |p.value| == count && data == EncodeMany(EncodeInfo, p.value) + p.rest
                        && forall i :: 0 <= i < count ==> BoundedInfo(p.value[i])
  {
    forall d | ParseInfo(d).Good?
      ensures BoundedInfo(ParseInfo(d).value) && d == EncodeInfo(ParseInfo(d).value) + ParseInfo(d).rest
    {
      InfoExact(d);
    }
    if ParseMany(ParseInfo, data, count).Good? {
      ManyExact(ParseInfo, EncodeInfo, BoundedInfo, data, count);
    }
  }

  lemma TensorsFit(infos: seq<TensorInfo>, alignment: nat, utf8: Utf8)
    requires Together(info => InfoOk(info, alignment, utf8), infos)
    requires forall i :: 0 <= i < |infos| ==> BoundedInfo(infos[i])
    ensures DistinctNames(Made(TensorOf, infos))
    ensures forall t :: t in Made(TensorOf, infos) ==> TensorFits(t)
  {
    var tensors := Made(TensorOf, infos);
    forall i, j | 0 <= i < j < |infos| ensures tensors[i].name != tensors[j].name {
      assert infos[i].name != infos[j].name;
    }
    forall i | 0 <= i < |infos| ensures TensorFits(tensors[i]) {
      assert InfoOk(infos[i], alignment, utf8);
      SizePositive(infos[i].tensorType, infos[i].shape);
    }
  }

  /** What the parser makes of the counted entries and tensors in `data`. */
  ghost function Verdict(g: Grammar, data: seq<byte>, tensorCount: nat, metadataCount: nat,
    fileSize: nat): Option<Document> {
    var entries := ParseMany(g.entry, data, metadataCount);
    if entries.Bad? then None else
    var infos := ParseMany(g.info, entries.rest, tensorCount);
    if infos.Bad? || |infos.rest| > fileSize then None else
    var doc := Recorded(entries.value);
    if g.rule(infos.value, doc.alignment, fileSize - |infos.rest|, fileSize) then Some(doc) else None
  }

  /** Metadata first, then the tensors under the alignment the metadata asks for. */
  method ReadBody(reader: Reader, tensorCount: nat, metadataCount: nat, utf8: Utf8, ghost g: Grammar)
    returns (doc: Option<Document>)
    requires reader.Valid() && Uint64(reader.size) && IsGrammar(g, utf8)
    modifies reader
    ensures doc == Verdict(g, old(reader.rest), tensorCount, metadataCount, reader.size)
  {
    MetadataFolds(g.entry, Record, reader.rest, metadataCount, EMPTY_DOCUMENT);
    var document := ReadMetadata(reader, Record, metadataCount, EMPTY_DOCUMENT, g, utf8);
    if document.None? { return None; }
    var ok := ReadLayout(reader, tensorCount, document.value.alignment, utf8, g);
    doc := if ok then document else None;
  }

  ghost function WholeVerdict(g: Grammar, data: seq<byte>): Option<(Document, nat)> {
    var front := ParseFront(data);
    if front.Bad? then None else
    var doc := Verdict(g, front.rest, front.value.0, front.value.1, |data|);
    if doc.None? then None else Some((doc.value, front.value.0))
  }

  method RunParser(data: seq<byte>, utf8: Utf8, ghost g: Grammar) returns (r: Option<(Document, nat)>)
    requires Uint64(|data|) && IsGrammar(g, utf8)
    ensures r == WholeVerdict(g, data)
  {
    var reader := new Reader(data);
    var front := ReadFront(reader);
    if front.None? { return None; }
    var (tensorCount, metadataCount) := front.value;
    var doc := ReadBody(reader, tensorCount, metadataCount, utf8, g);
    if doc.None? { return None; }
    return Some((doc.value, tensorCount));
  }

  // ---- the verdict says what a well-formed file is ------------------------------------

  lemma HeaderUnique(h: Header, data: seq<byte>)
    requires BoundedHeader(h) && EncodeHeader(h) <= data
    ensures ParseHeader(data) == Good(h, data[|EncodeHeader(h)|..])
  {
    HeaderRoundTrip(h, data[|EncodeHeader(h)|..]);
    assert EncodeHeader(h) + data[|EncodeHeader(h)|..] == data;
  }

  /** The verdict, by the header that is read. */
  lemma HeaderVerdict(g: Grammar, data: seq<byte>, utf8: Utf8)
    requires IsGrammar(g, utf8)
    ensures var p := ParseSections(g.entry, g.info, data);
            && (p.Bad? ==> WholeVerdict(g, data).None?)
            && (p.Good? && |p.rest| <= |data| ==>
                  WholeVerdict(g, data) ==
                  if g.rule(p.value.infos, Recorded(p.value.entries).alignment, |data| - |p.rest|, |data|)
                  then Some((Recorded(p.value.entries), |p.value.infos|)) else None)
  {
    var front := ParseFront(data);
    if front.Good? {
      FrontVerdict(g, front.rest, front.value.0, front.value.1, |data|, utf8);
    }
  }

  lemma FrontVerdict(g: Grammar, data: seq<byte>, tensorCount: nat, metadataCount: nat, fileSize: nat, utf8: Utf8)
    requires IsGrammar(g, utf8)
    ensures var entries := ParseMany(g.entry, data, metadataCount);
            if entries.Bad? then Verdict(g, data, tensorCount, metadataCount, fileSize).None?
            else
              var infos := ParseMany(g.info, entries.rest, tensorCount);
              if infos.Bad? then Verdict(g, data, tensorCount, metadataCount, fileSize).None?
              else
                && |infos.value| == tensorCount
                && (|infos.rest| <= fileSize ==>
                      Verdict(g, data, tensorCount, metadataCount, fileSize) ==
                      if g.rule(infos.value, Recorded(entries.value).alignment, fileSize - |infos.rest|, fileSize)
                      then Some(Recorded(entries.value)) else None)
  {
    var entries := ParseMany(g.entry, data, metadataCount);
    if entries.Good? && ParseMany(g.info, entries.rest, tensorCount).Good? {
      InfosSound(g, utf8, entries.rest, tensorCount);
    }
  }

  lemma HeaderAccepted(g: Grammar, h: Header, rest: seq<byte>, data: seq<byte>, utf8: Utf8)
    requires IsGrammar(g, utf8) && ParseSections(g.entry, g.info, data) == Good(h, rest)
    requires data == EncodeHeader(h) + rest
    requires TensorsOk(h.infos, Recorded(h.entries).alignment, |EncodeHeader(h)|, |data|, utf8)
    ensures WholeVerdict(g, data) == Some((Recorded(h.entries), |h.infos|))
  {
    HeaderVerdict(g, data, utf8);
  }

  lemma HeaderGivesVerdict(g: Grammar, h: Header, data: seq<byte>, utf8: Utf8)
    requires IsGrammar(g, utf8) && IsHeaderOf(h, data, utf8)
    requires ParseSections(g.entry, g.info, data) == ParseHeader(data)
    ensures WholeVerdict(g, data) == Some((Recorded(h.entries), |h.infos|))
  {
    HeaderUnique(h, data);
    var rest := data[|EncodeHeader(h)|..];
    assert data == EncodeHeader(h) + rest;
    HeaderAccepted(g, h, rest, data, utf8);
  }

  lemma HeaderFound(g: Grammar, h: Header, rest: seq<byte>, data: seq<byte>, utf8: Utf8)
    requires IsGrammar(g, utf8) && WholeVerdict(g, data).Some?
    requires ParseSections(g.entry, g.info, data) == Good(h, rest)
    requires BoundedHeader(h) && data == EncodeHeader(h) + rest
    ensures IsHeaderOf(h, data, utf8)
  {
    HeaderVerdict(g, data, utf8);
    assert TensorsOk(h.infos, Recorded(h.entries).alignment, |EncodeHeader(h)|, |data|, utf8);
  }

  lemma VerdictHasHeader(g: Grammar, data: seq<byte>, utf8: Utf8)
    requires IsGrammar(g, utf8) && WholeVerdict(g, data).Some?
    requires ParseSections(g.entry, g.info, data) == ParseHeader(data)
    ensures exists h :: IsHeaderOf(h, data, utf8)
  {
    HeaderVerdict(g, data, utf8);
    HeaderExact(data);
    HeaderFound(g, ParseHeader(data).value, ParseHeader(data).rest, data, utf8);
  }

  /** The parser, for every byte string: it succeeds exactly when the string
      starts with the header of a well-formed file, and reports what that
      header records. */
  method ParseGguf(data: seq<byte>, utf8: Utf8) returns (r: Option<(Document, nat)>)
    requires Uint64(|data|)
    ensures r.Some? <==> exists h :: IsHeaderOf(h, data, utf8)
    ensures forall h :: IsHeaderOf(h, data, utf8) ==> r == Some((Recorded(h.entries), |h.infos|))
  {
    ghost var g := Grammar(ParseEntry, ParseInfo, (infos, alignment: nat, headerBytes: nat, fileSize: nat) =>
      TensorsOk(infos, alignment, headerBytes, fileSize, utf8));
    r := RunParser(data, utf8, g);
    forall h | IsHeaderOf(h, data, utf8) ensures r == Some((Recorded(h.entries), |h.infos|)) {
      HeaderGivesVerdict(g, h, data, utf8);
    }
    if r.Some? {
      VerdictHasHeader(g, data, utf8);
    }
  }
}
