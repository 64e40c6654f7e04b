/** The metadata values of a GGUF v3 file: one encoding, one bounded reader.

    `Encode` is the layout of the format. `ParseValue` is what the reader of
    the source accepts. They are inverse to each other: whatever was encoded is
    read back with exactly the suffix left over, and whatever is read was the
    encoding of the value read.
 */
module GgufValue {
  import opened Basics

  // ---- little-endian integers -------------------------------------------------

  function Pow256(k: nat): nat {
    if k == 0 then 1 else 256 * Pow256(k - 1)
  }

  function Unsigned(bytes: seq<byte>): nat {
    if bytes == [] then 0 else bytes[0] + 256 * Unsigned(bytes[1..])
  }

  function LittleEndian(n: nat, k: nat): (bytes: seq<byte>)
    ensures |bytes| == k
  {
    if k == 0 then [] else [n % 256] + LittleEndian(n / 256, k - 1)
  }

  lemma {:induction false} LittleEndianReads(n: nat, k: nat)
    requires n < Pow256(k)
    ensures Unsigned(LittleEndian(n, k)) == n
  {
    if k > 0 {
      LittleEndianReads(n / 256, k - 1);
      assert LittleEndian(n, k)[1..] == LittleEndian(n / 256, k - 1);
    }
  }

  lemma LowByte(b: byte, n: nat)
    ensures (b + 256 * n) % 256 == b && (b + 256 * n) / 256 == n
  {
  }

  lemma {:induction false} UnsignedWrites(bytes: seq<byte>)
    ensures Unsigned(bytes) < Pow256(|bytes|)
    ensures LittleEndian(Unsigned(bytes), |bytes|) == bytes
  {
    if bytes != [] {
      UnsignedWrites(bytes[1..]);
      LowByte(bytes[0], Unsigned(bytes[1..]));
      assert bytes == [bytes[0]] + bytes[1..];
    }
  }

  /** Two's complement on `k` bytes. */
  function Signed(n: nat, k: nat): int {
    if 2 * n < Pow256(k) then n else n - Pow256(k)
  }

  function Complement(v: int, k: nat): int {
    if v >= 0 then v else v + Pow256(k)
  }

  // ---- values -------------------------------------------------------------------

  /** Scalars carry the width of their type; floats carry their bit pattern. */
  datatype Value =
    | UInt(width: nat, n: nat)
    | SInt(width: nat, v: int)
    | Float(width: nat, bits: nat)
    | Bool(b: bool)
    | Str(text: seq<byte>)
    | Arr(elementType: nat, items: seq<Value>)

  const MAX_STRING_BYTES := 16777216
  const MAX_ARRAY_ENTRIES := 16777216
  const MAX_DEPTH := 4

  /** The type number of the format. */
  function TypeOf(v: Value): nat {
    match v
    case UInt(w, _) => if w == 1 then 0 else if w == 2 then 2 else if w == 4 then 4 else 10
    case SInt(w, _) => if w == 1 then 1 else if w == 2 then 3 else if w == 4 then 5 else 11
    case Float(w, _) => if w == 4 then 6 else 12
    case Bool(_) => 7
    case Str(_) => 8
    case Arr(_, _) => 9
  }

  /** A value within the limits, read at nesting depth `depth`. */
  predicate Bounded(v: Value, depth: nat) {
    && depth <= MAX_DEPTH
    && match v
       case UInt(w, n) => (w == 1 || w == 2 || w == 4 || w == 8) && n < Pow256(w)
       case SInt(w, i) => (w == 1 || w == 2 || w == 4 || w == 8) && 0 <= 2 * i + Pow256(w) && 2 * i < Pow256(w)
       case Float(w, n) => (w == 4 || w == 8) && n < Pow256(w)
       case Bool(_) => true
       case Str(text) => |text| <= MAX_STRING_BYTES
       case Arr(t, items) =>
         && t < Pow256(4) && |items| <= MAX_ARRAY_ENTRIES
         && forall i :: 0 <= i < |items| ==> TypeOf(items[i]) == t && Bounded(items[i], depth + 1)
  }

  function Encode(v: Value): seq<byte> {
    match v
    case UInt(w, n) => LittleEndian(n, w)
    case SInt(w, i) => var n := Complement(i, w); if n < 0 then [] else LittleEndian(n, w)
    case Float(w, n) => LittleEndian(n, w)
    case Bool(b) => [if b then 1 else 0]
    case Str(text) => EncodeString(text)
    case Arr(t, items) => LittleEndian(t, 4) + LittleEndian(|items|, 8) + EncodeAll(items)
  }

  function EncodeString(text: seq<byte>): seq<byte> {
    LittleEndian(|text|, 8) + text
  }

  function EncodeAll(items: seq<Value>): seq<byte> {
    if items == [] then [] else Encode(items[0]) + EncodeAll(items[1..])
  }

  // ---- the reader, as a function of the bytes that are left ---------------------

  datatype Parsed<+T> = Bad | Good(value: T, rest: seq<byte>)

  function ParseUnsigned(data: seq<byte>, k: nat): Parsed<nat> {
    if |data| < k then Bad else Good(Unsigned(data[..k]), data[k..])
  }

  function ParseString(data: seq<byte>): Parsed<seq<byte>> {
    var length := ParseUnsigned(data, 8);
    if length.Bad? || length.value > MAX_STRING_BYTES || |length.rest| < length.value then Bad
    else Good(length.rest[..length.value], length.rest[length.value..])
  }

  function ScalarWidth(t: nat): nat {
    if t == 0 || t == 1 || t == 7 then 1
    else if t == 2 || t == 3 then 2
    else if t == 4 || t == 5 || t == 6 then 4
    else 8
  }

  function Scalar(t: nat, n: nat): Value {
    var w := ScalarWidth(t);
    if t == 1 || t == 3 || t == 5 || t == 11 then SInt(w, Signed(n, w))
    else if t == 6 || t == 12 then Float(w, n)
    else if t == 7 then Bool(n == 1)
    else UInt(w, n)
  }

  predicate ScalarType(t: nat) {
    t <= 7 || 10 <= t <= 12
  }

  function ParseValue(data: seq<byte>, t: nat, depth: nat): Parsed<Value>
    requires depth <= MAX_DEPTH + 1
    decreases MAX_DEPTH + 1 - depth, 0, 0
  {
    if depth > MAX_DEPTH then Bad
    else if ScalarType(t) then
      var n := ParseUnsigned(data, ScalarWidth(t));
      if n.Bad? || (t == 7 && n.value > 1) then Bad else Good(Scalar(t, n.value), n.rest)
    else if t == 8 then
      var text := ParseString(data);
      if text.Bad? then Bad else Good(Str(text.value), text.rest)
    else if t == 9 then
      var elementType := ParseUnsigned(data, 4);
      if elementType.Bad? then Bad
      else
        var count := ParseUnsigned(elementType.rest, 8);
        if count.Bad? || count.value > MAX_ARRAY_ENTRIES then Bad
        else
          var items := ParseItems(count.rest, elementType.value, depth + 1, count.value);
          if items.Bad? then Bad else Good(Arr(elementType.value, items.value), items.rest)
    else Bad
  }

  function ParseItems(data: seq<byte>, t: nat, depth: nat, count: nat): Parsed<seq<Value>>
    requires depth <= MAX_DEPTH + 1
    decreases MAX_DEPTH + 1 - depth, 1, count
  {
    if count == 0 then Good([], data)
    else
      var first := ParseValue(data, t, depth);
      if first.Bad? then Bad
      else
        var others := ParseItems(first.rest, t, depth, count - 1);
        if others.Bad? then Bad else Good([first.value] + others.value, others.rest)
  }

  lemma Regroup(a: seq<byte>, b: seq<byte>, c: seq<byte>)
    ensures (a + b) + c == a + (b + c)
  {
  }

  lemma Regroup4(a: seq<byte>, b: seq<byte>, c: seq<byte>, d: seq<byte>)
    ensures ((a + b) + c) + d == a + (b + (c + d))
  {
  }

  // ---- reading back ---------------------------------------------------------------

  lemma UnsignedBack(n: nat, k: nat, suffix: seq<byte>)
    requires n < Pow256(k)
    ensures ParseUnsigned(LittleEndian(n, k) + suffix, k) == Good(n, suffix)
  {
    LittleEndianReads(n, k);
    var data := LittleEndian(n, k) + suffix;
    assert data[..k] == LittleEndian(n, k) && data[k..] == suffix;
  }

  lemma Powers()
    ensures Pow256(1) == 256 && Pow256(2) == 65536 && Pow256(4) == 4294967296 && Pow256(8) == 18446744073709551616
  {
    assert Pow256(3) == 256 * Pow256(2);
    assert Pow256(4) == 256 * Pow256(3);
    assert Pow256(5) == 256 * Pow256(4);
    assert Pow256(6) == 256 * Pow256(5);
    assert Pow256(7) == 256 * Pow256(6);
  }

  lemma StringBack(text: seq<byte>, suffix: seq<byte>)
    requires |text| <= MAX_STRING_BYTES
    ensures ParseString(EncodeString(text) + suffix) == Good(text, suffix)
  {
    Powers();
    UnsignedBack(|text|, 8, text + suffix);
    Regroup(LittleEndian(|text|, 8), text, suffix);
    assert (text + suffix)[..|text|] == text && (text + suffix)[|text|..] == suffix;
  }

  lemma ScalarBack(v: Value, depth: nat, suffix: seq<byte>)
    requires Bounded(v, depth) && !v.Str? && !v.Arr?
    ensures ParseValue(Encode(v) + suffix, TypeOf(v), depth) == Good(v, suffix)
  {
    Powers();
    match v {
      case UInt(w, n) => UnsignedBack(n, w, suffix);
      case SInt(w, i) => UnsignedBack(Complement(i, w), w, suffix);
      case Float(w, n) => UnsignedBack(n, w, suffix);
      case Bool(b) =>
        var n := if b then 1 else 0;
        assert LittleEndian(n, 1) == [n % 256] + LittleEndian(n / 256, 0);
        assert Encode(v) == LittleEndian(n, 1);
        UnsignedBack(n, 1, suffix);
    }
  }

  /** Reading what was encoded gives the value and leaves exactly the suffix. */
  lemma {:induction false} ValueRoundTrip(v: Value, depth: nat, suffix: seq<byte>)
    requires Bounded(v, depth)
    ensures ParseValue(Encode(v) + suffix, TypeOf(v), depth) == Good(v, suffix)
    decreases v, 0
  {
    if v.Str? {
      StringBack(v.text, suffix);
    } else if v.Arr? {
      ItemsRoundTrip(v, 0, depth + 1, suffix);
      assert v.items[0..] == v.items;
      ArrayBack(v, depth, suffix);
    } else {
      ScalarBack(v, depth, suffix);
    }
  }

  lemma ArrayBack(v: Value, depth: nat, suffix: seq<byte>)
    requires Bounded(v, depth) && v.Arr?
    requires ParseItems(EncodeAll(v.items) + suffix, v.elementType, depth + 1, |v.items|) == Good(v.items, suffix)
    ensures ParseValue(Encode(v) + suffix, TypeOf(v), depth) == Good(v, suffix)
  {
    Powers();
    var body := EncodeAll(v.items) + suffix;
    var counted := LittleEndian(|v.items|, 8) + body;
    Regroup4(LittleEndian(v.elementType, 4), LittleEndian(|v.items|, 8), EncodeAll(v.items), suffix);
    UnsignedBack(v.elementType, 4, counted);
    UnsignedBack(|v.items|, 8, body);
  }

  lemma {:induction false} ItemsRoundTrip(v: Value, k: nat, depth: nat, suffix: seq<byte>)
    requires v.Arr? && k <= |v.items| && depth <= MAX_DEPTH + 1
    requires forall i :: 0 <= i < |v.items| ==> TypeOf(v.items[i]) == v.elementType && Bounded(v.items[i], depth)
    ensures ParseItems(EncodeAll(v.items[k..]) + suffix, v.elementType, depth, |v.items| - k) ==
            Good(v.items[k..], suffix)
    decreases v, 0, |v.items| - k
  {
    var items := v.items[k..];
    if k < |v.items| {
      var rest := EncodeAll(items[1..]) + suffix;
      assert items[0] == v.items[k] && items[1..] == v.items[k+1..];
      Regroup(Encode(items[0]), EncodeAll(items[1..]), suffix);
      ValueRoundTrip(v.items[k], depth, rest);
      ItemsRoundTrip(v, k + 1, depth, suffix);
      assert items == [items[0]] + items[1..];
    } else {
      assert EncodeAll(items) + suffix == suffix;
    }
  }

  // ---- whatever is read was encoded -----------------------------------------------

  lemma UnsignedExact(data: seq<byte>, k: nat)
    requires ParseUnsigned(data, k).Good?
    ensures var r := ParseUnsigned(data, k); r.value < Pow256(k) && data == LittleEndian(r.value, k) + r.rest
  {
    UnsignedWrites(data[..k]);
    Split(data, k);
  }

  lemma Split(data: seq<byte>, k: nat)
    requires k <= |data|
    ensures data == data[..k] + data[k..]
  {
  }

  lemma StringExact(data: seq<byte>)
    requires ParseString(data).Good?
    ensures var r := ParseString(data); |r.value| <= MAX_STRING_BYTES && data == EncodeString(r.value) + r.rest
  {
    UnsignedExact(data, 8);
    var length := ParseUnsigned(data, 8);
    var text, rest := length.rest[..length.value], length.rest[length.value..];
    Split(length.rest, length.value);
    Regroup(LittleEndian(length.value, 8), text, rest);
  }

  lemma ScalarExact(data: seq<byte>, t: nat, depth: nat)
    requires depth <= MAX_DEPTH && ScalarType(t) && ParseValue(data, t, depth).Good?
    ensures var r := ParseValue(data, t, depth);
            Bounded(r.value, depth) && TypeOf(r.value) == t && data == Encode(r.value) + r.rest
  {
    Powers();
    var w := ScalarWidth(t);
    UnsignedExact(data, w);
    var n := ParseUnsigned(data, w).value;
    if t == 7 {
      assert LittleEndian(n, 1) == [n % 256] + LittleEndian(n / 256, 0);
      assert Encode(Bool(n == 1)) == LittleEndian(n, 1);
    } else if t == 1 || t == 3 || t == 5 || t == 11 {
      assert Complement(Signed(n, w), w) == n;
    }
  }

  /** The reader accepts nothing but encodings of values within the limits. */
  lemma {:induction false} ValueExact(data: seq<byte>, t: nat, depth: nat)
    requires depth <= MAX_DEPTH + 1 && ParseValue(data, t, depth).Good?
    ensures var r := ParseValue(data, t, depth);
            Bounded(r.value, depth) && TypeOf(r.value) == t && data == Encode(r.value) + r.rest
    decreases MAX_DEPTH + 1 - depth, 0, 0
  {
    if ScalarType(t) {
      ScalarExact(data, t, depth);
    } else if t == 8 {
      StringExact(data);
    } else {
      UnsignedExact(data, 4);
      var elementType := ParseUnsigned(data, 4);
      UnsignedExact(elementType.rest, 8);
      var count := ParseUnsigned(elementType.rest, 8);
      ItemsExact(count.rest, elementType.value, depth + 1, count.value);
      var items := ParseItems(count.rest, elementType.value, depth + 1, count.value);
      Regroup4(LittleEndian(elementType.value, 4), LittleEndian(count.value, 8), EncodeAll(items.value), items.rest);
    }
  }

  lemma {:induction false} ItemsExact(data: seq<byte>, t: nat, depth: nat, count: nat)
    requires depth <= MAX_DEPTH + 1 && ParseItems(data, t, depth, count).Good?
    ensures var r := ParseItems(data, t, depth, count);
            && |r.value| == count && data == EncodeAll(r.value) + r.rest
            && forall i :: 0 <= i < count ==> TypeOf(r.value[i]) == t && Bounded(r.value[i], depth)
    decreases MAX_DEPTH + 1 - depth, 1, count
  {
    if count > 0 {
      ValueExact(data, t, depth);
      var first := ParseValue(data, t, depth);
      ItemsExact(first.rest, t, depth, count - 1);
      var others := ParseItems(first.rest, t, depth, count - 1);
      var all := [first.value] + others.value;
      assert all[0] == first.value && all[1..] == others.value;
      assert EncodeAll(all) == Encode(first.value) + EncodeAll(others.value);
      Regroup(Encode(first.value), EncodeAll(others.value), others.rest);
    }
  }

  // ---- how much work a read can cause ---------------------------------------------

  /** The number of calls of the value reader, nested ones included. */
  function Calls(data: seq<byte>, t: nat, depth: nat): nat
    requires depth <= MAX_DEPTH + 1
    decreases MAX_DEPTH + 1 - depth, 0, 0
  {
    if depth > MAX_DEPTH || t != 9 || ParseUnsigned(data, 4).Bad? then 1
    else
      var elementType := ParseUnsigned(data, 4);
      var count := ParseUnsigned(elementType.rest, 8);
      if count.Bad? || count.value > MAX_ARRAY_ENTRIES then 1
      else 1 + ItemCalls(count.rest, elementType.value, depth + 1, count.value)
  }

  function ItemCalls(data: seq<byte>, t: nat, depth: nat, count: nat): nat
    requires depth <= MAX_DEPTH + 1
    decreases MAX_DEPTH + 1 - depth, 1, count
  {
    if count == 0 then 0
    else
      var first := ParseValue(data, t, depth);
      Calls(data, t, depth) + (if first.Bad? then 0 else ItemCalls(first.rest, t, depth, count - 1))
  }

  /** A successful read makes at most one call per byte it consumes, a failing
      one at most one call more than there are bytes. */
  lemma {:induction false} CallsBounded(data: seq<byte>, t: nat, depth: nat)
    requires depth <= MAX_DEPTH + 1
    ensures var r := ParseValue(data, t, depth);
            if r.Good? then Calls(data, t, depth) <= |data| - |r.rest| else Calls(data, t, depth) <= |data| + 1
    decreases MAX_DEPTH + 1 - depth, 0, 0
  {
    if depth <= MAX_DEPTH && t == 9 && ParseUnsigned(data, 4).Good? {
      var elementType := ParseUnsigned(data, 4);
      var count := ParseUnsigned(elementType.rest, 8);
      if count.Good? && count.value <= MAX_ARRAY_ENTRIES {
        ItemCallsBounded(count.rest, elementType.value, depth + 1, count.value);
      }
    }
  }

  lemma {:induction false} ItemCallsBounded(data: seq<byte>, t: nat, depth: nat, count: nat)
    requires depth <= MAX_DEPTH + 1
    ensures var r := ParseItems(data, t, depth, count);
            if r.Good? then ItemCalls(data, t, depth, count) <= |data| - |r.rest|
                else ItemCalls(data, t, depth, count) <= |data| + 1
    decreases MAX_DEPTH + 1 - depth, 1, count
  {
    if count > 0 {
      CallsBounded(data, t, depth);
      var first := ParseValue(data, t, depth);
      if first.Good? { ItemCallsBounded(first.rest, t, depth, count - 1); }
    }
  }

  // ---- key-value entries -------------------------------------------------------------

  datatype Entry = Entry(key: seq<byte>, value: Value)

  predicate BoundedEntry(e: Entry) {
    |e.key| <= MAX_STRING_BYTES && Bounded(e.value, 0)
  }

  function EncodeEntry(e: Entry): seq<byte> {
    EncodeString(e.key) + LittleEndian(TypeOf(e.value), 4) + Encode(e.value)
  }

  function ParseEntry(data: seq<byte>): Parsed<Entry> {
    var key := ParseString(data);
    if key.Bad? then Bad
    else
      var t := ParseUnsigned(key.rest, 4);
      if t.Bad? then Bad
      else
        var value := ParseValue(t.rest, t.value, 0);
        if value.Bad? then Bad else Good(Entry(key.value, value.value), value.rest)
  }

  lemma EntryRoundTrip(e: Entry, suffix: seq<byte>)
    requires BoundedEntry(e)
    ensures ParseEntry(EncodeEntry(e) + suffix) == Good(e, suffix)
  {
    Powers();
    var valued := Encode(e.value) + suffix;
    var typed := LittleEndian(TypeOf(e.value), 4) + valued;
    Regroup4(EncodeString(e.key), LittleEndian(TypeOf(e.value), 4), Encode(e.value), suffix);
    StringBack(e.key, typed);
    UnsignedBack(TypeOf(e.value), 4, valued);
    ValueRoundTrip(e.value, 0, suffix);
  }

  lemma EntryExact(data: seq<byte>)
    requires ParseEntry(data).Good?
    ensures var r := ParseEntry(data); BoundedEntry(r.value) && data == EncodeEntry(r.value) + r.rest
  {
    StringExact(data);
    var key := ParseString(data);
    UnsignedExact(key.rest, 4);
    var t := ParseUnsigned(key.rest, 4);
    ValueExact(t.rest, t.value, 0);
    var value := ParseValue(t.rest, t.value, 0);
    Regroup4(EncodeString(key.value), LittleEndian(t.value, 4), Encode(value.value), value.rest);
  }

  // ---- counted repetitions ------------------------------------------------------------

  function ParseMany<T>(parse: seq<byte> -> Parsed<T>, data: seq<byte>, count: nat): Parsed<seq<T>>
    decreases count
  {
    if count == 0 then Good([], data)
    else
      var first := parse(data);
      if first.Bad? then Bad
      else
        var others := ParseMany(parse, first.rest, count - 1);
        if others.Bad? then Bad else Good([first.value] + others.value, others.rest)
  }

  function EncodeMany<T>(encode: T -> seq<byte>, items: seq<T>): seq<byte> {
    if items == [] then [] else encode(items[0]) + EncodeMany(encode, items[1..])
  }

  /** A repetition is read back item by item. */
  lemma {:induction false} ManyRoundTrip<T>(
    parse: seq<byte> -> Parsed<T>, encode: T -> seq<byte>, items: seq<T>, suffix: seq<byte>)
    requires forall i, s :: 0 <= i < |items| ==> parse(encode(items[i]) + s) == Good(items[i], s)
    ensures ParseMany(parse, EncodeMany(encode, items) + suffix, |items|) == Good(items, suffix)
  {
    if items != [] {
      var rest := EncodeMany(encode, items[1..]) + suffix;
      Regroup(encode(items[0]), EncodeMany(encode, items[1..]), suffix);
      assert parse(encode(items[0]) + rest) == Good(items[0], rest);
      ManyRoundTrip(parse, encode, items[1..], suffix);
      assert items == [items[0]] + items[1..];
    } else {
      assert EncodeMany(encode, items) + suffix == suffix;
    }
  }

  /** A repetition that is read was written item by item. */
  lemma {:induction false} ManyExact<T(!new)>(
    parse: seq<byte> -> Parsed<T>, encode: T -> seq<byte>, ok: T -> bool, data: seq<byte>, count: nat)
    requires forall d :: parse(d).Good? ==> ok(parse(d).value) && d == encode(parse(d).value) + parse(d).rest
    requires ParseMany(parse, data, count).Good?
    ensures var r := ParseMany(parse, data, count);
            && |r.value| == count && data == EncodeMany(encode, r.value) + r.rest
            && forall i :: 0 <= i < count ==> ok(r.value[i])
    decreases count
  {
    if count > 0 {
      var first := parse(data);
      ManyExact(parse, encode, ok, first.rest, count - 1);
      var others := ParseMany(parse, first.rest, count - 1);
      var all := [first.value] + others.value;
      assert all[0] == first.value && all[1..] == others.value;
      Regroup(encode(first.value), EncodeMany(encode, others.value), others.rest);
    }
  }

  /** `done` has been read and `count` items are still to come from `data`. */
  ghost predicate Left<T>(parse: seq<byte> -> Parsed<T>, all: Parsed<seq<T>>, data: seq<byte>, count: nat,
    done: seq<T>) {
    var p := ParseMany(parse, data, count);
    (all.Good? <==> p.Good?) && (all.Good? ==> all.rest == p.rest && all.value == done + p.value)
  }

  lemma LeftStep<T>(parse: seq<byte> -> Parsed<T>, all: Parsed<seq<T>>, data: seq<byte>, count: nat, done: seq<T>)
    requires count > 0 && Left(parse, all, data, count, done)
    ensures all.Good? ==> parse(data).Good? && |done| < |all.value| && all.value[|done|] == parse(data).value
    ensures parse(data).Good? ==> Left(parse, all, parse(data).rest, count - 1, done + [parse(data).value])
  {
  }
}
