/** What an accepted GGUF file looks like, byte by byte and number by number. */
module GgufPlacement {
  import opened Basics
  import opened GgufValue
  import opened GgufLayout
  import opened GgufFile

  // ---- sizes ------------------------------------------------------------------------------

  lemma Reassociate(a: nat, b: nat, c: nat)
    ensures a * b * c == a * (b * c)
  {
  }

  lemma {:induction false} ProductFirst(s: seq<nat>)
    requires s != []
    ensures Product(s) == s[0] * Product(s[1..])
    decreases |s|
  {
    var front, last := s[..|s|-1], s[|s|-1];
    if |s| == 1 {
      assert s[1..] == [] && front == [];
    } else {
      ProductFirst(front);
      assert front[1..] == s[1..][..|s|-2] && front[0] == s[0] && s[1..][|s|-2] == last;
      Reassociate(s[0], Product(front[1..]), last);
    }
  }

  lemma ScaledBlocks(first: nat, rest: nat, elements: nat, bytes: nat)
    requires elements > 0 && first % elements == 0
    ensures (first / elements) * rest * bytes * elements == first * rest * bytes
  {
    var q := first / elements;
    assert first == q * elements;
    calc {
      q * rest * bytes * elements;
      == { Reassociate(q, rest, bytes); Reassociate(q, rest * bytes, elements); }
      q * (rest * bytes * elements);
      == { assert rest * bytes * elements == elements * (rest * bytes); }
      q * (elements * (rest * bytes));
      == { Reassociate(q, elements, rest * bytes); }
      first * (rest * bytes);
      == { Reassociate(first, rest, bytes); }
      first * rest * bytes;
    }
  }

  /** A tensor takes the bytes of one block for every block of its elements. */
  lemma SizeExact(tensorType: nat, shape: seq<nat>)
    requires Sized(tensorType, shape)
    ensures SizeOf(tensorType, shape) * BLOCKS[tensorType].elements == Product(shape) * BLOCKS[tensorType].bytes
  {
    ProductFirst(shape);
    ScaledBlocks(shape[0], Product(shape[1..]), BLOCKS[tensorType].elements, BLOCKS[tensorType].bytes);
  }

  // ---- places -----------------------------------------------------------------------------

  /** The position lies in the data of the tensor. */
  predicate Holds(start: nat, t: TensorInfo, p: nat) {
    start + t.offset <= p < start + t.offset + SizeOf(t.tensorType, t.shape)
  }

  /** A well-described tensor that begins on the alignment, behind the header and
      inside the file, and takes up as many bytes as its elements need. */
  predicate Placed(t: TensorInfo, start: nat, alignment: nat, header: nat, file: nat, utf8: Utf8) {
    && 1 <= |t.name| <= 64 && utf8(t.name)
    && 1 <= |t.shape| && (forall i :: 0 <= i < |t.shape| ==> t.shape[i] >= 1)
    && alignment > 0 && (start + t.offset) % alignment == 0
    && header <= start + t.offset < start + t.offset + SizeOf(t.tensorType, t.shape) <= file
    && t.tensorType in BLOCKS
    && SizeOf(t.tensorType, t.shape) * BLOCKS[t.tensorType].elements == Product(t.shape) * BLOCKS[t.tensorType].bytes
  }

  lemma AlignedSum(a: nat, b: nat, alignment: nat)
    requires alignment > 0 && b % alignment == 0
    ensures (a * alignment + b) % alignment == 0
  {
    var q := b / alignment;
    assert b == q * alignment;
    assert a * alignment + b == (a + q) * alignment;
    Multiple(a + q, alignment);
  }

  lemma NoRemainder(alignment: nat, q: nat, k: nat, r: nat)
    requires r < alignment && alignment * q + r == alignment * k
    ensures r == 0
  {
    MulMonotone(if q < k then q + 1 else k, if q < k then k else q, alignment);
    assert alignment * (q + 1) == alignment * q + alignment;
  }

  lemma Multiple(k: nat, alignment: nat)
    requires alignment > 0
    ensures (k * alignment) % alignment == 0
  {
    var n := k * alignment;
    assert n == alignment * (n / alignment) + n % alignment;
    NoRemainder(alignment, n / alignment, k, n % alignment);
  }

  lemma TensorPlaced(infos: seq<TensorInfo>, alignment: nat, header: nat, file: nat, utf8: Utf8, i: nat)
    requires TensorsOk(infos, alignment, header, file, utf8) && i < |infos|
    ensures Placed(infos[i], AlignedUp(header, alignment), alignment, header, file, utf8)
  {
    var t := infos[i];
    assert InfoOk(t, alignment, utf8);
    SizeExact(t.tensorType, t.shape);
    SizePositive(t.tensorType, t.shape);
    AlignedUpRange(header, alignment);
    AlignedSum(Units(header, alignment), t.offset, alignment);
    assert Made(TensorOf, infos)[i] == TensorOf(t) && TensorOf(t) in Made(TensorOf, infos);
  }

  lemma TensorsApart(infos: seq<TensorInfo>, alignment: nat, header: nat, file: nat, utf8: Utf8, i: nat, j: nat, p: nat)
    requires TensorsOk(infos, alignment, header, file, utf8) && i < j < |infos|
    ensures infos[i].name != infos[j].name
    ensures !(Holds(AlignedUp(header, alignment), infos[i], p) && Holds(AlignedUp(header, alignment), infos[j], p))
  {
    var made := Made(TensorOf, infos);
    assert made[i] == TensorOf(infos[i]) && made[j] == TensorOf(infos[j]);
    assert made[i] in made && made[j] in made && made[i] != made[j];
    assert Disjoint(made[i], made[j]);
  }

  /** Of an accepted file: the data begins at the first multiple of the alignment
      behind the header, every tensor lies behind that and inside the file, on
      the alignment and as large as its elements demand, no two have one name,
      and no byte of the file belongs to two of them. */
  lemma AcceptedPlaces(h: Header, data: seq<byte>, utf8: Utf8)
    requires IsHeaderOf(h, data, utf8)
    ensures var alignment, header := Recorded(h.entries).alignment, |EncodeHeader(h)|;
            && 0 < alignment <= 0x10_0000 && alignment % 8 == 0
            && var start := AlignedUp(header, alignment);
               && header <= start < header + alignment && start % alignment == 0
               && (forall i :: 0 <= i < |h.infos| ==> Placed(h.infos[i], start, alignment, header, |data|, utf8))
               && (forall i, j, p: nat :: 0 <= i < j < |h.infos| ==>
                     h.infos[i].name != h.infos[j].name
                     && !(Holds(start, h.infos[i], p) && Holds(start, h.infos[j], p)))
  {
    var alignment, header := Recorded(h.entries).alignment, |EncodeHeader(h)|;
    AlignedUpRange(header, alignment);
    Multiple(Units(header, alignment), alignment);
    forall i | 0 <= i < |h.infos|
      ensures Placed(h.infos[i], AlignedUp(header, alignment), alignment, header, |data|, utf8)
    {
      TensorPlaced(h.infos, alignment, header, |data|, utf8, i);
    }
    forall i, j, p: nat | 0 <= i < j < |h.infos|
      ensures h.infos[i].name != h.infos[j].name
      ensures var start := AlignedUp(header, alignment);
              !(Holds(start, h.infos[i], p) && Holds(start, h.infos[j], p))
    {
      TensorsApart(h.infos, alignment, header, |data|, utf8, i, j, p);
    }
  }

  // ---- numbers ----------------------------------------------------------------------------

  /** The entry gives the key this 32-bit number, signed or not. */
  predicate Gives(e: Entry, key: seq<byte>, n: nat) {
    e.key == key && n <= 0xFFFF_FFFF && ((e.value.UInt? && e.value.n == n) || (e.value.SInt? && e.value.v == n))
  }

  predicate GivesAny(e: Entry, key: seq<byte>) {
    e.key == key && ((e.value.UInt? && e.value.n <= 0xFFFF_FFFF) || (e.value.SInt? && 0 <= e.value.v <= 0xFFFF_FFFF))
  }

  ghost predicate LastGives(entries: seq<Entry>, key: seq<byte>, n: nat, i: nat) {
    && i < |entries| && Gives(entries[i], key, n)
    && forall j :: i < j < |entries| ==> !GivesAny(entries[j], key)
  }

  /** The number of a key is the last one an entry gives it; entries that give it
      none are passed over. */
  lemma {:induction false} LastNumberExact(entries: seq<Entry>, key: seq<byte>)
    ensures LastNumber(entries, key).None? ==> forall i :: 0 <= i < |entries| ==> !GivesAny(entries[i], key)
    ensures LastNumber(entries, key).Some? ==>
              exists i: nat :: LastGives(entries, key, LastNumber(entries, key).value, i)
    decreases |entries|
  {
    if entries != [] {
      var front, last := entries[..|entries|-1], entries[|entries|-1];
      if GivesAny(last, key) {
        assert Gives(last, key, LastNumber(entries, key).value);
        assert LastGives(entries, key, LastNumber(entries, key).value, |entries| - 1);
      } else {
        LastNumberExact(front, key);
        assert LastNumber(entries, key) == LastNumber(front, key);
        assert forall j :: 0 <= j < |front| ==> entries[j] == front[j];
        if LastNumber(front, key).Some? {
          var n := LastNumber(front, key).value;
          var i: nat :| LastGives(front, key, n, i);
          assert LastGives(entries, key, n, i);
        }
      }
    }
  }
}
