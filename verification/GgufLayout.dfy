/** Tensor sizes and the layout check of a GGUF file.

    The source computes in `uint64` with explicit overflow tests. Each contract
    compares it with the same quantity over the mathematical integers.
 */
module GgufLayout {
  import opened Basics
  import opened Ordering

  const MAX_UINT64: nat := 0xFFFF_FFFF_FFFF_FFFF

  // ---- the size of one tensor ------------------------------------------------

  datatype Block = Block(elements: nat, bytes: nat)

  /** Elements and bytes of one block, by ggml tensor type. */
  const BLOCKS: map<nat, Block> := map[
    0 := Block(1, 4), 1 := Block(1, 2), 2 := Block(32, 18), 3 := Block(32, 20), 6 := Block(32, 22),
    7 := Block(32, 24), 8 := Block(32, 34), 9 := Block(32, 36), 10 := Block(256, 84), 11 := Block(256, 110),
    12 := Block(256, 144), 13 := Block(256, 176), 14 := Block(256, 210), 15 := Block(256, 292),
    16 := Block(256, 66), 17 := Block(256, 74), 18 := Block(256, 98), 19 := Block(256, 50), 20 := Block(32, 18),
    21 := Block(256, 110), 22 := Block(256, 82), 23 := Block(256, 136), 24 := Block(1, 1), 25 := Block(1, 2),
    26 := Block(1, 4), 27 := Block(1, 8), 28 := Block(1, 8), 29 := Block(256, 56), 30 := Block(1, 2),
    34 := Block(256, 54), 35 := Block(256, 66), 39 := Block(32, 17), 40 := Block(64, 36), 41 := Block(128, 18),
    42 := Block(64, 18)]

  lemma BlocksPositive(tensorType: nat)
    requires tensorType in BLOCKS
    ensures BLOCKS[tensorType].elements > 0 && BLOCKS[tensorType].bytes > 0
  {
  }

  datatype SizeResult = Bytes(size: nat) | Unsupported | PartialBlock | Overflow

  function Product(s: seq<nat>): nat {
    if s == [] then 1 else Product(s[..|s|-1]) * s[|s|-1]
  }

  /** The byte size of a tensor over the mathematical integers. */
  function ExactSize(block: Block, shape: seq<nat>): nat
    requires shape != [] && block.elements > 0
  {
    (shape[0] / block.elements) * Product(shape[1..]) * block.bytes
  }

  predicate Uint64(n: nat) {
    n <= MAX_UINT64
  }

  lemma DivideTest(a: nat, b: nat)
    requires b > 0
    ensures a > MAX_UINT64 / b <==> a * b > MAX_UINT64
  {
    var q := MAX_UINT64 / b;
    assert q * b <= MAX_UINT64 < (q + 1) * b;
    if a > q { assert a * b >= (q + 1) * b; } else { assert a * b <= q * b; }
  }

  lemma {:induction false} ProductPositive(s: seq<nat>)
    requires forall i :: 0 <= i < |s| ==> s[i] > 0
    ensures Product(s) > 0
  {
    if s != [] { ProductPositive(s[..|s|-1]); }
  }

  lemma {:induction false} ProductGrows(s: seq<nat>, k: nat)
    requires forall i :: 0 <= i < |s| ==> s[i] > 0
    requires k <= |s|
    ensures Product(s[..k]) <= Product(s)
    decreases |s| - k
  {
    if k < |s| {
      ProductGrows(s, k + 1);
      assert s[..k+1][..k] == s[..k];
      assert Product(s[..k+1]) == Product(s[..k]) * s[k];
      assert Product(s[..k]) <= Product(s[..k]) * s[k] by { MulAtLeast(Product(s[..k]), s[k]); }
    } else {
      assert s[..k] == s;
    }
  }

  lemma MulAtLeast(a: nat, b: nat)
    requires b >= 1
    ensures a <= a * b
  {
  }

  lemma MulMonotone(a: nat, b: nat, c: nat)
    requires a <= b
    ensures c * a <= c * b && a * c <= b * c
  {
  }

  /** A partial product that is too large stays too large. */
  lemma EarlyOverflow(first: nat, rest: seq<nat>, k: nat, bytes: nat)
    requires k <= |rest| && (forall i :: 0 <= i < |rest| ==> rest[i] > 0) && bytes > 0
    ensures first * Product(rest[..k]) <= first * Product(rest) * bytes
  {
    ProductGrows(rest, k);
    MulMonotone(Product(rest[..k]), Product(rest), first);
    MulAtLeast(first * Product(rest), bytes);
  }

  /** The tensor has whole blocks of a known type and a size of 64 bits. */
  predicate Sized(tensorType: nat, shape: seq<nat>) {
    && tensorType in BLOCKS && shape != []
    && BLOCKS[tensorType].elements > 0 && shape[0] % BLOCKS[tensorType].elements == 0
    && Uint64(ExactSize(BLOCKS[tensorType], shape))
  }

  function SizeOf(tensorType: nat, shape: seq<nat>): nat {
    if Sized(tensorType, shape) then ExactSize(BLOCKS[tensorType], shape) else 0
  }

  lemma SizePositive(tensorType: nat, shape: seq<nat>)
    requires Sized(tensorType, shape) && forall i :: 0 <= i < |shape| ==> shape[i] > 0
    ensures SizeOf(tensorType, shape) > 0
  {
    BlocksPositive(tensorType);
    var block := BLOCKS[tensorType];
    ProductPositive(shape[1..]);
    WholeBlocks(shape[0], block.elements);
    Positive(shape[0] / block.elements, Product(shape[1..]), block.bytes);
  }

  lemma WholeBlocks(n: nat, elements: nat)
    requires n > 0 && elements > 0 && n % elements == 0
    ensures n / elements > 0
  {
  }

  lemma Positive(a: nat, b: nat, c: nat)
    requires a > 0 && b > 0 && c > 0
    ensures a * b * c > 0
  {
  }

  /** `ggmlTensorSize`: the exact size, and overflow exactly when that size
      does not fit in a uint64. The source has already rejected empty shapes
      and zero dimensions. */
  method TensorSize(tensorType: nat, shape: seq<nat>) returns (r: SizeResult)
    requires shape != [] && forall i :: 0 <= i < |shape| ==> 0 < shape[i] && Uint64(shape[i])
    ensures r.Unsupported? <==> tensorType !in BLOCKS
    ensures tensorType in BLOCKS ==>
              var block := BLOCKS[tensorType];
              && block.elements > 0
              && (r.PartialBlock? <==> shape[0] % block.elements != 0)
              && (shape[0] % block.elements == 0 ==>
                    r == if Uint64(ExactSize(block, shape)) then Bytes(ExactSize(block, shape)) else Overflow)
    ensures r.Bytes? ==> r.size > 0
  {
    if tensorType !in BLOCKS { return Unsupported; }
    BlocksPositive(tensorType);
    r := BlockSize(BLOCKS[tensorType], shape);
  }

  method BlockSize(block: Block, shape: seq<nat>) returns (r: SizeResult)
    requires shape != [] && forall i :: 0 <= i < |shape| ==> 0 < shape[i] && Uint64(shape[i])
    requires block.elements > 0 && block.bytes > 0
    ensures !r.Unsupported? && (r.PartialBlock? <==> shape[0] % block.elements != 0)
    ensures shape[0] % block.elements == 0 ==>
              r == if Uint64(ExactSize(block, shape)) then Bytes(ExactSize(block, shape)) else Overflow
    ensures r.Bytes? ==> r.size > 0
  {
    if shape[0] % block.elements != 0 { return PartialBlock; }
    var first := shape[0] / block.elements;
    var blocks := first;
    var rest := shape[1..];
    var i := 0;
    while i < |rest|
      invariant 0 <= i <= |rest|
      invariant 0 < blocks <= MAX_UINT64 && blocks == first * Product(rest[..i])
    {
      DivideTest(rest[i], blocks);
      assert rest[..i+1][..i] == rest[..i];
      assert first * Product(rest[..i+1]) == blocks * rest[i];
      if rest[i] > MAX_UINT64 / blocks {
        EarlyOverflow(first, rest, i + 1, block.bytes);
        return Overflow;
      }
      blocks := blocks * rest[i];
      i := i + 1;
    }
    assert rest[..i] == rest;
    DivideTest(blocks, block.bytes);
    if blocks > MAX_UINT64 / block.bytes { return Overflow; }
    return Bytes(blocks * block.bytes);
  }

  // ---- checked arithmetic ------------------------------------------------------

  datatype Checked = Value(value: nat) | Overflows

  function AddUint64(left: nat, right: nat): (r: Checked)
    requires Uint64(left) && Uint64(right)
    ensures r == if Uint64(left + right) then Value(left + right) else Overflows
  {
    if right > MAX_UINT64 - left then Overflows else Value(left + right)
  }

  /** How many units of `alignment` it takes to cover `value`. */
  function Units(value: nat, alignment: nat): nat
    requires alignment > 0
  {
    value / alignment + (if value % alignment == 0 then 0 else 1)
  }

  /** The least multiple of `alignment` that is not below `value`. */
  function AlignedUp(value: nat, alignment: nat): nat
    requires alignment > 0
  {
    Units(value, alignment) * alignment
  }

  lemma AlignedUpRange(value: nat, alignment: nat)
    requires alignment > 0
    ensures value <= AlignedUp(value, alignment) < value + alignment
    ensures value % alignment == 0 ==> AlignedUp(value, alignment) == value
    ensures value % alignment != 0 ==> AlignedUp(value, alignment) == value + (alignment - value % alignment)
  {
    var q := value / alignment;
    assert value == q * alignment + value % alignment;
    assert (q + 1) * alignment == q * alignment + alignment;
  }

  lemma AlignedUpLeast(value: nat, alignment: nat, k: nat)
    requires alignment > 0 && value <= k * alignment
    ensures AlignedUp(value, alignment) <= k * alignment
  {
    AlignedUpRange(value, alignment);
    var units := Units(value, alignment);
    assert (k + 1) * alignment == k * alignment + alignment;
    if k < units { MulMonotone(k + 1, units, alignment); } else { MulMonotone(units, k, alignment); }
  }

  function AlignUint64(value: nat, alignment: nat): (r: Checked)
    requires Uint64(value) && 0 < alignment <= MAX_UINT64
    ensures r == if Uint64(AlignedUp(value, alignment)) then Value(AlignedUp(value, alignment)) else Overflows
  {
    AlignedUpRange(value, alignment);
    var remainder := value % alignment;
    if remainder == 0 then Value(value) else AddUint64(value, alignment - remainder)
  }

  // ---- the layout ---------------------------------------------------------------

  datatype Tensor = Tensor(name: seq<byte>, offset: nat, size: nat)

  /** Two non-empty data ranges share no byte. */
  predicate Disjoint(x: Tensor, y: Tensor) {
    x.offset + x.size <= y.offset || y.offset + y.size <= x.offset
  }

  /** The layout a valid file has, over the mathematical integers. */
  predicate ValidLayout(tensors: seq<Tensor>, dataStart: nat, fileSize: nat) {
    && (forall x, y :: x in tensors && y in tensors && x != y ==> Disjoint(x, y))
    && (forall x :: x in tensors ==> dataStart + x.offset + x.size <= fileSize)
  }

  predicate DistinctNames(tensors: seq<Tensor>) {
    forall i, j :: 0 <= i < j < |tensors| ==> tensors[i].name != tensors[j].name
  }

  predicate TensorFits(t: Tensor) {
    Uint64(t.offset) && 0 < t.size && Uint64(t.size)
  }

  predicate OffsetLeq(x: Tensor, y: Tensor) {
    x.offset <= y.offset
  }

  lemma OccursTwice(s: seq<Tensor>, i: nat, j: nat)
    requires i < j < |s| && s[i] == s[j]
    ensures multiset(s)[s[i]] >= 2
  {
    assert s == s[..j] + s[j..];
    assert s[i] in s[..j] && s[j] in s[j..];
    assert multiset(s) == multiset(s[..j]) + multiset(s[j..]);
  }

  lemma SortedTensors(tensors: seq<Tensor>)
    requires DistinctNames(tensors)
    ensures var sorted := Sort(OffsetLeq, tensors);
            && (forall i, j :: 0 <= i < j < |sorted| ==> sorted[i].offset <= sorted[j].offset && sorted[i] != sorted[j])
            && (forall t :: t in sorted <==> t in tensors)
  {
    var sorted := Sort(OffsetLeq, tensors);
    SortSorts(OffsetLeq, tensors, Elements(tensors));
    forall t ensures t in sorted <==> t in tensors {
      assert t in multiset(sorted) <==> t in multiset(tensors);
    }
    forall i, j | 0 <= i < j < |sorted| ensures sorted[i].offset <= sorted[j].offset && sorted[i] != sorted[j] {
      assert OffsetLeq(sorted[i], sorted[j]);
      OccursOnce(tensors, sorted[i]);
      if sorted[i] == sorted[j] { OccursTwice(sorted, i, j); }
    }
  }

  lemma {:induction false} OccursOnce(tensors: seq<Tensor>, t: Tensor)
    requires DistinctNames(tensors)
    ensures multiset(tensors)[t] <= 1
  {
    if tensors != [] {
      var front, last := tensors[..|tensors|-1], tensors[|tensors|-1];
      OccursOnce(front, t);
      assert tensors == front + [last];
      assert t == last ==> t !in front;
    }
  }

  /** The first `n` tensors follow one another inside the file. */
  ghost predicate Swept(sorted: seq<Tensor>, n: nat, dataStart: nat, fileSize: nat)
    requires n <= |sorted|
  {
    && (forall j, k :: 0 <= j < k < n ==> sorted[j].offset + sorted[j].size <= sorted[k].offset)
    && (forall j :: 0 <= j < n ==> dataStart + sorted[j].offset + sorted[j].size <= fileSize)
  }

  lemma SweptStep(sorted: seq<Tensor>, n: nat, dataStart: nat, fileSize: nat)
    requires n < |sorted| && Swept(sorted, n, dataStart, fileSize)
    requires forall t :: t in sorted ==> TensorFits(t)
    requires n > 0 ==> sorted[n-1].offset + sorted[n-1].size <= sorted[n].offset
    requires dataStart + sorted[n].offset + sorted[n].size <= fileSize
    ensures Swept(sorted, n + 1, dataStart, fileSize)
  {
    forall j | 0 <= j < n ensures sorted[j].offset + sorted[j].size <= sorted[n].offset {
      assert sorted[n-1] in sorted;
      assert j == n - 1 || sorted[j].offset + sorted[j].size <= sorted[n-1].offset;
    }
  }

  lemma SweptValid(tensors: seq<Tensor>, sorted: seq<Tensor>, dataStart: nat, fileSize: nat)
    requires Swept(sorted, |sorted|, dataStart, fileSize) && (forall t :: t in sorted <==> t in tensors)
    ensures ValidLayout(tensors, dataStart, fileSize)
  {
    forall x, y | x in tensors && y in tensors && x != y ensures Disjoint(x, y) {
      var j :| 0 <= j < |sorted| && sorted[j] == x;
      var k :| 0 <= k < |sorted| && sorted[k] == y;
      assert j < k || k < j;
    }
    forall x | x in tensors ensures dataStart + x.offset + x.size <= fileSize {
      var j :| 0 <= j < |sorted| && sorted[j] == x;
    }
  }

  /** The sort-and-sweep check accepts exactly the valid layouts. */
  method CheckLayout(tensors: seq<Tensor>, headerBytes: nat, alignment: nat, fileSize: nat) returns (ok: bool)
    requires DistinctNames(tensors) && (forall t :: t in tensors ==> TensorFits(t))
    requires Uint64(headerBytes) && 0 < alignment <= MAX_UINT64 && Uint64(fileSize)
    ensures ok <==> tensors == [] || ValidLayout(tensors, AlignedUp(headerBytes, alignment), fileSize)
  {
    if tensors == [] { return true; }
    assert tensors[0] in tensors;
    var aligned := AlignUint64(headerBytes, alignment);
    if aligned.Overflows? { return false; }
    ok := Sweep(tensors, aligned.value, fileSize);
  }

  method Sweep(tensors: seq<Tensor>, dataStart: nat, fileSize: nat) returns (ok: bool)
    requires DistinctNames(tensors) && (forall t :: t in tensors ==> TensorFits(t))
    requires Uint64(dataStart) && Uint64(fileSize)
    ensures ok <==> ValidLayout(tensors, dataStart, fileSize)
  {
    var sorted := Sort(OffsetLeq, tensors);
    SortedTensors(tensors);
    var previousEnd := 0;
    var i := 0;
    while i < |sorted|
      invariant 0 <= i <= |sorted| && previousEnd <= MAX_UINT64
      invariant previousEnd == if i == 0 then 0 else sorted[i-1].offset + sorted[i-1].size
      invariant Swept(sorted, i, dataStart, fileSize)
    {
      var tensor := sorted[i];
      assert tensor in tensors;
      if tensor.offset < previousEnd {
        assert sorted[i-1] in tensors && !Disjoint(sorted[i-1], tensor);
        return false;
      }
      var end := AddUint64(tensor.offset, tensor.size);
      if end.Overflows? { return false; }
      var absoluteEnd := AddUint64(dataStart, end.value);
      if absoluteEnd.Overflows? || absoluteEnd.value > fileSize { return false; }
      SweptStep(sorted, i, dataStart, fileSize);
      previousEnd := end.value;
      i := i + 1;
    }
    SweptValid(tensors, sorted, dataStart, fileSize);
    return true;
  }
}
