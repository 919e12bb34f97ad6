/**
 The compact table of debug-info offsets (libdexfile/dex/compact_offset_table.cc): blocks of sixteen
 offsets, each a bit mask and the differences of the offsets that are not zero, and a table of where
 the blocks start, in the byte order of a little-endian host.
 */
module CompactOffsetTable {
  import opened Arithmetic
  import opened Bytes
  import opened Leb128
  import opened DexStream
  import opened Wrappers

  const ELEMENTS_PER_INDEX := 16

  // --- Bit masks ------------------------------------------------------------------------------------

  /** Bit `i` is set when offset `i` is not zero. */
  function Mask(block: seq<nat>): nat {
    if block == [] then 0 else (if block[0] != 0 then 1 else 0) + 2 * Mask(block[1..])
  }

  predicate BitSet(mask: nat, i: nat) {
    if i == 0 then mask % 2 == 1 else BitSet(mask / 2, i - 1)
  }

  /** How many of the lowest `n` bits are set. */
  function PopCount(mask: nat, n: nat): nat {
    if n == 0 then 0 else mask % 2 + PopCount(mask / 2, n - 1)
  }

  function NonZeros(block: seq<nat>, n: nat): nat
    requires n <= |block|
  {
    if n == 0 then 0 else (if block[0] != 0 then 1 else 0) + NonZeros(block[1..], n - 1)
  }

  lemma {:induction false} MaskBit(block: seq<nat>, i: nat)
    requires i < |block|
    ensures BitSet(Mask(block), i) <==> block[i] != 0
    ensures PopCount(Mask(block), i + 1) == NonZeros(block, i + 1)
    decreases i
  {
    assert Mask(block) / 2 == Mask(block[1..]);
    if i > 0 {
      MaskBit(block[1..], i - 1);
    } else {
      assert PopCount(Mask(block) / 2, 0) == 0 && NonZeros(block[1..], 0) == 0;
    }
  }

  function Pow2(n: nat): (p: nat)
    ensures p >= 1
  {
    if n == 0 then 1 else 2 * Pow2(n - 1)
  }

  lemma {:induction false} MaskAppend(block: seq<nat>, x: nat)
    ensures Mask(block + [x]) == Mask(block) + (if x != 0 then Pow2(|block|) else 0)
  {
    if block == [] {
      assert [x][1..] == [] && block + [x] == [x];
    } else {
      assert (block + [x])[1..] == block[1..] + [x];
      MaskAppend(block[1..], x);
    }
  }

  lemma {:induction false} MaskBound(block: seq<nat>)
    ensures Mask(block) < Pow2(|block|)
  {
    if block != [] {
      MaskBound(block[1..]);
    }
  }

  // --- Blocks ---------------------------------------------------------------------------------------

  predicate Words(s: seq<nat>) {
    forall i :: 0 <= i < |s| ==> s[i] < TWO_32
  }

  /** The offsets that are not zero, each as its difference from the one before, modulo 2^32. */
  function Deltas(prev: nat, block: seq<nat>): seq<Byte>
    decreases |block|
  {
    if block == [] then []
    else if block[0] == 0 then Deltas(prev, block[1..])
    else EncodeUnsigned((block[0] - prev) % TWO_32) + Deltas(block[0], block[1..])
  }

  function MaskBytes(mask: nat): seq<Byte> {
    [mask / 0x100 % 0x100, mask % 0x100]
  }

  function BlockBytes(base: nat, block: seq<nat>): seq<Byte> {
    MaskBytes(Mask(block)) + Deltas(base, block)
  }

  /** The sum of the next `count` numbers, from `current`. */
  function SumLebs(s: seq<Byte>, count: nat, current: nat): Option<nat>
    decreases count
  {
    if count == 0 then Some(current)
    else
      var r := DecodeUnsigned(s);
      if r.None? then None else SumLebs(s[r.value.size..], count - 1, (current + r.value.value) % TWO_32)
  }

  /** Offset `bit` of the block that starts here. */
  function BlockLookUp(s: seq<Byte>, base: nat, bit: nat): Option<nat> {
    if |s| < 2 then None
    else
      var mask := s[0] as int * 0x100 + s[1] as int;
      if !BitSet(mask, bit) then Some(0) else SumLebs(s[2..], PopCount(mask, bit + 1), base)
  }

  lemma DeltaBack(prev: nat, x: nat)
    requires prev < TWO_32 && x < TWO_32
    ensures (prev + (x - prev) % TWO_32) % TWO_32 == x
  {
  }

  lemma {:induction false} SumFinds(block: seq<nat>, prev: nat, i: nat, rest: seq<Byte>)
    requires Words(block) && prev < TWO_32 && i < |block| && block[i] != 0
    ensures SumLebs(Deltas(prev, block) + rest, NonZeros(block, i + 1), prev) == Some(block[i])
    decreases |block|
  {
    var x, tail := block[0], block[1..];
    if x == 0 {
      SumFinds(tail, prev, i - 1, rest);
    } else {
      SumFirst(block, prev, i, rest);
      if i > 0 {
        SumFinds(tail, x, i - 1, rest);
      }
    }
  }

  lemma SumFirst(block: seq<nat>, prev: nat, i: nat, rest: seq<Byte>)
    requires Words(block) && prev < TWO_32 && i < |block| && block[0] != 0
    ensures SumLebs(Deltas(prev, block) + rest, NonZeros(block, i + 1), prev) ==
            SumLebs(Deltas(block[0], block[1..]) + rest, NonZeros(block[1..], i), block[0])
  {
    hide *;
    var x, tail := block[0], block[1..];
    var d, more := EncodeUnsigned((x - prev) % TWO_32), Deltas(x, tail) + rest;
    FirstDelta(block, prev, i);
    Regroup(d, Deltas(x, tail), rest);
    DecodeDelta(x, prev, more);
    DeltaBack(prev, x);
    SumLebsStep(d + more, NonZeros(block, i + 1), prev);
    Afterwards(d, more);
  }

  lemma FirstDelta(block: seq<nat>, prev: nat, i: nat)
    requires Words(block) && prev < TWO_32 && i < |block| && block[0] != 0
    ensures block[0] < TWO_32 && Words(block[1..]) && NonZeros(block, i + 1) == 1 + NonZeros(block[1..], i)
    ensures Deltas(prev, block) == EncodeUnsigned((block[0] - prev) % TWO_32) + Deltas(block[0], block[1..])
  {
  }

  lemma SumLebsStep(s: seq<Byte>, count: nat, current: nat)
    requires count > 0 && DecodeUnsigned(s).Some?
    ensures var r := DecodeUnsigned(s).value;
            SumLebs(s, count, current) == SumLebs(s[r.size..], count - 1, (current + r.value) % TWO_32)
  {
  }

  lemma DecodeDelta(x: nat, prev: nat, rest: seq<Byte>)
    requires prev < TWO_32 && x < TWO_32
    ensures var delta := (x - prev) % TWO_32;
            DecodeUnsigned(EncodeUnsigned(delta) + rest) == Some(Read(delta, |EncodeUnsigned(delta)|))
  {
    hide DecodeUnsigned, EncodeUnsigned;
    var delta := (x - prev) % TWO_32;
    EncodeUnsignedIsUleb(delta);
    DecodeUnsignedInverts(EncodeUnsigned(delta), delta, rest);
  }

  /** The block gives back each of its offsets, whatever follows. */
  lemma BlockFinds(block: seq<nat>, base: nat, bit: nat, rest: seq<Byte>)
    requires |block| <= ELEMENTS_PER_INDEX && Words(block) && base < TWO_32 && bit < |block|
    ensures BlockLookUp(BlockBytes(base, block) + rest, base, bit) == Some(block[bit])
  {
    hide BitSet, PopCount, Deltas, NonZeros, Words, SumLebs;
    var s := BlockBytes(base, block) + rest;
    MaskFits(block);
    assert s[2..] == Deltas(base, block) + rest;
    MaskBit(block, bit);
    if block[bit] != 0 {
      SumFinds(block, base, bit, rest);
    }
  }

  lemma MaskFits(block: seq<nat>)
    requires |block| <= ELEMENTS_PER_INDEX
    ensures Mask(block) < 0x1_0000
    ensures Mask(block) / 0x100 % 0x100 * 0x100 + Mask(block) % 0x100 == Mask(block)
  {
    hide Mask, Pow2;
    MaskBound(block);
    Pow2Bound(|block|);
  }

  lemma {:induction false} Pow2Bound(n: nat)
    requires n <= 16
    ensures Pow2(n) <= 0x1_0000
  {
    Pow2Monotone(n, 16);
    assert Pow2(4) == 16;
    assert Pow2(8) == 256;
    assert Pow2(12) == 4096;
    assert Pow2(16) == 0x1_0000;
  }

  lemma {:induction false} Pow2Monotone(m: nat, n: nat)
    requires m <= n
    ensures Pow2(m) <= Pow2(n)
    decreases n
  {
    if m < n {
      Pow2Monotone(m, n - 1);
    }
  }

  // --- The whole table ------------------------------------------------------------------------------

  function BlockCount(n: nat): nat {
    (n + 15) / 16
  }

  function Chunk(offsets: seq<nat>, k: nat): (block: seq<nat>)
    requires k < BlockCount(|offsets|)
    ensures 1 <= |block| <= ELEMENTS_PER_INDEX
  {
    if 16 * k + 16 <= |offsets| then offsets[16 * k..16 * k + 16] else offsets[16 * k..]
  }

  /** The first `k` blocks. */
  function Blocks(offsets: seq<nat>, base: nat, k: nat): seq<Byte>
    requires k <= BlockCount(|offsets|)
  {
    if k == 0 then [] else Blocks(offsets, base, k - 1) + BlockBytes(base, Chunk(offsets, k - 1))
  }

  /** Where the first `k` blocks start. */
  function Starts(offsets: seq<nat>, base: nat, k: nat): (s: seq<Byte>)
    requires k <= BlockCount(|offsets|)
    ensures |s| == 4 * k
  {
    if k == 0 then [] else Starts(offsets, base, k - 1) + Le32(|Blocks(offsets, base, k - 1)| % TWO_32)
  }

  /** The smallest offset that is not zero. */
  function MinOffset(offsets: seq<nat>, n: nat): (m: nat)
    requires n <= |offsets|
    ensures m < TWO_32
  {
    if n == 0 then TWO_32 - 1
    else
      var m := MinOffset(offsets, n - 1);
      if offsets[n - 1] != 0 && offsets[n - 1] < m then offsets[n - 1] else m
  }

  function Padding(n: nat): seq<Byte> {
    Zeros(RoundUp(n, 4) - n)
  }

  function TableOffset(offsets: seq<nat>): nat {
    RoundUp(|AllBlocks(offsets)|, 4)
  }

  function AllBlocks(offsets: seq<nat>): seq<Byte> {
    Blocks(offsets, MinOffset(offsets, |offsets|), BlockCount(|offsets|))
  }

  function TableData(offsets: seq<nat>): seq<Byte> {
    AllBlocks(offsets) + Padding(|AllBlocks(offsets)|) +
    Starts(offsets, MinOffset(offsets, |offsets|), BlockCount(|offsets|))
  }

  /** The accessor. */
  function LookUp(data: seq<Byte>, base: nat, tableOffset: nat, index: nat): Option<nat> {
    var at := tableOffset + 4 * (index / 16);
    if at + 4 > |data| then None
    else
      var start := FromLe32(data[at..at + 4]);
      if start > |data| then None else BlockLookUp(data[start..], base, index % 16)
  }

  lemma {:induction false} DeltasBound(prev: nat, block: seq<nat>)
    requires Words(block) && prev < TWO_32
    ensures |Deltas(prev, block)| <= 5 * |block|
    decreases |block|
  {
    if block != [] {
      if block[0] == 0 {
        DeltasBound(prev, block[1..]);
      } else {
        EncodeUnsignedIsUleb((block[0] - prev) % TWO_32);
        DeltasBound(block[0], block[1..]);
      }
    }
  }

  lemma BlockBound(base: nat, block: seq<nat>)
    requires Words(block) && base < TWO_32 && |block| <= ELEMENTS_PER_INDEX
    ensures |BlockBytes(base, block)| <= 82
  {
    hide Deltas, Mask, Words;
    DeltasBound(base, block);
  }

  lemma ChunkWords(offsets: seq<nat>, k: nat)
    requires Words(offsets) && k < BlockCount(|offsets|)
    ensures Words(Chunk(offsets, k))
  {
  }

  lemma {:induction false} BlocksBound(offsets: seq<nat>, base: nat, k: nat)
    requires Words(offsets) && base < TWO_32 && k <= BlockCount(|offsets|)
    ensures |Blocks(offsets, base, k)| <= 82 * k
    decreases k
  {
    hide *;
    BlocksStep(offsets, base, k);
    if k > 0 {
      BlocksBound(offsets, base, k - 1);
      ChunkWords(offsets, k - 1);
      BlockBound(base, Chunk(offsets, k - 1));
    }
  }

  lemma {:induction false} BlockWithin(offsets: seq<nat>, base: nat, k: nat, n: nat) returns (rest: seq<Byte>)
    requires k < n <= BlockCount(|offsets|)
    ensures Blocks(offsets, base, n) == Blocks(offsets, base, k) + (BlockBytes(base, Chunk(offsets, k)) + rest)
    decreases n
  {
    hide BlockBytes, Chunk;
    if k == n - 1 {
      rest := [];
      assert BlockBytes(base, Chunk(offsets, k)) + [] == BlockBytes(base, Chunk(offsets, k));
    } else {
      var before := BlockWithin(offsets, base, k, n - 1);
      rest := before + BlockBytes(base, Chunk(offsets, n - 1));
    }
  }

  lemma {:induction false} StartWithin(offsets: seq<nat>, base: nat, k: nat, n: nat)
    requires k < n <= BlockCount(|offsets|)
    ensures Starts(offsets, base, n)[4 * k..4 * k + 4] == Le32(|Blocks(offsets, base, k)| % TWO_32)
    decreases n
  {
    hide Blocks, Le32;
    var front := Starts(offsets, base, n - 1);
    if k < n - 1 {
      StartWithin(offsets, base, k, n - 1);
      assert Starts(offsets, base, n)[4 * k..4 * k + 4] == front[4 * k..4 * k + 4];
    }
  }

  /** The table gives back every offset. */
  lemma TableRoundTrip(offsets: seq<nat>, index: nat)
    requires Words(offsets) && |offsets| <= 0x2000_0000 && index < |offsets|
    ensures LookUp(TableData(offsets), MinOffset(offsets, |offsets|), TableOffset(offsets), index) == Some(offsets[index])
  {
    hide *;
    ChunkAt(offsets, index);
    var base, k := MinOffset(offsets, |offsets|), index / 16;
    StartInData(offsets, k);
    var tail := BlockTail(offsets, k);
    BlockFinds(Chunk(offsets, k), base, index % 16, tail);
    LookUpStep(TableData(offsets), base, TableOffset(offsets), index, |Blocks(offsets, base, k)|);
  }

  lemma LookUpStep(data: seq<Byte>, base: nat, tableOffset: nat, index: nat, start: nat)
    requires var at := tableOffset + 4 * (index / 16); at + 4 <= |data| && FromLe32(data[at..at + 4]) == start
    requires start <= |data|
    ensures LookUp(data, base, tableOffset, index) == BlockLookUp(data[start..], base, index % 16)
  {
    hide FromLe32, BlockLookUp;
  }

  lemma StartInData(offsets: seq<nat>, k: nat)
    requires Words(offsets) && |offsets| <= 0x2000_0000 && k < BlockCount(|offsets|)
    ensures var at := TableOffset(offsets) + 4 * k;
            at + 4 <= |TableData(offsets)| &&
            FromLe32(TableData(offsets)[at..at + 4]) == |Blocks(offsets, MinOffset(offsets, |offsets|), k)|
  {
    hide Blocks, Starts, MinOffset, Le32, FromLe32, RoundUp, AllBlocks, Words;
    var base, n := MinOffset(offsets, |offsets|), BlockCount(|offsets|);
    var front, starts := AllBlocks(offsets) + Padding(|AllBlocks(offsets)|), Starts(offsets, base, n);
    var at := TableOffset(offsets) + 4 * k;
    assert TableData(offsets) == front + starts && |front| == TableOffset(offsets);
    assert (front + starts)[at..at + 4] == starts[4 * k..4 * k + 4];
    StartWithin(offsets, base, k, n);
    BlocksBound(offsets, base, k);
    Le32RoundTrip(|Blocks(offsets, base, k)|);
  }

  lemma ChunkAt(offsets: seq<nat>, index: nat)
    requires index < |offsets| && Words(offsets)
    ensures index / 16 < BlockCount(|offsets|)
    ensures var block := Chunk(offsets, index / 16);
            index % 16 < |block| && block[index % 16] == offsets[index] && Words(block)
  {
  }

  lemma BlockTail(offsets: seq<nat>, k: nat) returns (tail: seq<Byte>)
    requires k < BlockCount(|offsets|)
    ensures var base := MinOffset(offsets, |offsets|);
            |Blocks(offsets, base, k)| <= |TableData(offsets)| &&
            TableData(offsets)[|Blocks(offsets, base, k)|..] == BlockBytes(base, Chunk(offsets, k)) + tail
  {
    hide Blocks, BlockBytes, Starts, Padding;
    var base := MinOffset(offsets, |offsets|);
    var rest := BlockWithin(offsets, base, k, BlockCount(|offsets|));
    var b := BlockBytes(base, Chunk(offsets, k));
    tail := rest + Padding(|AllBlocks(offsets)|) + Starts(offsets, base, BlockCount(|offsets|));
    assert TableData(offsets) == Blocks(offsets, base, k) + (b + tail);
  }

  // --- Building and reading it ----------------------------------------------------------------------

  method Build(offsets: seq<nat>) returns (data: seq<Byte>, minOffset: nat, tableOffset: nat)
    requires Words(offsets)
    ensures data == TableData(offsets)
    ensures minOffset == MinOffset(offsets, |offsets|) && tableOffset == TableOffset(offsets)
  {
    hide Blocks, Starts, BlockBytes, Le32, RoundUp, Words;
    minOffset := SmallestOffset(offsets);
    var blockStart, k := 0, 0;
    var table := [];
    data := [];
    BlocksStep(offsets, minOffset, 0);
    while blockStart < |offsets|
      invariant 0 <= k <= BlockCount(|offsets|)
      invariant blockStart == if 16 * k <= |offsets| then 16 * k else |offsets|
      invariant blockStart == |offsets| ==> k == BlockCount(|offsets|)
      invariant data == Blocks(offsets, minOffset, k) && table == Starts(offsets, minOffset, k)
    {
      BlocksStep(offsets, minOffset, k + 1);
      table := table + Le32(|data| % TWO_32);
      var blockSize := if |offsets| - blockStart < ELEMENTS_PER_INDEX then |offsets| - blockStart else ELEMENTS_PER_INDEX;
      var block := offsets[blockStart..blockStart + blockSize];
      ChunkIs(offsets, k, blockStart, blockSize);
      var bytes := BuildBlock(block, minOffset);
      data := data + bytes;
      blockStart, k := blockStart + blockSize, k + 1;
    }
    tableOffset := RoundUp(|data|, 4);
    data := data + Padding(|data|) + table;
  }

  lemma ChunkIs(offsets: seq<nat>, k: nat, start: nat, size: nat)
    requires k < BlockCount(|offsets|) && start == 16 * k < |offsets| && Words(offsets)
    requires size == if |offsets| - start < ELEMENTS_PER_INDEX then |offsets| - start else ELEMENTS_PER_INDEX
    ensures offsets[start..start + size] == Chunk(offsets, k) && Words(Chunk(offsets, k))
  {
  }

  lemma BlocksStep(offsets: seq<nat>, base: nat, k: nat)
    requires k <= BlockCount(|offsets|)
    ensures k == 0 ==> Blocks(offsets, base, k) == [] && Starts(offsets, base, k) == []
    ensures k > 0 ==>
              && Blocks(offsets, base, k) == Blocks(offsets, base, k - 1) + BlockBytes(base, Chunk(offsets, k - 1))
              && Starts(offsets, base, k) == Starts(offsets, base, k - 1) + Le32(|Blocks(offsets, base, k - 1)| % TWO_32)
  {
  }

  method SmallestOffset(offsets: seq<nat>) returns (m: nat)
    requires Words(offsets)
    ensures m == MinOffset(offsets, |offsets|)
  {
    m := TWO_32 - 1;
    for i := 0 to |offsets|
      invariant m == MinOffset(offsets, i)
    {
      if offsets[i] != 0 {
        m := if offsets[i] < m then offsets[i] else m;
      }
    }
  }

  method BuildBlock(block: seq<nat>, base: nat) returns (bytes: seq<Byte>)
    requires |block| <= ELEMENTS_PER_INDEX && Words(block) && base < TWO_32
    ensures bytes == BlockBytes(base, block)
  {
    var mask := 0;
    for i := 0 to |block|
      invariant mask == Mask(block[..i])
    {
      assert block[..i + 1] == block[..i] + [block[i]];
      MaskAppend(block[..i], block[i]);
      if block[i] != 0 {
        mask := mask + Pow2(i);
      }
    }
    assert block[..|block|] == block;
    hide Mask, EncodeUnsigned;
    bytes := MaskBytes(mask);
    var prev := base;
    assert block[0..] == block;
    for i := 0 to |block|
      invariant 0 <= prev < TWO_32
      invariant bytes + Deltas(prev, block[i..]) == BlockBytes(base, block)
    {
      assert block[i..][1..] == block[i + 1..];
      if block[i] != 0 {
        var delta := EncodeUnsignedLeb128((block[i] - prev) % TWO_32);
        assert bytes + (delta + Deltas(block[i], block[i + 1..])) == (bytes + delta) + Deltas(block[i], block[i + 1..]);
        bytes := bytes + delta;
        prev := block[i];
      }
    }
  }

  lemma Halve(x: nat, p: nat)
    requires p >= 1
    ensures x / (2 * p) == x / 2 / p && x % (2 * p) == 2 * (x / 2 % p) + x % 2
  {
    var a, b := x / 2, x % 2;
    var c, d := a / p, a % p;
    assert a == c * p + d;
    assert c * (2 * p) == 2 * (c * p);
    ModUnique(x, 2 * p, c, 2 * d + b);
    var c' := x / (2 * p);
    assert (c' - c) * (2 * p) == 0;
    if c' > c {
      MulAtLeast(1, c' - c, 2 * p);
    } else if c' < c {
      MulAtLeast(c' - c, -1, 2 * p);
    }
  }

  /** A bit is found by shifting it down. */
  lemma {:induction false} BitTest(mask: nat, i: nat)
    ensures BitSet(mask, i) <==> mask / Pow2(i) % 2 == 1
    decreases i
  {
    if i > 0 {
      BitTest(mask / 2, i - 1);
      Halve(mask, Pow2(i - 1));
    }
  }

  lemma {:induction false} CountTrimmed(x: nat, n: nat)
    ensures PopCount(x % Pow2(n), n) == PopCount(x, n)
    decreases n
  {
    if n > 0 {
      CountTrimmed(x / 2, n - 1);
      Halve(x, Pow2(n - 1));
      assert x % Pow2(n) / 2 == x / 2 % Pow2(n - 1);
    }
  }

  lemma {:induction false} CountShifted(x: nat, n: nat, s: nat)
    ensures PopCount(x * Pow2(s), n + s) == PopCount(x, n)
    decreases s
  {
    hide *;
    Doubled(x, s);
    if s > 0 {
      CountShifted(x, n, s - 1);
      CountDoubled(x * Pow2(s - 1), n + s - 1);
    }
  }

  lemma Doubled(x: nat, s: nat)
    ensures s == 0 ==> x * Pow2(s) == x
    ensures s > 0 ==> x * Pow2(s) == 2 * (x * Pow2(s - 1)) && x * Pow2(s - 1) >= 0
  {
    if s > 0 {
      MulAtLeast(0, x, Pow2(s - 1));
    }
  }

  lemma CountDoubled(x: nat, n: nat)
    ensures PopCount(2 * x, n + 1) == PopCount(x, n)
  {
  }

  /** Shifting the bits above `bit` out of a 64-bit word leaves those up to it to be counted. */
  lemma BitsUpTo(mask: nat, bit: nat)
    requires bit < 64
    ensures PopCount(mask * Pow2(63 - bit) % Pow2(64), 64) == PopCount(mask, bit + 1)
  {
    hide Pow2, PopCount;
    CountTrimmed(mask * Pow2(63 - bit), 64);
    CountShifted(mask, bit + 1, 63 - bit);
  }

  /** The accessor as it runs, on a table built from offsets that it does not see. */
  method GetOffset(data: seq<Byte>, base: nat, tableOffset: nat, index: nat) returns (offset: nat)
    requires LookUp(data, base, tableOffset, index).Some?
    ensures LookUp(data, base, tableOffset, index) == Some(offset)
  {
    hide BitSet, PopCount, Pow2, DecodeUnsigned, FromLe32;
    var at := tableOffset + 4 * (index / 16);
    var start := FromLe32(data[at..at + 4]);
    var block := start;
    var mask := data[block] as int * 0x100 + data[block + 1] as int;
    block := block + 2;
    assert data[start..][2..] == data[block..];
    var bit := index % 16;
    BitTest(mask, bit);
    if mask / Pow2(bit) % 2 == 0 {
      return 0;
    }
    BitsUpTo(mask, bit);
    var count := PopCount(mask * Pow2(63 - bit) % Pow2(64), 64);
    ghost var wanted := SumLebs(data[block..], count, base);
    var current := base;
    while count > 0
      invariant block <= |data| && current >= 0
      invariant SumLebs(data[block..], count, current) == wanted
    {
      var delta;
      ghost var s := data[block..];
      delta, block := DecodeUnsignedLeb128(data, block);
      assert s[|s| - |data[block..]|..] == data[block..];
      current := (current + delta) % TWO_32;
      count := count - 1;
    }
    return current;
  }
}
