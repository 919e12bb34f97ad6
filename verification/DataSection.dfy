/**
 The items of the data section: writing them, deduplicating string data and debug info against what
 is already there, rolling back, and going on with the next dex file of the container.
 */
module DataSection {
  import opened Bytes
  import opened Leb128
  import opened DexStream

  // --- The table of the deduplicator ----------------------------------------------------------------

  /** A range of the section, the hash of its bytes when it was entered, and the item's offset. */
  datatype Entry = Entry(start: nat, length: nat, hash: int, itemOffset: nat)

  ghost predicate InBounds(es: seq<Entry>, limit: nat) {
    forall k :: 0 <= k < |es| ==> es[k].start + es[k].length <= limit
  }

  /** The bytes that an entry's range holds now. */
  function Range(e: Entry, d: seq<Byte>): seq<Byte>
    requires e.start + e.length <= |d|
  {
    d[e.start..e.start + e.length]
  }

  /** What the first `n` entries know, by the bytes that their ranges hold now. */
  ghost function Known(es: seq<Entry>, d: seq<Byte>, n: nat): map<seq<Byte>, nat>
    requires n <= |es| && InBounds(es, |d|)
  {
    if n == 0 then map[] else Known(es, d, n - 1)[Range(es[n - 1], d) := es[n - 1].itemOffset]
  }

  /** No two ranges hold the same bytes, and the stored hashes are those of the bytes. */
  ghost predicate TableUpTo(es: seq<Entry>, d: seq<Byte>, hash: seq<Byte> -> int, n: nat)
    requires n <= |es| && InBounds(es, |d|)
  {
    n == 0 || (
      && TableUpTo(es, d, hash, n - 1)
      && es[n - 1].hash == hash(Range(es[n - 1], d))
      && Range(es[n - 1], d) !in Known(es, d, n - 1)
    )
  }

  ghost predicate TableOk(es: seq<Entry>, d: seq<Byte>, hash: seq<Byte> -> int) {
    InBounds(es, |d|) && TableUpTo(es, d, hash, |es|)
  }

  lemma {:induction false} KnownAt(es: seq<Entry>, d: seq<Byte>, hash: seq<Byte> -> int, k: nat, n: nat)
    requires k < n <= |es| && InBounds(es, |d|) && TableUpTo(es, d, hash, n)
    ensures Range(es[k], d) in Known(es, d, n)
    ensures Known(es, d, n)[Range(es[k], d)] == es[k].itemOffset
    ensures es[k].hash == hash(Range(es[k], d))
    decreases n
  {
    if k < n - 1 {
      KnownAt(es, d, hash, k, n - 1);
    }
  }

  lemma NothingKnown(es: seq<Entry>, d: seq<Byte>)
    requires InBounds(es, |d|)
    ensures Known(es, d, 0) == map[]
  {
  }

  lemma EntryKnown(es: seq<Entry>, d: seq<Byte>, hash: seq<Byte> -> int, k: nat)
    requires k < |es| && TableOk(es, d, hash)
    ensures InBounds(es, |d|) && es[k].start + es[k].length <= |d|
    ensures var c := Range(es[k], d);
            c in Known(es, d, |es|) && Known(es, d, |es|)[c] == es[k].itemOffset && es[k].hash == hash(c)
    ensures Known(es, d, k + 1).Keys == Known(es, d, k).Keys + {Range(es[k], d)}
  {
    KnownAt(es, d, hash, k, |es|);
  }

  /** The table depends only on the bytes of its ranges. */
  lemma {:induction false} KnownKept(es: seq<Entry>, es': seq<Entry>, d: seq<Byte>, d': seq<Byte>, limit: nat, n: nat)
    requires n <= |es| && es <= es' && InBounds(es, limit) && limit <= |d| && KeptBelow(d, d', limit)
    requires InBounds(es', |d'|)
    ensures Known(es', d', n) == Known(es, d, n)
    decreases n
  {
    if n > 0 {
      KnownKept(es, es', d, d', limit, n - 1);
      RangeKept(es[n - 1], d, d', limit);
    }
  }

  lemma {:induction false} TableUpToKept(es: seq<Entry>, es': seq<Entry>, d: seq<Byte>, d': seq<Byte>, limit: nat,
                                         hash: seq<Byte> -> int, n: nat)
    requires n <= |es| && es <= es' && InBounds(es, limit) && limit <= |d| && KeptBelow(d, d', limit)
    requires InBounds(es', |d'|) && TableUpTo(es, d, hash, n)
    ensures TableUpTo(es', d', hash, n)
    decreases n
  {
    if n > 0 {
      TableUpToKept(es, es', d, d', limit, hash, n - 1);
      hide Range, KeptBelow, Known;
      KnownKept(es, es', d, d', limit, n - 1);
      RangeKept(es[n - 1], d, d', limit);
    }
  }

  lemma RangeKept(e: Entry, d: seq<Byte>, d': seq<Byte>, limit: nat)
    requires e.start + e.length <= limit <= |d| && KeptBelow(d, d', limit)
    ensures Range(e, d') == Range(e, d)
  {
    assert d'[..limit] == d[..limit];
    assert Range(e, d') == d'[..limit][e.start..e.start + e.length];
    assert Range(e, d) == d[..limit][e.start..e.start + e.length];
  }

  /** The storage below `p` is as it was. */
  ghost predicate KeptBelow(d: seq<Byte>, d': seq<Byte>, p: nat)
    requires p <= |d|
  {
    p <= |d'| && d'[..p] == d[..p]
  }

  class Deduper {
    const section: VectorSection
    const hash: seq<Byte> -> int
    var entries: seq<Entry>

    constructor (section: VectorSection, hash: seq<Byte> -> int)
      ensures this.section == section && this.hash == hash && entries == []
    {
      this.section := section;
      this.hash := hash;
      entries := [];
    }

    /** Finds an earlier item with the bytes of the range, comparing live bytes, or enters the range. */
    method Dedupe(start: nat, end: nat, itemOffset: nat) returns (offset: nat)
      requires start <= end <= |section.data|
      requires TableOk(entries, section.data, hash)
      modifies this
      ensures var c, known := section.data[start..end], Known(old(entries), section.data, |old(entries)|);
              if c in known then offset == known[c] && entries == old(entries)
              else offset == 0 && entries == old(entries) + [Entry(start, end - start, hash(c), itemOffset)]
    {
      assert InBounds(entries, |section.data|);
      var c := section.data[start..end];
      var h := hash(c);
      hide Known, TableOk, InBounds;
      NothingKnown(entries, section.data);
      for k := 0 to |entries|
        invariant entries == old(entries)
        invariant c !in Known(entries, section.data, k)
      {
        var e := entries[k];
        EntryKnown(entries, section.data, hash, k);
        if e.hash == h && e.length == end - start && Range(e, section.data) == c {
          return e.itemOffset;
        }
      }
      entries := entries + [Entry(start, end - start, h, itemOffset)];
      return 0;
    }
  }

  // --- What holds between items ---------------------------------------------------------------------

  /** An item that was written: its bytes are to be found at its offset. */
  datatype Item = Item(offset: nat, bytes: seq<Byte>, shared: bool)

  const DATA_SECTION_ALIGNMENT := 8

  /** A deduplicated item with these bytes was written before. */
  ghost predicate WasShared(items: seq<Item>, b: seq<Byte>) {
    exists k :: 0 <= k < |items| && items[k].shared && items[k].bytes == b
  }

  /** What a deduplicated item takes of the section: nothing, if its bytes are there. */
  ghost function Space(items: seq<Item>, b: seq<Byte>): nat {
    if WasShared(items, b) then 0 else |b|
  }

  ghost predicate ItemsOk(items: seq<Item>, d: seq<Byte>, position: nat) {
    forall k :: 0 <= k < |items| ==>
      && items[k].offset >= DATA_SECTION_ALIGNMENT
      && items[k].offset + |items[k].bytes| <= position
      && HoldsAt(d, items[k].offset, items[k].bytes)
  }

  ghost predicate SharedOk(items: seq<Item>, es: seq<Entry>, d: seq<Byte>)
    requires InBounds(es, |d|)
  {
    forall k :: 0 <= k < |items| && items[k].shared ==>
      items[k].bytes in Known(es, d, |es|) && Known(es, d, |es|)[items[k].bytes] == items[k].offset
  }

  /** The table knows nothing but the bytes of deduplicated items. */
  ghost predicate KnownShared(items: seq<Item>, es: seq<Entry>, d: seq<Byte>)
    requires InBounds(es, |d|)
  {
    forall b :: b in Known(es, d, |es|) ==> WasShared(items, b)
  }

  lemma WasSharedMore(items: seq<Item>, x: Item, b: seq<Byte>)
    ensures WasShared(items + [x], b) <==> WasShared(items, b) || (x.shared && x.bytes == b)
  {
    var more := items + [x];
    assert forall k :: 0 <= k < |items| ==> more[k] == items[k];
    assert more[|items|] == x;
  }

  lemma KnownSharedMore(items: seq<Item>, x: Item, es: seq<Entry>, d: seq<Byte>)
    requires InBounds(es, |d|) && KnownShared(items, es, d)
    ensures KnownShared(items + [x], es, d)
  {
    hide Known, WasShared;
    forall b | b in Known(es, d, |es|)
      ensures WasShared(items + [x], b)
    {
      WasSharedMore(items, x, b);
    }
  }

  ghost predicate EntriesOk(es: seq<Entry>, position: nat) {
    InBounds(es, position) && forall k :: 0 <= k < |es| ==> es[k].itemOffset == es[k].start >= DATA_SECTION_ALIGNMENT
  }

  /**
   Everything from the position on is zero, every item's bytes are at its offset before it, and the
   table knows exactly one offset for the bytes of each deduplicated item.
   */
  ghost predicate Sound(items: seq<Item>, es: seq<Entry>, d: seq<Byte>, position: nat, hash: seq<Byte> -> int) {
    && DATA_SECTION_ALIGNMENT <= position <= |d| && ZeroFrom(d, position)
    && ItemsOk(items, d, position)
    && EntriesOk(es, position) && TableOk(es, d, hash) && SharedOk(items, es, d) && KnownShared(items, es, d)
  }

  lemma WroteKeptBelow(d: seq<Byte>, d': seq<Byte>, p: nat, q: nat, b: seq<Byte>)
    requires Wrote(d, d', q, b) && p <= |d| && p <= q
    ensures KeptBelow(d, d', p)
  {
    assert d'[..p] == d[..p];
  }

  lemma HoldsKept(d: seq<Byte>, d': seq<Byte>, limit: nat, p: nat, b: seq<Byte>)
    requires limit <= |d| && KeptBelow(d, d', limit) && HoldsAt(d, p, b) && p + |b| <= limit
    ensures HoldsAt(d', p, b)
  {
    assert d'[p..p + |b|] == d'[..limit][p..p + |b|];
    assert d[p..p + |b|] == d[..limit][p..p + |b|];
  }

  lemma KeptLength(d: seq<Byte>, d': seq<Byte>, limit: nat)
    requires limit <= |d| && KeptBelow(d, d', limit)
    ensures limit <= |d'|
  {
  }

  lemma TableKept(es: seq<Entry>, d: seq<Byte>, d': seq<Byte>, limit: nat, hash: seq<Byte> -> int)
    requires TableOk(es, d, hash) && InBounds(es, limit) && limit <= |d| && KeptBelow(d, d', limit)
    ensures TableOk(es, d', hash) && Known(es, d', |es|) == Known(es, d, |es|)
  {
    KeptLength(d, d', limit);
    hide KeptBelow, Known, TableUpTo;
    TableUpToKept(es, es, d, d', limit, hash, |es|);
    KnownKept(es, es, d, d', limit, |es|);
  }

  /** Nothing that lies before the position is touched, and the position moves on. */
  lemma SoundKept(items: seq<Item>, es: seq<Entry>, d: seq<Byte>, p: nat, hash: seq<Byte> -> int, d': seq<Byte>,
                  p': nat)
    requires Sound(items, es, d, p, hash)
    requires KeptBelow(d, d', p) && p <= p' <= |d'| && ZeroFrom(d', p')
    ensures Sound(items, es, d', p', hash)
  {
    hide TableOk, Known, KeptBelow, HoldsAt, ZeroFrom, WasShared;
    TableInBounds(es, d, hash);
    TableKept(es, d, d', p, hash);
    forall k | 0 <= k < |items|
      ensures HoldsAt(d', items[k].offset, items[k].bytes)
    {
      HoldsKept(d, d', p, items[k].offset, items[k].bytes);
    }
  }

  lemma TableInBounds(es: seq<Entry>, d: seq<Byte>, hash: seq<Byte> -> int)
    requires TableOk(es, d, hash)
    ensures InBounds(es, |d|)
  {
  }

  /** An item that is not deduplicated. */
  lemma SoundPlain(items: seq<Item>, es: seq<Entry>, d: seq<Byte>, p: nat, hash: seq<Byte> -> int, offset: nat,
                   b: seq<Byte>)
    requires Sound(items, es, d, p, hash)
    requires DATA_SECTION_ALIGNMENT <= offset && offset + |b| <= p && HoldsAt(d, offset, b)
    ensures Sound(items + [Item(offset, b, false)], es, d, p, hash)
  {
    hide TableOk, HoldsAt, ZeroFrom, Known, KnownShared;
    TableInBounds(es, d, hash);
    KnownSharedMore(items, Item(offset, b, false), es, d);
  }

  lemma {:induction false} KnownMeans(es: seq<Entry>, d: seq<Byte>, position: nat, n: nat, c: seq<Byte>)
    requires n <= |es| && EntriesOk(es, position) && position <= |d| && c in Known(es, d, n)
    ensures var offset := Known(es, d, n)[c];
            DATA_SECTION_ALIGNMENT <= offset && offset + |c| <= position && HoldsAt(d, offset, c)
    decreases n
  {
    if Range(es[n - 1], d) != c {
      KnownMeans(es, d, position, n - 1, c);
    }
  }

  /** A deduplicated item takes the offset of the earlier one. */
  lemma SoundHit(items: seq<Item>, es: seq<Entry>, d: seq<Byte>, p: nat, hash: seq<Byte> -> int, b: seq<Byte>)
    requires Sound(items, es, d, p, hash) && b in Known(es, d, |es|)
    ensures var offset := Known(es, d, |es|)[b]; offset != 0 && Sound(items + [Item(offset, b, true)], es, d, p, hash)
  {
    hide TableOk, HoldsAt, ZeroFrom, Known, KnownShared;
    TableInBounds(es, d, hash);
    KnownMeans(es, d, p, |es|, b);
    KnownSharedMore(items, Item(Known(es, d, |es|)[b], b, true), es, d);
  }

  /** A first item with its bytes, ending at the position, is entered. */
  lemma SoundMiss(items: seq<Item>, es: seq<Entry>, d: seq<Byte>, p: nat, hash: seq<Byte> -> int, start: nat,
                  b: seq<Byte>)
    requires Sound(items, es, d, p, hash) && b !in Known(es, d, |es|)
    requires DATA_SECTION_ALIGNMENT <= start && start + |b| <= p && HoldsAt(d, start, b)
    ensures Sound(items + [Item(start, b, true)], es + [Entry(start, |b|, hash(b), start)], d, p, hash)
  {
    var e := Entry(start, |b|, hash(b), start);
    hide HoldsAt, ZeroFrom, Known, TableOk, WasShared;
    TableInBounds(es, d, hash);
    TableEntered(es, d, p, hash, e, b);
    TableInBounds(es + [e], d, hash);
    forall c | c in Known(es + [e], d, |es| + 1)
      ensures WasShared(items + [Item(start, b, true)], c)
    {
      WasSharedMore(items, Item(start, b, true), c);
    }
  }

  lemma TableEntered(es: seq<Entry>, d: seq<Byte>, p: nat, hash: seq<Byte> -> int, e: Entry, b: seq<Byte>)
    requires TableOk(es, d, hash) && InBounds(es, p) && p <= |d| && b !in Known(es, d, |es|)
    requires e.start + e.length <= p && HoldsAt(d, e.start, b) && e.length == |b| && e.hash == hash(b)
    ensures TableOk(es + [e], d, hash)
    ensures Known(es + [e], d, |es| + 1) == Known(es, d, |es|)[b := e.itemOffset]
  {
    var es' := es + [e];
    assert InBounds(es', |d|);
    TableUpToKept(es, es', d, d, p, hash, |es|);
    KnownKept(es, es', d, d, p, |es|);
    assert Range(es'[|es|], d) == b;
  }

  lemma SettleFacts(items: seq<Item>, es: seq<Entry>, d1: seq<Byte>, p: nat, hash: seq<Byte> -> int,
                    d: seq<Byte>, start: nat, b: seq<Byte>)
    requires Sound(items, es, d1, p, hash) && Sound(items, es, d, start, hash)
    requires Wrote(d, d1, start, b) && p == start + |b|
    ensures DATA_SECTION_ALIGNMENT <= start <= |d| && p <= |d1| && ZeroFrom(d, start)
    ensures TableOk(es, d1, hash) && InBounds(es, |d1|)
    ensures d1[start..p] == b && HoldsAt(d1, start, b)
    ensures WasShared(items, b) <==> b in Known(es, d1, |es|)
  {
    hide Known;
    WroteHolds(d, d1, start, b);
    assert KnownShared(items, es, d1) && SharedOk(items, es, d1);
  }

  lemma WroteGrown(d: seq<Byte>, d1: seq<Byte>, d2: seq<Byte>, p: nat)
    requires Wrote(d, d1, p, []) && Wrote(d1, d2, p, [])
    ensures Wrote(d, d2, p, [])
  {
  }

  lemma Trimmed(items: seq<Item>, es: seq<Entry>, d: seq<Byte>, p: nat, hash: seq<Byte> -> int)
    requires Sound(items, es, d, p, hash)
    ensures p <= |d| && p >= DATA_SECTION_ALIGNMENT && Sound(items, es, d[..p], p, hash)
  {
    hide ItemsOk, EntriesOk, TableOk, SharedOk;
    assert KeptBelow(d, d[..p], p);
    SoundKept(items, es, d, p, hash, d[..p], p);
  }

  // --- Blocks written out of order ------------------------------------------------------------------

  /** The bytes of one entry of a handler list, at an offset from the start of the list. */
  datatype Block = Block(offset: nat, bytes: seq<Byte>) {
    function End(): nat {
      offset + |bytes|
    }
  }

  predicate Apart(x: Block, y: Block) {
    x.End() <= y.offset || y.End() <= x.offset
  }

  /** The blocks lie behind the first `head` bytes of the list and do not overlap. */
  ghost predicate Disjoint(blocks: seq<Block>, head: nat) {
    && (forall i :: 0 <= i < |blocks| ==> head <= blocks[i].offset)
    && (forall i, j :: 0 <= i < j < |blocks| ==> Apart(blocks[i], blocks[j]))
  }

  ghost predicate BlocksAt(d: seq<Byte>, base: nat, blocks: seq<Block>, end: nat) {
    forall i :: 0 <= i < |blocks| ==>
      HoldsAt(d, base + blocks[i].offset, blocks[i].bytes) && base + blocks[i].End() <= end
  }

  /** Writing one block leaves the storage before the list and the other blocks alone. */
  lemma BlockWritten(d0: seq<Byte>, d: seq<Byte>, d': seq<Byte>, p: nat, base: nat, blocks: seq<Block>, k: nat,
                     end: nat)
    requires base <= p <= |d0| && p <= end <= |d| && k < |blocks| && Disjoint(blocks, p - base)
    requires KeptBelow(d0, d, p) && BlocksAt(d, base, blocks[..k], end) && ZeroFrom(d, end)
    requires Wrote(d, d', base + blocks[k].offset, blocks[k].bytes)
    ensures KeptBelow(d0, d', p)
    ensures var end' := if base + blocks[k].End() > end then base + blocks[k].End() else end;
            BlocksAt(d', base, blocks[..k + 1], end') && ZeroFrom(d', end')
  {
    hide HoldsAt, ZeroFrom, Wrote;
    var q, b := base + blocks[k].offset, blocks[k].bytes;
    WroteKeptBelow(d, d', p, q, b);
    WroteHolds(d, d', q, b);
    WroteStillZero(d, d', q, b, end);
    forall i | 0 <= i < k
      ensures HoldsAt(d', base + blocks[i].offset, blocks[i].bytes) && base + blocks[i].End() <= end
    {
      assert Apart(blocks[i], blocks[k]) && blocks[..k][i] == blocks[i];
      HoldsApart(d, d', q, b, base + blocks[i].offset, blocks[i].bytes);
    }
    assert forall i :: 0 <= i < k ==> blocks[..k + 1][i] == blocks[i];
  }

  lemma WroteStillZero(d: seq<Byte>, d': seq<Byte>, p: nat, b: seq<Byte>, end: nat)
    requires Wrote(d, d', p, b) && ZeroFrom(d, end)
    ensures ZeroFrom(d', if p + |b| > end then p + |b| else end)
  {
  }

  lemma HoldsApart(d: seq<Byte>, d': seq<Byte>, p: nat, b: seq<Byte>, q: nat, c: seq<Byte>)
    requires Wrote(d, d', p, b) && HoldsAt(d, q, c) && (q + |c| <= p || p + |b| <= q)
    ensures HoldsAt(d', q, c)
  {
    forall i | 0 <= i < |c|
      ensures d'[q + i] == c[i]
    {
      assert d[q..q + |c|][i] == d[q + i];
    }
  }

  /** Seeks to each block in turn, in whatever order they come, and ends behind the last of them. */
  method WriteBlocks(stream: Stream, base: nat, blocks: seq<Block>)
    requires stream.Valid() && base <= stream.position <= |stream.section.data|
    requires Disjoint(blocks, stream.position - base) && ZeroFrom(stream.section.data, stream.position)
    modifies stream, stream.section
    ensures stream.Valid() && old(stream.position) <= stream.position <= |stream.section.data|
    ensures KeptBelow(old(stream.section.data), stream.section.data, old(stream.position))
    ensures BlocksAt(stream.section.data, base, blocks, stream.position)
    ensures ZeroFrom(stream.section.data, stream.position)
  {
    ghost var d0, p := stream.section.data, stream.position;
    var maxOffset := stream.position;
    for k := 0 to |blocks|
      invariant stream.Valid() && p <= maxOffset <= |stream.section.data|
      invariant KeptBelow(d0, stream.section.data, p)
      invariant BlocksAt(stream.section.data, base, blocks[..k], maxOffset)
      invariant ZeroFrom(stream.section.data, maxOffset)
    {
      hide KeptBelow, BlocksAt, ZeroFrom, Disjoint, Wrote;
      ghost var d := stream.section.data;
      stream.Seek(base + blocks[k].offset);
      ghost var d1 := stream.section.data;
      stream.Overwrite(blocks[k].bytes);
      WroteAfterGrowth(d, d1, stream.section.data, base + blocks[k].offset, blocks[k].bytes);
      BlockWritten(d0, d, stream.section.data, p, base, blocks, k, maxOffset);
      maxOffset := if stream.position > maxOffset then stream.position else maxOffset;
    }
    assert blocks[..|blocks|] == blocks;
    ghost var d := stream.section.data;
    stream.Seek(maxOffset);
    BlocksGrown(d0, d, stream.section.data, p, base, blocks, maxOffset);
  }

  lemma WroteAfterGrowth(d: seq<Byte>, d1: seq<Byte>, d2: seq<Byte>, p: nat, b: seq<Byte>)
    requires Wrote(d, d1, p, []) && Wrote(d1, d2, p, b)
    ensures Wrote(d, d2, p, b) && |d| <= |d2|
  {
  }

  lemma BlocksGrown(d0: seq<Byte>, d: seq<Byte>, d': seq<Byte>, p: nat, base: nat, blocks: seq<Block>, end: nat)
    requires p <= |d0| && p <= end <= |d| && KeptBelow(d0, d, p) && BlocksAt(d, base, blocks, end) && ZeroFrom(d, end)
    requires Wrote(d, d', end, [])
    ensures KeptBelow(d0, d', p) && BlocksAt(d', base, blocks, end) && ZeroFrom(d', end)
  {
    WroteKeptBelow(d, d', p, end, []);
    forall i | 0 <= i < |blocks|
      ensures HoldsAt(d', base + blocks[i].offset, blocks[i].bytes)
    {
      HoldsApart(d, d', end, [], base + blocks[i].offset, blocks[i].bytes);
    }
  }

  // --- The writer -----------------------------------------------------------------------------------

  class DataWriter {
    const section: VectorSection
    const dedupe: Deduper
    var stream: Stream
    ghost var items: seq<Item>

    ghost predicate Valid()
      reads this, section, dedupe, stream
    {
      && stream.section == section && dedupe.section == section && stream.Valid()
      && Sound(items, dedupe.entries, section.data, stream.position, dedupe.hash)
    }

    /** A container, and the stream for the first dex file: offset 0 stands for no item. */
    constructor (hash: seq<Byte> -> int)
      ensures Valid() && fresh(section) && fresh(dedupe) && fresh(stream) && items == []
    {
      var data := new VectorSection();
      section := data;
      dedupe := new Deduper(data, hash);
      stream := new Stream(data);
      items := [];
      new;
      stream.Seek(DATA_SECTION_ALIGNMENT);
      assert ZeroFrom(section.data, stream.position);
    }

    /** Ends a dex file, trims the section, and opens it for the next one. */
    method NextDexFile()
      requires Valid()
      modifies this, section, stream
      ensures Valid() && fresh(stream) && items == old(items)
      ensures old(stream.position) <= stream.position < old(stream.position) + DATA_SECTION_ALIGNMENT
      ensures stream.position % DATA_SECTION_ALIGNMENT == 0 && |section.data| == stream.position
    {
      hide Sound, Wrote;
      ghost var d, p := section.data, stream.position;
      stream.AlignTo(DATA_SECTION_ALIGNMENT);
      Moved(d, p, []);
      ghost var d1 := section.data;
      section.Resize(stream.position);
      Trimmed(items, dedupe.entries, d1, |section.data|, dedupe.hash);
      ghost var d2 := section.data;
      var size := |section.data|;
      stream := new Stream(section);
      stream.Seek(if size >= DATA_SECTION_ALIGNMENT then size else DATA_SECTION_ALIGNMENT);
      Moved(d2, size, []);
      ghost var d3 := section.data;
      stream.AlignTo(DATA_SECTION_ALIGNMENT);
      Moved(d3, size, []);
    }

    /** Writes at the position, moving it on. */
    method Append(b: seq<Byte>)
      requires Valid()
      modifies section, stream
      ensures Valid() && stream.position == old(stream.position) + |b|
      ensures Wrote(old(section.data), section.data, old(stream.position), b)
    {
      ghost var d, p := section.data, stream.position;
      stream.Write(b);
      Moved(d, p, b);
    }

    lemma Moved(d: seq<Byte>, p: nat, b: seq<Byte>)
      requires stream.section == section && dedupe.section == section && stream.Valid()
      requires Sound(items, dedupe.entries, d, p, dedupe.hash)
      requires Wrote(d, section.data, p, b) && p + |b| <= stream.position <= |section.data|
      ensures Valid()
    {
      WroteKeptBelow(d, section.data, p, p, b);
      WroteZero(d, section.data, p, b);
      SoundKept(items, dedupe.entries, d, p, dedupe.hash, section.data, stream.position);
    }

    /** The end of an item whose bytes were written at `start`, where the section was `d`. */
    method Settle(ghost d: seq<Byte>, start: nat, ghost b: seq<Byte>) returns (offset: nat)
      requires Valid()
      requires Sound(items, dedupe.entries, d, start, dedupe.hash)
      requires Wrote(d, section.data, start, b) && stream.position == start + |b|
      modifies this, section, stream, dedupe
      ensures Valid() && stream == old(stream)
      ensures items == old(items) + [Item(offset, b, true)]
      ensures stream.position == if WasShared(old(items), b) then start else start + |b|
    {
      hide Sound, Known, Wrote, HoldsAt, TableOk, WasShared;
      ghost var es, d1 := dedupe.entries, section.data;
      SettleFacts(items, es, d1, stream.position, dedupe.hash, d, start, b);
      offset := start;
      var deduped := dedupe.Dedupe(start, stream.position, offset);
      if deduped != 0 {
        SoundHit(items, es, d1, stream.position, dedupe.hash, b);
        offset := deduped;
        stream.Clear(start, stream.position - start);
        WroteCleared(d, d1, section.data, start, b);
        ghost var d2 := section.data;
        stream.Seek(start);
        WroteGrown(d, d2, section.data, start);
        RolledBack(d, start, d1, b);
        SoundHit(items, es, section.data, stream.position, dedupe.hash, b);
      } else if b in Known(es, d1, |es|) {
        SoundHit(items, es, d1, stream.position, dedupe.hash, b);
        assert false;
      } else {
        SoundMiss(items, es, d1, stream.position, dedupe.hash, start, b);
      }
      items := items + [Item(offset, b, true)];
    }

    lemma RolledBack(d: seq<Byte>, start: nat, d1: seq<Byte>, b: seq<Byte>)
      requires Sound(items, dedupe.entries, d, start, dedupe.hash)
      requires Wrote(d, d1, start, b) && Wrote(d, section.data, start, []) && start <= |section.data|
      ensures Sound(items, dedupe.entries, section.data, start, dedupe.hash)
      ensures InBounds(dedupe.entries, |d1|)
      ensures Known(dedupe.entries, section.data, |dedupe.entries|) == Known(dedupe.entries, d1, |dedupe.entries|)
    {
      WroteKeptBelow(d, section.data, start, start, []);
      WroteZero(d, section.data, start, []);
      SoundKept(items, dedupe.entries, d, start, dedupe.hash, section.data, start);
      WroteKeptBelow(d, d1, start, start, b);
      TableKept(dedupe.entries, d, d1, start, dedupe.hash);
      TableKept(dedupe.entries, d, section.data, start, dedupe.hash);
    }

    method WriteDebugInfoItem(info: seq<Byte>) returns (offset: nat)
      requires Valid()
      modifies this, section, stream, dedupe
      ensures Valid() && stream == old(stream)
      ensures items == old(items) + [Item(offset, info, true)]
      ensures stream.position == old(stream.position) + Space(old(items), info)
    {
      var start := stream.position;
      ghost var d := section.data;
      Append(info);
      offset := Settle(d, start, info);
    }

    /** The terminating zero is skipped, not written: the storage is zero there. */
    method WriteStringData(utf16Length: nat, chars: seq<Byte>) returns (offset: nat)
      requires Valid() && utf16Length < TWO_32
      modifies this, section, stream, dedupe
      ensures Valid() && stream == old(stream)
      ensures items == old(items) + [Item(offset, EncodeUnsigned(utf16Length) + chars + [0], true)]
      ensures stream.position == old(stream.position) + Space(old(items), EncodeUnsigned(utf16Length) + chars + [0])
    {
      var start := stream.position;
      ghost var d := section.data;
      ghost var length := EncodeUnsigned(utf16Length);
      stream.WriteUleb128(utf16Length);
      Moved(d, start, length);
      ghost var d1 := section.data;
      Append(chars);
      WroteTwice(d, d1, section.data, start, length, chars);
      ghost var d2, p2 := section.data, stream.position;
      stream.Skip(1);
      WroteSkipped(d2, section.data, p2, 1);
      assert Zeros(1) == [0];
      WroteTwice(d, d2, section.data, start, length + chars, [0]);
      Moved(d2, p2, [0]);
      offset := Settle(d, start, length + chars + [0]);
    }

    /** Any other item: aligned, and never shared. */
    method WriteItem(alignment: nat, b: seq<Byte>) returns (offset: nat)
      requires Valid() && alignment > 0
      modifies this, section, stream
      ensures Valid() && stream == old(stream)
      ensures items == old(items) + [Item(offset, b, false)] && offset % alignment == 0
      ensures DATA_SECTION_ALIGNMENT <= offset && stream.position == offset + |b|
      ensures old(stream.position) <= offset < old(stream.position) + alignment
    {
      ghost var d, p := section.data, stream.position;
      stream.AlignTo(alignment);
      Moved(d, p, []);
      offset := stream.position;
      ghost var d1 := section.data;
      Append(b);
      WroteHolds(d1, section.data, offset, b);
      SoundPlain(items, dedupe.entries, section.data, stream.position, dedupe.hash, offset, b);
      items := items + [Item(offset, b, false)];
    }

    /**
     A code item: its offset is behind the preheader; behind the instructions come the tries and the
     list of handlers, the entries of which are written at their own offsets from its start.
     */
    method WriteCodeItem(padded: bool, preheader: seq<Byte>, code: seq<Byte>, tries: seq<Byte>, handlers: nat,
                         blocks: seq<Block>)
      returns (offset: nat)
      requires Valid() && handlers < TWO_32 && Disjoint(blocks, |EncodeUnsigned(handlers)|)
      modifies this, section, stream
      ensures Valid() && stream == old(stream)
      ensures |items| > |old(items)| && items[..|old(items)| + 1] == old(items) + [Item(offset, code, false)]
      ensures tries != [] ==> HasList(items[|old(items)| + 1..], tries, EncodeUnsigned(handlers), blocks)
      ensures padded ==> offset % PAYLOAD_ALIGNMENT == 0
    {
      hide Sound, Wrote, HasList, Disjoint, RoundUp, EncodeUnsigned;
      ghost var before := items;
      ghost var d, p := section.data, stream.position;
      stream.AlignTo(CODE_ITEM_ALIGNMENT);
      Moved(d, p, []);
      if padded {
        ghost var d1, p1 := section.data, stream.position;
        var start := stream.position + |preheader|;
        RoundUpMeans(start, PAYLOAD_ALIGNMENT);
        stream.Skip(RoundUp(start, PAYLOAD_ALIGNMENT) - start);
        Moved(d1, p1, []);
      }
      Append(preheader);
      offset := WriteItem(1, code);
      if tries != [] {
        WritePostInstructionData(tries, handlers, blocks);
        assert items[..|before| + 1] == before + [Item(offset, code, false)];
      }
    }

    method WritePostInstructionData(tries: seq<Byte>, handlers: nat, blocks: seq<Block>)
      requires Valid() && handlers < TWO_32 && Disjoint(blocks, |EncodeUnsigned(handlers)|)
      modifies this, section, stream
      ensures Valid() && stream == old(stream)
      ensures |items| >= |old(items)| && items[..|old(items)|] == old(items)
      ensures HasList(items[|old(items)|..], tries, EncodeUnsigned(handlers), blocks)
    {
      hide Sound, BlocksAt, Disjoint, EncodeUnsigned, Wrote, HasList, BlockItems;
      ghost var before := items;
      ghost var at := WriteItem(TRY_ITEM_ALIGNMENT, tries);
      var base := stream.position;
      ghost var d := section.data;
      stream.WriteUleb128(handlers);
      Moved(d, base, EncodeUnsigned(handlers));
      ListHead(d, base, EncodeUnsigned(handlers));
      SoundPlain(items, dedupe.entries, section.data, stream.position, dedupe.hash, base, EncodeUnsigned(handlers));
      items := items + [Item(base, EncodeUnsigned(handlers), false)];
      ghost var d1, p1 := section.data, stream.position;
      WriteBlocks(stream, base, blocks);
      SoundKept(items, dedupe.entries, d1, p1, dedupe.hash, section.data, stream.position);
      SoundBlocks(items, dedupe.entries, section.data, stream.position, dedupe.hash, base, blocks, |blocks|);
      items := items + BlockItems(base, blocks, |blocks|);
      ListOf(items[|before|..], at, tries, EncodeUnsigned(handlers), blocks);
    }

    lemma ListHead(d: seq<Byte>, base: nat, head: seq<Byte>)
      requires Valid() && Wrote(d, section.data, base, head) && stream.position == base + |head|
      ensures HoldsAt(section.data, base, head) && ZeroFrom(section.data, stream.position)
      ensures stream.position <= |section.data|
    {
      WroteHolds(d, section.data, base, head);
    }
  }

  const CODE_ITEM_ALIGNMENT := 2
  const PAYLOAD_ALIGNMENT := 4
  const TRY_ITEM_ALIGNMENT := 4

  ghost function BlockItems(base: nat, blocks: seq<Block>, n: nat): (s: seq<Item>)
    requires n <= |blocks|
    ensures |s| == n && forall i :: 0 <= i < n ==> s[i] == Item(base + blocks[i].offset, blocks[i].bytes, false)
  {
    if n == 0 then []
    else BlockItems(base, blocks, n - 1) + [Item(base + blocks[n - 1].offset, blocks[n - 1].bytes, false)]
  }

  lemma ListOf(items: seq<Item>, at: nat, tries: seq<Byte>, head: seq<Byte>, blocks: seq<Block>)
    requires items == [Item(at, tries, false), Item(at + |tries|, head, false)] + BlockItems(at + |tries|, blocks, |blocks|)
    ensures HasList(items, tries, head, blocks)
  {
  }

  /** The list's start, and each entry at its offset from there. */
  ghost predicate HasList(items: seq<Item>, tries: seq<Byte>, head: seq<Byte>, blocks: seq<Block>) {
    && |items| == |blocks| + 2
    && items[0].bytes == tries && items[1] == Item(items[0].offset + |tries|, head, false)
    && forall i :: 0 <= i < |blocks| ==> items[i + 2] == Item(items[1].offset + blocks[i].offset, blocks[i].bytes, false)
  }

  lemma BlockItemsStep(items: seq<Item>, base: nat, blocks: seq<Block>, n: nat)
    requires n <= |blocks|
    ensures n == 0 ==> items + BlockItems(base, blocks, n) == items
    ensures n > 0 ==>
              items + BlockItems(base, blocks, n) ==
              items + BlockItems(base, blocks, n - 1) + [Item(base + blocks[n - 1].offset, blocks[n - 1].bytes, false)]
  {
  }

  lemma BlockHeld(d: seq<Byte>, base: nat, blocks: seq<Block>, end: nat, i: nat)
    requires BlocksAt(d, base, blocks, end) && i < |blocks|
    ensures HoldsAt(d, base + blocks[i].offset, blocks[i].bytes) && base + blocks[i].End() <= end
  {
  }

  lemma {:induction false} SoundBlocks(items: seq<Item>, es: seq<Entry>, d: seq<Byte>, p: nat, hash: seq<Byte> -> int,
                                       base: nat, blocks: seq<Block>, n: nat)
    requires Sound(items, es, d, p, hash) && n <= |blocks| && base >= DATA_SECTION_ALIGNMENT
    requires BlocksAt(d, base, blocks, p)
    ensures Sound(items + BlockItems(base, blocks, n), es, d, p, hash)
    decreases n
  {
    hide Sound, HoldsAt, BlockItems, BlocksAt;
    BlockItemsStep(items, base, blocks, n);
    if n > 0 {
      SoundBlocks(items, es, d, p, hash, base, blocks, n - 1);
      var all := items + BlockItems(base, blocks, n - 1);
      var b := blocks[n - 1];
      BlockHeld(d, base, blocks, p, n - 1);
      SoundPlain(all, es, d, p, hash, base + b.offset, b.bytes);
    }
  }

  // --- Any sequence of writes -----------------------------------------------------------------------

  datatype Op =
    | StringData(utf16Length: nat, chars: seq<Byte>)
    | DebugInfo(info: seq<Byte>)
    | Other(alignment: nat, bytes: seq<Byte>)
    | Code(padded: bool, preheader: seq<Byte>, code: seq<Byte>, tries: seq<Byte>, handlers: nat, blocks: seq<Block>)
    | EndOfDexFile

  ghost predicate ValidOp(op: Op) {
    match op
    case StringData(n, _) => n < TWO_32
    case Other(alignment, _) => alignment > 0
    case Code(_, _, _, _, n, blocks) => n < TWO_32 && Disjoint(blocks, |EncodeUnsigned(n)|)
    case _ => true
  }

  /** What is to be found at the offset of an item. */
  function Encoding(op: Op): seq<Byte> {
    match op
    case StringData(n, chars) => EncodeUnsigned(n) + chars + [0]
    case DebugInfo(info) => info
    case Other(_, b) => b
    case Code(_, _, code, _, _, _) => code
    case EndOfDexFile => []
  }

  predicate Deduplicated(op: Op) {
    op.StringData? || op.DebugInfo?
  }

  predicate SameData(x: Op, y: Op) {
    Deduplicated(x) && Deduplicated(y) && Encoding(x) == Encoding(y)
  }

  /** The writer has the item of the operation. */
  ghost predicate Recorded(items: seq<Item>, op: Op, offset: nat) {
    op.EndOfDexFile? || Item(offset, Encoding(op), Deduplicated(op)) in items
  }

  method RunOp(w: DataWriter, op: Op) returns (offset: nat)
    requires w.Valid() && ValidOp(op)
    modifies w, w.section, w.stream, w.dedupe
    ensures w.Valid() && (w.stream == old(w.stream) || fresh(w.stream))
    ensures old(w.items) <= w.items && Recorded(w.items, op, offset)
  {
    hide Sound, Disjoint, HasList;
    ghost var before := w.items;
    match op {
      case StringData(n, chars) =>
        offset := w.WriteStringData(n, chars);
        assert w.items[|before|] == Item(offset, Encoding(op), true);
      case DebugInfo(info) =>
        offset := w.WriteDebugInfoItem(info);
        assert w.items[|before|] == Item(offset, Encoding(op), true);
      case Other(alignment, b) =>
        offset := w.WriteItem(alignment, b);
        assert w.items[|before|] == Item(offset, Encoding(op), false);
      case Code(padded, preheader, code, tries, handlers, blocks) =>
        offset := w.WriteCodeItem(padded, preheader, code, tries, handlers, blocks);
        assert w.items[|before|] == w.items[..|before| + 1][|before|] == Item(offset, Encoding(op), false);
        assert before == w.items[..|before| + 1][..|before|];
      case EndOfDexFile =>
        w.NextDexFile();
        offset := 0;
    }
  }

  /**
   Whatever is written, deduplicated, rolled back, and however many dex files follow one another: in
   the end the bytes at every item's offset are its own encoding, no offset is 0, and string data and
   debug info of the same bytes have one offset.
   */
  method WriteAll(hash: seq<Byte> -> int, ops: seq<Op>) returns (data: seq<Byte>, offsets: seq<nat>)
    requires forall k :: 0 <= k < |ops| ==> ValidOp(ops[k])
    ensures |offsets| == |ops|
    ensures forall k :: 0 <= k < |ops| && !ops[k].EndOfDexFile? ==>
              offsets[k] != 0 && HoldsAt(data, offsets[k], Encoding(ops[k]))
    ensures forall j, k :: 0 <= j < k < |ops| && SameData(ops[j], ops[k]) ==> offsets[j] == offsets[k]
  {
    hide Sound, ValidOp, Disjoint, Recorded;
    var w := new DataWriter(hash);
    offsets := [];
    for k := 0 to |ops|
      invariant w.Valid() && fresh(w) && fresh(w.section) && fresh(w.stream) && fresh(w.dedupe)
      invariant |offsets| == k
      invariant forall j :: 0 <= j < k ==> Recorded(w.items, ops[j], offsets[j])
    {
      ghost var before := w.items;
      var offset := RunOp(w, ops[k]);
      forall j | 0 <= j < k
        ensures Recorded(w.items, ops[j], offsets[j])
      {
        RecordedKept(before, w.items, ops[j], offsets[j]);
      }
      offsets := offsets + [offset];
    }
    data := w.section.data;
    forall k | 0 <= k < |ops| && !ops[k].EndOfDexFile?
      ensures offsets[k] != 0 && HoldsAt(data, offsets[k], Encoding(ops[k]))
    {
      RecordedHolds(w.items, w.dedupe.entries, data, w.stream.position, w.dedupe.hash, ops[k], offsets[k]);
    }
    forall j, k | 0 <= j < k < |ops| && SameData(ops[j], ops[k])
      ensures offsets[j] == offsets[k]
    {
      RecordedOnce(w.items, w.dedupe.entries, data, w.stream.position, w.dedupe.hash, ops[j], offsets[j]);
      RecordedOnce(w.items, w.dedupe.entries, data, w.stream.position, w.dedupe.hash, ops[k], offsets[k]);
    }
  }

  lemma RecordedKept(items: seq<Item>, items': seq<Item>, op: Op, offset: nat)
    requires items <= items' && Recorded(items, op, offset)
    ensures Recorded(items', op, offset)
  {
    hide Encoding;
  }

  lemma RecordedHolds(items: seq<Item>, es: seq<Entry>, d: seq<Byte>, p: nat, hash: seq<Byte> -> int, op: Op,
                      offset: nat)
    requires Sound(items, es, d, p, hash) && Recorded(items, op, offset) && !op.EndOfDexFile?
    ensures offset != 0 && HoldsAt(d, offset, Encoding(op))
  {
    hide TableOk, SharedOk, HoldsAt, Encoding;
  }

  lemma RecordedOnce(items: seq<Item>, es: seq<Entry>, d: seq<Byte>, p: nat, hash: seq<Byte> -> int, op: Op,
                     offset: nat)
    requires Sound(items, es, d, p, hash) && Recorded(items, op, offset) && Deduplicated(op)
    ensures InBounds(es, |d|)
    ensures Encoding(op) in Known(es, d, |es|) && Known(es, d, |es|)[Encoding(op)] == offset
  {
    hide ItemsOk, Known, Encoding;
  }
}
