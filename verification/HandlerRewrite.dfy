/**
 Reading the tries and the handlers of a code item and writing them again (dexlayout/dex_writer.cc), and
 what a second pass over the result finds.
 */
module HandlerRewrite {
  import opened Bytes
  import opened Leb128
  import opened DexStream
  import opened DataSection
  import opened CatchHandlers
  import opened Wrappers

  // --- The try items ----------------------------------------------------------------------------------

  /** A try_item of the Dalvik Executable format specification. */
  datatype TryItem = TryItem(startAddr: nat, insnCount: nat, handlerOff: nat)

  predicate ValidTry(t: TryItem) {
    t.startAddr < TWO_32 && t.insnCount < 0x1_0000 && t.handlerOff < 0x1_0000
  }

  function Le16(n: nat): (b: seq<Byte>)
    requires n < 0x1_0000
    ensures |b| == 2
  {
    [n % 0x100, n / 0x100]
  }

  function RenderTry(t: TryItem): (b: seq<Byte>)
    requires ValidTry(t)
    ensures |b| == 8
  {
    Le32(t.startAddr) + Le16(t.insnCount) + Le16(t.handlerOff)
  }

  function RenderTries(tries: seq<TryItem>): (b: seq<Byte>)
    requires forall i :: 0 <= i < |tries| ==> ValidTry(tries[i])
    ensures |b| == 8 * |tries|
  {
    if tries == [] then [] else RenderTries(tries[..|tries| - 1]) + RenderTry(tries[|tries| - 1])
  }

  function ReadTry(b: seq<Byte>): TryItem
    requires |b| == 8
  {
    TryItem(FromLe32(b[..4]), b[4] as int + b[5] as int * 0x100, b[6] as int + b[7] as int * 0x100)
  }

  lemma TryInverts(t: TryItem)
    requires ValidTry(t)
    ensures ReadTry(RenderTry(t)) == t
  {
    var b := RenderTry(t);
    assert b[..4] == Le32(t.startAddr);
    Le32RoundTrip(t.startAddr);
    assert b[4] == t.insnCount % 0x100 && b[5] == t.insnCount / 0x100;
    assert b[6] == t.handlerOff % 0x100 && b[7] == t.handlerOff / 0x100;
  }

  /** The tries are read back, each from its place. */
  lemma {:induction false} TriesInvert(tries: seq<TryItem>, i: nat)
    requires (forall i :: 0 <= i < |tries| ==> ValidTry(tries[i])) && i < |tries|
    ensures ReadTry(RenderTries(tries)[8 * i..8 * i + 8]) == tries[i]
    decreases |tries|
  {
    hide ReadTry, RenderTry, ValidTry;
    var n := |tries| - 1;
    var front, last := RenderTries(tries[..n]), RenderTry(tries[n]);
    if i == n {
      assert (front + last)[8 * i..8 * i + 8] == last;
      TryInverts(tries[n]);
    } else {
      assert (front + last)[8 * i..8 * i + 8] == front[8 * i..8 * i + 8];
      TriesInvert(tries[..n], i);
    }
  }

  /** The offset of each try is that of the handlers it was given. */
  method EncodeTries(tries: seq<TryItem>, list: seq<CatchHandler>, tryHandlers: seq<nat>) returns (b: seq<Byte>)
    requires |tryHandlers| == |tries| && forall i :: 0 <= i < |tries| ==> ValidTry(tries[i])
    requires forall i :: 0 <= i < |tries| ==>
               tryHandlers[i] < |list| && list[tryHandlers[i]].listOffset == tries[i].handlerOff
    ensures b == RenderTries(tries)
  {
    b := [];
    for i := 0 to |tries|
      invariant b == RenderTries(tries[..i])
    {
      assert tries[..i + 1][..i] == tries[..i];
      var handlers := list[tryHandlers[i]];
      b := b + (Le32(tries[i].startAddr) + Le16(tries[i].insnCount) + Le16(handlers.listOffset));
    }
    assert tries[..|tries|] == tries;
  }

  // --- Reading and writing ----------------------------------------------------------------------------

  lemma ListWritten(items: seq<Item>, tries: seq<Byte>, head: seq<Byte>, blocks: seq<Block>, d: seq<Byte>, p: nat)
    requires HasList(items, tries, head, blocks) && ItemsOk(items, d, p)
    ensures BlocksAt(d, items[1].offset, blocks, p) && HoldsAt(d, items[1].offset, head)
  {
    hide HoldsAt;
    forall i | 0 <= i < |blocks|
      ensures HoldsAt(d, items[1].offset + blocks[i].offset, blocks[i].bytes)
      ensures items[1].offset + blocks[i].End() <= p
    {
      assert items[i + 2] == Item(items[1].offset + blocks[i].offset, blocks[i].bytes, false);
    }
  }

  /** The list as the writer leaves it: the size and every entry in shortest form, at its old offset. */
  ghost predicate Rewritten(l: HandlerList, d: seq<Byte>, base: nat) {
    && HoldsAt(d, base, EncodeUnsigned(|l.handlers|))
    && forall k :: 0 <= k < |l.handlers| ==> HoldsAt(d, base + Offset(l, k), RenderHandler(Shortest(l.handlers[k])))
  }

  lemma IsRewritten(l: HandlerList, list: seq<CatchHandler>, d: seq<Byte>, base: nat, end: nat)
    requires ValidList(l) && Is16Bit(l) && Complete(l, list) && BlocksAt(d, base, BlocksOf(list), end)
    requires HoldsAt(d, base, EncodeUnsigned(|list|))
    ensures Rewritten(l, d, base)
  {
    hide HoldsAt, EncodeUnsigned, Offset, RenderHandler, Shortest, BlocksAt, BlocksOf, ValidList, Is16Bit;
    forall k: nat | k < |l.handlers|
      ensures HoldsAt(d, base + Offset(l, k), RenderHandler(Shortest(l.handlers[k])))
    {
      var i := BlockOfEntry(l, list, d, base, end, k);
    }
  }

  /**
   From the bytes of one code item to those of the next: the tries are written as they were, with the
   offsets of the handlers they were given, and at each offset, behind the new base, are the handlers
   that were there.
   */
  method RewriteHandlers(w: DataWriter, data: seq<Byte>, tries: seq<TryItem>, ghost l: HandlerList,
                         ghost rest: seq<Byte>)
    returns (ghost base: nat)
    requires w.Valid() && ValidList(l) && data == RenderList(l) + rest && Is16Bit(l)
    requires forall i :: 0 <= i < |tries| ==> ValidTry(tries[i]) && AtEntry(l, tries[i].handlerOff)
    modifies w, w.section, w.stream
    ensures w.Valid() && old(w.items) < w.items
    ensures var item := w.items[|old(w.items)|]; item.bytes == RenderTries(tries) && base == item.offset + 8 * |tries|
    ensures Rewritten(l, w.section.data, base)
    ensures forall k :: 0 <= k < |l.handlers| ==> HandlersAt(w.section.data, base + Offset(l, k), HandlersOf(l.handlers[k]))
  {
    hide *;
    var offsets := seq(|tries|, i requires 0 <= i < |tries| => tries[i].handlerOff);
    ShortListsDiffer(l);
    TriesFit(l, tries);
    var ended, list, tryHandlers := BuildHandlers(data, offsets, l, rest);
    ListSize(l, list);
    BlocksDisjoint(l, list);
    var tryItems := EncodeTries(tries, list, tryHandlers);
    var blocks := EncodeAll(list);
    ghost var n := |w.items|;
    w.WritePostInstructionData(tryItems, |list|, blocks);
    base := ListBase(w, n, tryItems, |list|, blocks);
    IsRewritten(l, list, w.section.data, base, w.stream.position);
    forall k: nat | k < |l.handlers|
      ensures HandlersAt(w.section.data, base + Offset(l, k), HandlersOf(l.handlers[k]))
    {
      LookupsPreserved(l, list, w.section.data, base, w.stream.position, k);
      IsHandlersAt(w.section.data, base + Offset(l, k), HandlersOf(l.handlers[k]));
    }
  }

  lemma TriesFit(l: HandlerList, tries: seq<TryItem>)
    requires forall i :: 0 <= i < |tries| ==> ValidTry(tries[i])
    ensures forall i :: 0 <= i < |tries| ==> tries[i].handlerOff < 0x1_0000
  {
  }

  ghost predicate HandlersAt(d: seq<Byte>, p: nat, handlers: seq<TypeAddr>) {
    p <= |d| && var r := ReadHandler(d[p..]); r.Some? && r.value.value == handlers
  }

  lemma IsHandlersAt(d: seq<Byte>, p: nat, handlers: seq<TypeAddr>)
    requires p <= |d| && ReadHandler(d[p..]).Some? && ReadHandler(d[p..]).value.value == handlers
    ensures HandlersAt(d, p, handlers)
  {
  }

  lemma ListSize(l: HandlerList, list: seq<CatchHandler>)
    requires ValidList(l) && Complete(l, list)
    ensures |list| == |l.handlers| < TWO_32
  {
  }

  lemma ListBase(w: DataWriter, n: nat, tries: seq<Byte>, handlers: nat, blocks: seq<Block>) returns (base: nat)
    requires w.Valid() && n <= |w.items| && HasList(w.items[n..], tries, EncodeUnsigned(handlers), blocks)
    ensures n < |w.items| && w.items[n].bytes == tries && base == w.items[n].offset + |tries|
    ensures HoldsAt(w.section.data, base, EncodeUnsigned(handlers))
    ensures BlocksAt(w.section.data, base, blocks, w.stream.position)
  {
    hide TableOk, SharedOk, HasList, BlocksAt;
    assert ItemsOk(w.items[n..], w.section.data, w.stream.position);
    ListWritten(w.items[n..], tries, EncodeUnsigned(handlers), blocks, w.section.data, w.stream.position);
    HasListLength(w.items[n..], tries, EncodeUnsigned(handlers), blocks);
    base := w.items[n..][1].offset;
  }

  lemma HasListLength(items: seq<Item>, tries: seq<Byte>, head: seq<Byte>, blocks: seq<Block>)
    requires HasList(items, tries, head, blocks)
    ensures |items| >= 2 && items[0].bytes == tries && items[1].offset == items[0].offset + |tries|
  {
  }

  // --- Reading the result again -------------------------------------------------------------------------

  /** The same entries at the same offsets. */
  ghost predicate SameList(l: HandlerList, l': HandlerList) {
    |l'.handlers| == |l.handlers| && forall k :: 0 <= k < |l.handlers| ==> CatchHandlers.Entry(l', k) == CatchHandlers.Entry(l, k)
  }

  /** The bytes are a list again, with the entries that were there: a second walk finds the same. */
  ghost predicate Rereads(l: HandlerList, d: seq<Byte>, base: nat) {
    exists l' :: ValidList(l') && SameList(l, l') && HoldsAt(d, base, RenderList(l'))
  }

  /** Nothing shrinks but the last entry, so that no gap is left. */
  ghost predicate Tight(l: HandlerList) {
    && (l.handlers != [] ==> l.head == EncodeUnsigned(|l.handlers|))
    && forall k :: 0 <= k < |l.handlers| - 1 ==> Shortest(l.handlers[k]) == l.handlers[k]
  }

  function ShortestList(l: HandlerList): (r: HandlerList)
    ensures |r.handlers| == |l.handlers|
    ensures forall k :: 0 <= k < |l.handlers| ==> r.handlers[k] == Shortest(l.handlers[k])
  {
    HandlerList(EncodeUnsigned(|l.handlers|), seq(|l.handlers|, k requires 0 <= k < |l.handlers| => Shortest(l.handlers[k])))
  }

  lemma ShortestListValid(l: HandlerList)
    requires ValidList(l)
    ensures ValidList(ShortestList(l))
  {
    EncodeUnsignedIsUleb(|l.handlers|);
    hide Shortest, ValidHandler, EncodeUnsigned, IsUleb;
    var r := ShortestList(l);
    forall e | e in r.handlers
      ensures ValidHandler(e)
    {
      var k :| 0 <= k < |r.handlers| && r.handlers[k] == e;
      assert ValidHandler(l.handlers[k]);
      ShortestKeeps(l.handlers[k]);
    }
  }

  lemma {:induction false} TightOffsets(l: HandlerList, k: nat)
    requires Tight(l) && k < |l.handlers|
    ensures Offset(ShortestList(l), k) == Offset(l, k)
  {
    hide RenderHandler, Shortest, EncodeUnsigned;
    if k > 0 {
      TightOffsets(l, k - 1);
    }
  }

  lemma TightEntry(l: HandlerList, d: seq<Byte>, base: nat, k: nat)
    requires ValidList(l) && Rewritten(l, d, base) && Tight(l) && k < |l.handlers|
    ensures var r := ShortestList(l);
            && HoldsAt(d, base + Offset(r, k), RenderHandler(r.handlers[k]))
            && CatchHandlers.Entry(r, k) == CatchHandlers.Entry(l, k)
  {
    hide *;
    RewrittenAt(l, d, base, k);
    TightOffsets(l, k);
    ShortestKeeps(l.handlers[k]);
    ShortestCatchAll(l.handlers[k]);
    NextOffset(l, k);
    NextOffset(ShortestList(l), k);
  }

  lemma RewrittenAt(l: HandlerList, d: seq<Byte>, base: nat, k: nat)
    requires ValidList(l) && Rewritten(l, d, base) && k < |l.handlers|
    ensures HoldsAt(d, base + Offset(l, k), RenderHandler(Shortest(l.handlers[k])))
    ensures ValidHandler(l.handlers[k])
  {
    hide HoldsAt, RenderHandler, Shortest, Offset, ValidHandler, EncodeUnsigned, IsUleb;
  }

  lemma RewrittenHead(l: HandlerList, d: seq<Byte>, base: nat)
    requires Rewritten(l, d, base)
    ensures HoldsAt(d, base, ShortestList(l).head)
  {
    hide HoldsAt, RenderHandler, Shortest, Offset, EncodeUnsigned;
  }

  lemma TightRereads(l: HandlerList, d: seq<Byte>, base: nat)
    requires ValidList(l) && Rewritten(l, d, base) && Tight(l)
    ensures Rereads(l, d, base)
  {
    hide *;
    var r := ShortestList(l);
    RewrittenHead(l, d, base);
    ShortestListValid(l);
    forall k: nat | k < |l.handlers|
      ensures HoldsAt(d, base + Offset(r, k), RenderHandler(r.handlers[k]))
      ensures CatchHandlers.Entry(r, k) == CatchHandlers.Entry(l, k)
    {
      TightEntry(l, d, base, k);
    }
    HandlersHeld(r, d, base, |r.handlers|);
    assert r.handlers[..|r.handlers|] == r.handlers;
    RereadsAs(l, r, d, base);
  }

  lemma RereadsAs(l: HandlerList, r: HandlerList, d: seq<Byte>, base: nat)
    requires ValidList(r) && HoldsAt(d, base, r.head + RenderHandlers(r.handlers)) && |r.handlers| == |l.handlers|
    requires forall k :: 0 <= k < |l.handlers| ==> CatchHandlers.Entry(r, k) == CatchHandlers.Entry(l, k)
    ensures Rereads(l, d, base)
  {
    hide ValidList, HoldsAt, CatchHandlers.Entry, RenderHandlers;
    assert HoldsAt(d, base, RenderList(r)) && SameList(l, r);
  }

  lemma ShortestCatchAll(e: Handler)
    ensures Shortest(e).all.Some? == e.all.Some?
  {
  }

  /** Reading says how long the size and each entry are, whichever list the bytes are taken for. */
  lemma SameHead(l: HandlerList, l': HandlerList, d: seq<Byte>, base: nat)
    requires ValidList(l) && ValidList(l') && Rewritten(l, d, base) && HoldsAt(d, base, RenderList(l'))
    requires |l'.handlers| == |l.handlers|
    ensures |l'.head| == |EncodeUnsigned(|l.handlers|)|
  {
    hide *;
    var n := |l.handlers|;
    HeadOf(l', d, base);
    HeadSize(l);
    RewrittenHead(l, d, base);
    EncodeUnsignedIsUleb(n);
    HeldNumber(d, base, l'.head, n);
    HeldNumber(d, base, EncodeUnsigned(n), n);
  }

  lemma HeadOf(l: HandlerList, d: seq<Byte>, base: nat)
    requires ValidList(l) && HoldsAt(d, base, RenderList(l))
    ensures HoldsAt(d, base, l.head) && IsUleb(l.head, |l.handlers|)
  {
    hide IsUleb, RenderHandlers;
    assert d[base..base + |l.head|] == RenderList(l)[..|l.head|];
  }

  lemma HeadSize(l: HandlerList)
    requires ValidList(l)
    ensures |l.handlers| < TWO_32 && ShortestList(l).head == EncodeUnsigned(|l.handlers|)
  {
  }

  /** What is read where a number is held. */
  lemma HeldNumber(d: seq<Byte>, p: nat, b: seq<Byte>, n: nat)
    requires HoldsAt(d, p, b) && IsUleb(b, n)
    ensures p <= |d| && DecodeUnsigned(d[p..]) == Some(Read(n, |b|))
  {
    assert d[p..] == b + d[p + |b|..];
    DecodeUnsignedInverts(b, n, d[p + |b|..]);
  }

  /** The size of the entry that is read at the offset of entry `k`. */
  lemma EntryReadIn(l: HandlerList, d: seq<Byte>, base: nat, k: nat)
    requires ValidList(l) && HoldsAt(d, base, RenderList(l)) && k < |l.handlers|
    ensures base + Offset(l, k) <= |d|
    ensures ReadHandler(d[base + Offset(l, k)..]) == Some(Read(HandlersOf(l.handlers[k]), |RenderHandler(l.handlers[k])|))
  {
    hide ReadHandler, RenderHandler, HandlersOf, Offset, ValidList, RenderList;
    var after := d[base + |RenderList(l)|..];
    assert d[base..] == RenderList(l) + after;
    ReadEntry(l, after, k);
    DropDrop(d, base, Offset(l, k));
  }

  lemma EntryReadAfter(l: HandlerList, d: seq<Byte>, base: nat, k: nat)
    requires ValidList(l) && Rewritten(l, d, base) && k < |l.handlers|
    ensures base + Offset(l, k) <= |d|
    ensures var e := Shortest(l.handlers[k]);
            ReadHandler(d[base + Offset(l, k)..]) == Some(Read(HandlersOf(e), |RenderHandler(e)|))
    ensures |RenderHandler(Shortest(l.handlers[k]))| <= |RenderHandler(l.handlers[k])|
  {
    hide *;
    RewrittenAt(l, d, base, k);
    ShortestKeeps(l.handlers[k]);
    HandlerRead(d, base + Offset(l, k), Shortest(l.handlers[k]));
    HeldWithin(d, base + Offset(l, k), RenderHandler(Shortest(l.handlers[k])));
  }

  lemma HeldWithin(d: seq<Byte>, p: nat, b: seq<Byte>)
    requires HoldsAt(d, p, b)
    ensures p <= |d|
  {
  }

  lemma SameLow(l: HandlerList, l': HandlerList, k: nat)
    requires SameList(l, l') && Is16Bit(l) && k < |l.handlers|
    ensures |l'.handlers| == |l.handlers| && Low(l', k) == Offset(l, k) < 0x1_0000
  {
    hide Offset, HandlersOf;
    LowIsOffset(l, k);
    assert CatchHandlers.Entry(l', k) == CatchHandlers.Entry(l, k);
  }

  /** A list that is read again has lost nothing in front of its last entry. */
  lemma {:induction false} RereadOffsets(l: HandlerList, l': HandlerList, d: seq<Byte>, base: nat, k: nat)
    requires ValidList(l) && Is16Bit(l) && Rewritten(l, d, base)
    requires ValidList(l') && SameList(l, l') && HoldsAt(d, base, RenderList(l')) && k < |l.handlers|
    ensures k < |l'.handlers| && Offset(l', k) == Offset(l, k)
    ensures k == 0 ==> |l.head| == |EncodeUnsigned(|l.handlers|)|
    ensures k > 0 ==> |RenderHandler(Shortest(l.handlers[k - 1]))| == |RenderHandler(l.handlers[k - 1])|
  {
    hide *;
    SameLow(l, l', k);
    if k == 0 {
      SameHead(l, l', d, base);
      HeadIsFirst(l);
      HeadIsFirst(l');
      LowIsOffset(l', 0);
    } else {
      RereadOffsets(l, l', d, base, k - 1);
      EntryReadIn(l', d, base, k - 1);
      EntryReadAfter(l, d, base, k - 1);
      NextOffset(l, k - 1);
      NextOffset(l', k - 1);
      LowIsOffset(l', k);
    }
  }

  lemma HeadIsFirst(l: HandlerList)
    requires ValidList(l)
    ensures Offset(l, 0) == |l.head| <= 5
  {
  }

  // --- Shortest forms are the only ones of their length ---------------------------------------------------

  lemma SameLengthPair(p: Pair)
    requires ValidPair(p)
    requires |p.typeIdx| + |p.addr| <= |ShortestPair(p).typeIdx| + |ShortestPair(p).addr|
    ensures ShortestPair(p) == p
  {
    ShortestPairKeeps(p);
    UniqueUnsigned(p.typeIdx);
    UniqueUnsigned(p.addr);
  }

  lemma {:induction false} SameLengthPairs(ps: seq<Pair>)
    requires forall p :: p in ps ==> ValidPair(p)
    requires |RenderPairs(ps)| <= |RenderPairs(ShortestPairs(ps))|
    ensures ShortestPairs(ps) == ps
    decreases |ps|
  {
    if ps != [] {
      ShortestPairKeeps(ps[0]);
      ShortestPairsKeep(ps[1..]);
      hide ShortestPair, ValidPair;
      assert ShortestPairs(ps)[1..] == ShortestPairs(ps[1..]);
      SameLengthPair(ps[0]);
      SameLengthPairs(ps[1..]);
    }
  }

  lemma SameLengthHandler(e: Handler)
    requires ValidHandler(e)
    ensures |RenderHandler(Shortest(e))| == |RenderHandler(e)| <==> Shortest(e) == e
  {
    hide EncodeSigned, EncodeUnsigned, IsNumber, IsSleb, UnsignedValue, SignedValue, PairsOf, RenderPairs;
    hide ShortestPairs, ValidPair;
    if |RenderHandler(Shortest(e))| == |RenderHandler(e)| {
      var n := if e.all.Some? then 0 - |e.pairs| else |e.pairs|;
      ShortestSigned(e.size, n);
      ShortestPairsKeep(e.pairs);
      if e.all.Some? {
        ShortestNumber(e.all.value);
        UniqueNumber(e.all.value);
      }
      UniqueSigned(e.size, n);
      SameLengthPairs(e.pairs);
    }
  }

  lemma UniqueNumber(b: seq<Byte>)
    requires IsNumber(b)
    ensures |b| <= |EncodeUnsigned(UnsignedValue(b))| ==> b == EncodeUnsigned(UnsignedValue(b))
  {
    if |b| <= |EncodeUnsigned(UnsignedValue(b))| {
      UniqueUnsigned(b);
    }
  }

  /**
   What the writer leaves is a list with the same entries at the same offsets if and only if the size and
   every entry but the last were in shortest form: an entry that shrinks leaves zeros behind, which the
   next walk takes for an entry.
   */
  lemma RereadsExactly(l: HandlerList, d: seq<Byte>, base: nat)
    requires ValidList(l) && Is16Bit(l) && Rewritten(l, d, base)
    ensures Rereads(l, d, base) <==> Tight(l)
  {
    if Tight(l) {
      TightRereads(l, d, base);
    }
    if Rereads(l, d, base) {
      var l' :| ValidList(l') && SameList(l, l') && HoldsAt(d, base, RenderList(l'));
      hide Offset, RenderHandler, Shortest, EncodeUnsigned, RenderList, HoldsAt, SameList, Is16Bit, Rewritten, Rereads;
      if l.handlers != [] {
        RereadOffsets(l, l', d, base, 0);
        UniqueHead(l);
      }
      forall k: nat | k < |l.handlers| - 1
        ensures Shortest(l.handlers[k]) == l.handlers[k]
      {
        RereadOffsets(l, l', d, base, k + 1);
        assert ValidHandler(l.handlers[k]);
        SameLengthHandler(l.handlers[k]);
      }
    }
  }

  lemma UniqueHead(l: HandlerList)
    requires ValidList(l) && |l.head| == |EncodeUnsigned(|l.handlers|)|
    ensures l.head == EncodeUnsigned(|l.handlers|)
  {
    UniqueUnsigned(l.head);
  }

  /** Two entries, the first in a longer form than needed. */
  function LooseList(): HandlerList {
    HandlerList([2], [Handler([0x81, 0], [Pair([0], [0])], None), Handler([1], [Pair([0], [5])], None)])
  }

  /** What a walk over the rewritten list takes it for: the gap is a handler for everything. */
  function GapList(): HandlerList {
    HandlerList([2], [Handler([1], [Pair([0], [0])], None), Handler([0], [], Some([1]))])
  }

  lemma SmallNumbers()
    ensures IsUleb([2], 2) && IsUleb([0], 0) && IsUleb([1], 1) && IsUleb([5], 5)
    ensures IsSleb([0], 0) && IsSleb([1], 1) && IsSleb([0x81, 0], 1)
    ensures EncodeSigned(1) == [1] && EncodeUnsigned(0) == [0] && EncodeUnsigned(2) == [2] && EncodeUnsigned(5) == [5]
  {
    assert [0x81, 0][1..] == [0] && [0][1..] == [] && [1][1..] == [] && [2][1..] == [] && [5][1..] == [];
    assert SignedValue([0]) == 0 && SignedValue([0x81, 0]) == 1 && SignedValue([1]) == 1;
    assert UnsignedValue([0]) == 0 && UnsignedValue([1]) == 1 && UnsignedValue([2]) == 2 && UnsignedValue([5]) == 5;
  }

  lemma OnePair(p: Pair)
    ensures RenderPairs([p]) == p.typeIdx + p.addr && RenderPairs([]) == [] && ShortestPairs([p]) == [ShortestPair(p)]
    ensures PairsOf([p]) == [TypeAddr(Some(UnsignedValue(p.typeIdx)), UnsignedValue(p.addr))] && PairsOf([]) == []
  {
    assert [p][1..] == [];
    assert p.addr + [] == p.addr;
  }

  lemma LooseBytes()
    ensures RenderHandler(Shortest(LooseList().handlers[0])) == [1, 0, 0]
    ensures RenderHandler(Shortest(LooseList().handlers[1])) == [1, 0, 5]
    ensures Offset(LooseList(), 0) == 1 && Offset(LooseList(), 1) == 5
    ensures RenderList(GapList()) == [2, 1, 0, 0, 0, 1]
  {
    SmallNumbers();
    hide EncodeUnsigned, EncodeSigned, RenderPairs, ShortestPairs;
    OnePair(Pair([0], [0]));
    OnePair(Pair([0], [5]));
    var g := GapList();
    assert RenderHandler(g.handlers[0]) == [1, 0, 0] && RenderHandler(g.handlers[1]) == [0, 1];
    assert g.handlers[1..] == [g.handlers[1]] && g.handlers[1..][1..] == [];
    assert RenderHandlers(g.handlers[1..]) == [0, 1] + [];
    assert |RenderHandler(LooseList().handlers[0])| == 4;
  }

  /** The second entry is not found again: the first shrinks, and the gap counts as an entry. */
  lemma GapHidesEntry()
    ensures var l, g, d := LooseList(), GapList(), [2, 1, 0, 0, 0, 1, 0, 5];
            && ValidList(l) && Is16Bit(l) && !Tight(l) && Rewritten(l, d, 0)
            && ValidList(g) && d == RenderList(g) + [0, 5] && HandlersOf(g.handlers[1]) != HandlersOf(l.handlers[1])
  {
    SmallNumbers();
    LooseBytes();
    hide EncodeUnsigned, EncodeSigned, RenderPairs, ShortestPairs, RenderList, RenderHandler, Offset, IsUleb, IsSleb;
    hide PairsOf;
    OnePair(Pair([0], [5]));
    var l, g, d := LooseList(), GapList(), [2, 1, 0, 0, 0, 1, 0, 5];
    assert ValidPair(Pair([0], [0])) && ValidPair(Pair([0], [5]));
    assert d[0..1] == [2] && d[1..4] == [1, 0, 0] && d[5..8] == [1, 0, 5];
    assert Shortest(l.handlers[0]).size != l.handlers[0].size;
    assert HandlersOf(g.handlers[1])[0].typeIdx.None? && HandlersOf(l.handlers[1])[0].typeIdx.Some?;
  }
}
