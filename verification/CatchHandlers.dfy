/**
 The list of catch handlers of a code item: the builder that collects it from the tries and from a
 walk over its bytes (dexlayout/dex_ir_builder.cc), and the writer that puts it back at the same
 offsets (dexlayout/dex_writer.cc).

 The format is the encoded_catch_handler_list of the Dalvik Executable format specification.
 */
module CatchHandlers {
  import opened Bytes
  import opened Leb128
  import opened DexStream
  import opened DataSection
  import opened Wrappers

  // --- The format -----------------------------------------------------------------------------------

  datatype Pair = Pair(typeIdx: seq<Byte>, addr: seq<Byte>)

  /** One encoded_catch_handler as it is laid out; `all` is the address of the catch-all handler. */
  datatype Handler = Handler(size: seq<Byte>, pairs: seq<Pair>, all: Option<seq<Byte>>)

  datatype HandlerList = HandlerList(head: seq<Byte>, handlers: seq<Handler>)

  const NO_INDEX := 0xFFFF

  predicate IsNumber(b: seq<Byte>) {
    IsUleb(b, UnsignedValue(b))
  }

  predicate ValidPair(p: Pair) {
    IsNumber(p.typeIdx) && UnsignedValue(p.typeIdx) < NO_INDEX && IsNumber(p.addr)
  }

  /** The size is negated when a catch-all handler follows. */
  predicate ValidHandler(e: Handler) {
    && IsSleb(e.size, if e.all.Some? then 0 - |e.pairs| else |e.pairs|)
    && (e.all.Some? || e.pairs != [])
    && (forall p :: p in e.pairs ==> ValidPair(p))
    && (e.all.Some? ==> IsNumber(e.all.value))
  }

  predicate ValidList(l: HandlerList) {
    IsUleb(l.head, |l.handlers|) && forall e :: e in l.handlers ==> ValidHandler(e)
  }

  function RenderPairs(ps: seq<Pair>): seq<Byte> {
    if ps == [] then [] else ps[0].typeIdx + (ps[0].addr + RenderPairs(ps[1..]))
  }

  function RenderHandler(e: Handler): seq<Byte> {
    e.size + (RenderPairs(e.pairs) + if e.all.Some? then e.all.value else [])
  }

  function RenderHandlers(es: seq<Handler>): seq<Byte> {
    if es == [] then [] else RenderHandler(es[0]) + RenderHandlers(es[1..])
  }

  function RenderList(l: HandlerList): seq<Byte> {
    l.head + RenderHandlers(l.handlers)
  }

  /** No type stands for every type. */
  datatype TypeAddr = TypeAddr(typeIdx: Option<nat>, addr: nat)

  function PairsOf(ps: seq<Pair>): (r: seq<TypeAddr>)
    ensures |r| == |ps|
  {
    if ps == [] then []
    else [TypeAddr(Some(UnsignedValue(ps[0].typeIdx)), UnsignedValue(ps[0].addr))] + PairsOf(ps[1..])
  }

  function HandlersOf(e: Handler): seq<TypeAddr> {
    PairsOf(e.pairs) + if e.all.Some? then [TypeAddr(None, UnsignedValue(e.all.value))] else []
  }

  // --- Reading one entry ----------------------------------------------------------------------------

  /** Type indices are 16 bits wide, the last of them meaning none. */
  function TypeOf(n: nat): Option<nat> {
    if n % 0x1_0000 == NO_INDEX then None else Some(n % 0x1_0000)
  }

  function ReadPairs(s: seq<Byte>, n: nat): (r: Option<Read<seq<TypeAddr>>>)
    ensures r.Some? ==> r.value.size <= |s|
    decreases n
  {
    if n == 0 then Some(Read([], 0))
    else
      var first := ReadPair(s);
      if first.None? then None
      else
        var others := ReadPairs(s[first.value.size..], n - 1);
        if others.None? then None
        else Some(Read([first.value.value] + others.value.value, first.value.size + others.value.size))
  }

  function ReadPair(s: seq<Byte>): (r: Option<Read<TypeAddr>>)
    ensures r.Some? ==> r.value.size <= |s|
  {
    var typeIdx := DecodeUnsigned(s);
    if typeIdx.None? then None
    else
      var addr := DecodeUnsigned(s[typeIdx.value.size..]);
      if addr.None? then None
      else Some(Read(TypeAddr(TypeOf(typeIdx.value.value), addr.value.value), typeIdx.value.size + addr.value.size))
  }

  function ReadHandler(s: seq<Byte>): (r: Option<Read<seq<TypeAddr>>>)
    ensures r.Some? ==> r.value.size <= |s|
  {
    var size := DecodeSigned(s);
    if size.None? then None
    else
      var n := size.value.value;
      var pairs := ReadPairs(s[size.value.size..], if n <= 0 then 0 - n else n);
      if pairs.None? then None
      else ReadRest(s, n <= 0, size.value.size + pairs.value.size, pairs.value.value)
  }

  function ReadRest(s: seq<Byte>, catchAll: bool, used: nat, pairs: seq<TypeAddr>): (r: Option<Read<seq<TypeAddr>>>)
    requires used <= |s|
    ensures r.Some? ==> r.value.size <= |s|
  {
    if !catchAll then Some(Read(pairs, used))
    else
      var all := DecodeUnsigned(s[used..]);
      if all.None? then None else Some(Read(pairs + [TypeAddr(None, all.value.value)], used + all.value.size))
  }

  lemma PairInverts(p: Pair, rest: seq<Byte>)
    requires ValidPair(p)
    ensures ReadPair(p.typeIdx + (p.addr + rest)) ==
            Some(Read(TypeAddr(Some(UnsignedValue(p.typeIdx)), UnsignedValue(p.addr)), |p.typeIdx| + |p.addr|))
  {
    hide DecodeUnsigned, IsUleb, UnsignedValue;
    DecodeUnsignedInverts(p.typeIdx, UnsignedValue(p.typeIdx), p.addr + rest);
    Afterwards(p.typeIdx, p.addr + rest);
    DecodeUnsignedInverts(p.addr, UnsignedValue(p.addr), rest);
  }

  lemma {:induction false} PairsInvert(ps: seq<Pair>, rest: seq<Byte>)
    requires forall p :: p in ps ==> ValidPair(p)
    ensures ReadPairs(RenderPairs(ps) + rest, |ps|) == Some(Read(PairsOf(ps), |RenderPairs(ps)|))
    decreases |ps|
  {
    hide ReadPairs, RenderPairs, PairsOf, ValidPair;
    if ps == [] {
      PairsInvertNone(rest);
    } else {
      PairsInvert(ps[1..], rest);
      PairsInvertCons(ps[0], ps[1..], rest);
      assert [ps[0]] + ps[1..] == ps;
    }
  }

  lemma PairsInvertNone(rest: seq<Byte>)
    ensures ReadPairs(RenderPairs([]) + rest, 0) == Some(Read(PairsOf([]), |RenderPairs([])|))
  {
  }

  lemma PairsCons(p: Pair, others: seq<Pair>)
    ensures RenderPairs([p] + others) == p.typeIdx + (p.addr + RenderPairs(others))
    ensures PairsOf([p] + others) ==
            [TypeAddr(Some(UnsignedValue(p.typeIdx)), UnsignedValue(p.addr))] + PairsOf(others)
  {
    assert ([p] + others)[1..] == others;
  }

  lemma PairsInvertCons(p: Pair, others: seq<Pair>, rest: seq<Byte>)
    requires ValidPair(p)
    requires ReadPairs(RenderPairs(others) + rest, |others|) == Some(Read(PairsOf(others), |RenderPairs(others)|))
    ensures ReadPairs(RenderPairs([p] + others) + rest, |others| + 1) ==
            Some(Read(PairsOf([p] + others), |RenderPairs([p] + others)|))
  {
    hide *;
    var ps, all := [p] + others, RenderPairs(others);
    var first := TypeAddr(Some(UnsignedValue(p.typeIdx)), UnsignedValue(p.addr));
    PairsCons(p, others);
    Regroup(p.addr, all, rest);
    Regroup(p.typeIdx, p.addr + all, rest);
    Regroup(p.typeIdx, p.addr, all + rest);
    Afterwards(p.typeIdx + p.addr, all + rest);
    PairInverts(p, all + rest);
    ReadPairsStep(RenderPairs(ps) + rest, Read(first, |p.typeIdx| + |p.addr|), |others|, Read(PairsOf(others), |all|));
  }

  lemma ReadPairsStep(s: seq<Byte>, first: Read<TypeAddr>, n: nat, others: Read<seq<TypeAddr>>)
    requires ReadPair(s) == Some(first) && ReadPairs(s[first.size..], n) == Some(others)
    ensures ReadPairs(s, n + 1) == Some(Read([first.value] + others.value, first.size + others.size))
  {
    hide ReadPair;
  }

  /** Reading an entry gives its handlers and takes exactly its bytes, whatever follows. */
  lemma HandlerInverts(e: Handler, rest: seq<Byte>)
    requires ValidHandler(e)
    ensures ReadHandler(RenderHandler(e) + rest) == Some(Read(HandlersOf(e), |RenderHandler(e)|))
  {
    hide DecodeSigned, DecodeUnsigned, IsSleb, IsUleb, UnsignedValue, ReadPairs, RenderPairs, PairsOf;
    var all := if e.all.Some? then e.all.value else [];
    var pairs := RenderPairs(e.pairs);
    var n := if e.all.Some? then 0 - |e.pairs| else |e.pairs|;
    var s := RenderHandler(e) + rest;
    Regroup(pairs, all, rest);
    Regroup(e.size, pairs + all, rest);
    assert s == e.size + (pairs + (all + rest));
    DecodeSignedInverts(e.size, n, pairs + (all + rest));
    Afterwards(e.size, pairs + (all + rest));
    PairsInvert(e.pairs, all + rest);
    Regroup(e.size, pairs, all + rest);
    Afterwards(e.size + pairs, all + rest);
    if e.all.Some? {
      DecodeUnsignedInverts(all, UnsignedValue(all), rest);
    } else {
      assert HandlersOf(e) == PairsOf(e.pairs) && pairs + all == pairs;
    }
  }

  // --- Where the entries lie ------------------------------------------------------------------------

  /** The offset of entry `k` from the start of the list. */
  function Offset(l: HandlerList, k: nat): nat
    requires k <= |l.handlers|
  {
    if k == 0 then |l.head| else Offset(l, k - 1) + |RenderHandler(l.handlers[k - 1])|
  }

  lemma {:induction false} OffsetIncreases(l: HandlerList, j: nat, k: nat)
    requires ValidList(l) && j < k <= |l.handlers|
    ensures Offset(l, j) + |RenderHandler(l.handlers[j])| <= Offset(l, k)
    ensures Offset(l, j) < Offset(l, k)
    decreases k
  {
    assert ValidHandler(l.handlers[j]) && |l.handlers[j].size| >= 1;
    if j < k - 1 {
      OffsetIncreases(l, j, k - 1);
    }
  }

  lemma {:induction false} EntryAt(l: HandlerList, rest: seq<Byte>, k: nat)
    requires k <= |l.handlers|
    ensures Offset(l, k) <= |RenderList(l)|
    ensures (RenderList(l) + rest)[Offset(l, k)..] == RenderHandlers(l.handlers[k..]) + rest
    decreases k
  {
    if k == 0 {
      assert l.handlers[0..] == l.handlers;
      Regroup(l.head, RenderHandlers(l.handlers), rest);
      Afterwards(l.head, RenderHandlers(l.handlers) + rest);
    } else {
      EntryAt(l, rest, k - 1);
      var s, p, tail := RenderList(l) + rest, Offset(l, k - 1), l.handlers[k - 1..];
      var b := RenderHandler(tail[0]);
      assert tail[1..] == l.handlers[k..];
      Regroup(b, RenderHandlers(tail[1..]), rest);
      Afterwards(b, RenderHandlers(tail[1..]) + rest);
      assert s[p..][|b|..] == s[p + |b|..];
    }
  }

  lemma ReadEntry(l: HandlerList, rest: seq<Byte>, k: nat)
    requires ValidList(l) && k < |l.handlers|
    ensures Offset(l, k) <= |RenderList(l) + rest|
    ensures ReadHandler((RenderList(l) + rest)[Offset(l, k)..]) ==
            Some(Read(HandlersOf(l.handlers[k]), |RenderHandler(l.handlers[k])|))
  {
    hide ReadHandler, RenderHandler, HandlersOf, ValidHandler;
    EntryAt(l, rest, k);
    var tail := l.handlers[k..];
    Regroup(RenderHandler(tail[0]), RenderHandlers(tail[1..]), rest);
    HandlerInverts(tail[0], RenderHandlers(tail[1..]) + rest);
  }

  // --- The builder ----------------------------------------------------------------------------------

  datatype CatchHandler = CatchHandler(catchAll: bool, listOffset: nat, handlers: seq<TypeAddr>)

  /** A handler keeps 16 bits of its offset. */
  function Low(l: HandlerList, k: nat): nat
    requires k < |l.handlers|
  {
    Offset(l, k) % 0x1_0000
  }

  /** Entry `k` of the list in the builder's terms. */
  function Entry(l: HandlerList, k: nat): CatchHandler
    requires k < |l.handlers|
  {
    CatchHandler(l.handlers[k].all.Some?, Low(l, k), HandlersOf(l.handlers[k]))
  }

  /** The pairs still to be read, `pairs` of them having been read from the first `used` bytes. */
  ghost predicate PairsLeft(s: seq<Byte>, n: nat, pairs: seq<TypeAddr>, used: nat) {
    && used <= |s| && |pairs| <= n && ReadPairs(s, n).Some?
    && var others := ReadPairs(s[used..], n - |pairs|);
       others.Some? && ReadPairs(s, n).value == Read(pairs + others.value.value, used + others.value.size)
  }

  lemma PairsLeftStart(s: seq<Byte>, n: nat)
    requires ReadPairs(s, n).Some?
    ensures PairsLeft(s, n, [], 0)
  {
    hide ReadPairs;
    assert s[0..] == s;
    var all := ReadPairs(s, n).value;
    assert [] + all.value == all.value;
  }

  lemma PairsLeftStep(s: seq<Byte>, n: nat, pairs: seq<TypeAddr>, used: nat)
    requires PairsLeft(s, n, pairs, used) && |pairs| < n
    ensures ReadPair(s[used..]).Some?
    ensures var first := ReadPair(s[used..]).value; PairsLeft(s, n, pairs + [first.value], used + first.size)
  {
    hide ReadPair;
    var first := ReadPair(s[used..]).value;
    assert s[used..][first.size..] == s[used + first.size..];
    var others := ReadPairs(s[used + first.size..], n - |pairs| - 1).value;
    assert pairs + ([first.value] + others.value) == (pairs + [first.value]) + others.value;
  }

  lemma PairsLeftEnd(s: seq<Byte>, n: nat, pairs: seq<TypeAddr>, used: nat)
    requires PairsLeft(s, n, pairs, used) && |pairs| == n
    ensures ReadPairs(s, n) == Some(Read(pairs, used))
  {
    assert pairs + [] == pairs;
  }

  method DecodePair(data: seq<Byte>, cursor: nat) returns (pair: TypeAddr, cursor': nat)
    requires cursor <= |data| && ReadPair(data[cursor..]).Some?
    ensures cursor <= cursor' <= |data|
    ensures ReadPair(data[cursor..]) == Some(Read(pair, cursor' - cursor))
  {
    var typeIdx, addr;
    hide DecodeUnsigned;
    typeIdx, cursor' := DecodeUnsignedLeb128(data, cursor);
    assert data[cursor..][cursor' - cursor..] == data[cursor'..];
    addr, cursor' := DecodeUnsignedLeb128(data, cursor');
    pair := TypeAddr(TypeOf(typeIdx), addr);
  }

  method DecodePairs(data: seq<Byte>, cursor: nat, n: nat) returns (pairs: seq<TypeAddr>, cursor': nat)
    requires cursor <= |data| && ReadPairs(data[cursor..], n).Some?
    ensures cursor <= cursor' <= |data|
    ensures ReadPairs(data[cursor..], n) == Some(Read(pairs, cursor' - cursor))
  {
    hide ReadPairs, ReadPair, PairsLeft;
    ghost var s := data[cursor..];
    PairsLeftStart(s, n);
    pairs, cursor' := [], cursor;
    for i := 0 to n
      invariant cursor <= cursor' <= |data| && |pairs| == i
      invariant PairsLeft(s, n, pairs, cursor' - cursor)
    {
      PairsLeftStep(s, n, pairs, cursor' - cursor);
      assert s[cursor' - cursor..] == data[cursor'..];
      var pair;
      pair, cursor' := DecodePair(data, cursor');
      pairs := pairs + [pair];
    }
    PairsLeftEnd(s, n, pairs, cursor' - cursor);
  }

  method DecodeHandler(data: seq<Byte>, cursor: nat) returns (catchAll: bool, pairs: seq<TypeAddr>, cursor': nat)
    requires cursor <= |data| && ReadHandler(data[cursor..]).Some?
    ensures cursor <= cursor' <= |data|
    ensures ReadHandler(data[cursor..]) == Some(Read(pairs, cursor' - cursor))
    ensures DecodeSigned(data[cursor..]).Some? && catchAll == (DecodeSigned(data[cursor..]).value.value <= 0)
  {
    hide DecodeSigned, DecodeUnsigned, ReadPairs;
    var size;
    size, cursor' := DecodeSignedLeb128(data, cursor);
    assert data[cursor..][cursor' - cursor..] == data[cursor'..];
    catchAll := size <= 0;
    if catchAll {
      size := 0 - size;
    }
    pairs, cursor' := DecodePairs(data, cursor', size);
    if catchAll {
      assert data[cursor..][cursor' - cursor..] == data[cursor'..];
      var addr;
      addr, cursor' := DecodeUnsignedLeb128(data, cursor');
      pairs := pairs + [TypeAddr(None, addr)];
    }
  }

  lemma EntrySize(l: HandlerList, rest: seq<Byte>, k: nat)
    requires ValidList(l) && k < |l.handlers| && Offset(l, k) <= |RenderList(l) + rest|
    ensures var size := DecodeSigned((RenderList(l) + rest)[Offset(l, k)..]);
            size.Some? && (size.value.value <= 0 <==> l.handlers[k].all.Some?)
  {
    hide DecodeSigned;
    EntryAt(l, rest, k);
    var tail := l.handlers[k..];
    var e := tail[0];
    var behind := RenderPairs(e.pairs) + if e.all.Some? then e.all.value else [];
    assert l.handlers[k] == e && ValidHandler(e);
    Regroup(e.size, behind, RenderHandlers(tail[1..]));
    Regroup(e.size, behind + RenderHandlers(tail[1..]), rest);
    DecodeSignedInverts(e.size, if e.all.Some? then 0 - |e.pairs| else |e.pairs|, behind + RenderHandlers(tail[1..]) + rest);
  }

  /** Some handler is for every type. */
  ghost predicate AnyCatchAll(pairs: seq<TypeAddr>) {
    exists p :: p in pairs && p.typeIdx == None
  }

  lemma {:induction false} PairsHaveTypes(ps: seq<Pair>)
    ensures !AnyCatchAll(PairsOf(ps))
  {
    if ps != [] {
      PairsHaveTypes(ps[1..]);
    }
  }

  lemma EntryCatchAll(e: Handler)
    ensures AnyCatchAll(HandlersOf(e)) <==> e.all.Some?
  {
    PairsHaveTypes(e.pairs);
    if e.all.Some? {
      assert TypeAddr(None, UnsignedValue(e.all.value)) in HandlersOf(e);
    } else {
      assert HandlersOf(e) == PairsOf(e.pairs);
    }
  }

  method HasCatchAll(pairs: seq<TypeAddr>) returns (catchAll: bool)
    ensures catchAll <==> AnyCatchAll(pairs)
  {
    catchAll := false;
    for i := 0 to |pairs|
      invariant catchAll <==> AnyCatchAll(pairs[..i])
    {
      assert pairs[..i + 1] == pairs[..i] + [pairs[i]];
      assert AnyCatchAll(pairs[..i + 1]) <==> AnyCatchAll(pairs[..i]) || pairs[i].typeIdx == None by {
        assert pairs[i] in pairs[..i + 1];
        assert forall p :: p in pairs[..i + 1] <==> p in pairs[..i] || p == pairs[i];
      }
      catchAll := catchAll || pairs[i].typeIdx == None;
    }
    assert pairs[..|pairs|] == pairs;
  }

  method FindHandlers(list: seq<CatchHandler>, handlerOff: nat) returns (i: nat)
    ensures i <= |list|
    ensures i < |list| ==> list[i].listOffset == handlerOff
    ensures i == |list| ==> forall j :: 0 <= j < |list| ==> list[j].listOffset != handlerOff
  {
    i := 0;
    while i < |list|
      invariant 0 <= i <= |list|
      invariant forall j :: 0 <= j < i ==> list[j].listOffset != handlerOff
    {
      if list[i].listOffset == handlerOff {
        return;
      }
      i := i + 1;
    }
  }

  /** The list so far holds the entries `which`, no two at the same 16-bit offset. */
  ghost predicate Listed(l: HandlerList, list: seq<CatchHandler>, which: seq<nat>) {
    && |list| == |which|
    && (forall i :: 0 <= i < |which| ==> which[i] < |l.handlers| && list[i] == Entry(l, which[i]))
    && (forall i, j :: 0 <= i < j < |which| ==> list[i].listOffset != list[j].listOffset)
  }

  lemma ListedMore(l: HandlerList, list: seq<CatchHandler>, which: seq<nat>, k: nat)
    requires Listed(l, list, which) && k < |l.handlers|
    requires forall j :: 0 <= j < |list| ==> list[j].listOffset != Low(l, k)
    ensures Listed(l, list + [Entry(l, k)], which + [k])
  {
    hide Low, HandlersOf;
  }

  ghost function OffsetsOf(list: seq<CatchHandler>): set<nat> {
    set i | 0 <= i < |list| :: list[i].listOffset
  }

  /** The 16-bit offsets of the first `n` entries. */
  ghost function Lows(l: HandlerList, n: nat): set<nat>
    requires n <= |l.handlers|
  {
    set k | 0 <= k < n :: Low(l, k)
  }

  lemma OffsetsMore(list: seq<CatchHandler>, h: CatchHandler)
    ensures OffsetsOf(list + [h]) == OffsetsOf(list) + {h.listOffset}
  {
    var more := list + [h];
    assert more[|list|] == h;
    assert forall i :: 0 <= i < |list| ==> more[i] == list[i];
  }

  function Below(n: nat): (r: set<nat>)
    ensures |r| == n && forall k :: k in r <==> 0 <= k < n
  {
    if n == 0 then {} else Below(n - 1) + {n - 1}
  }

  ghost function Elems(s: seq<nat>): set<nat> {
    set x | x in s
  }

  lemma {:induction false} ElemsSize(s: seq<nat>)
    ensures |Elems(s)| <= |s|
    ensures (forall i, j :: 0 <= i < j < |s| ==> s[i] != s[j]) ==> |Elems(s)| == |s|
  {
    if s != [] {
      var front, last := s[..|s| - 1], s[|s| - 1];
      ElemsSize(front);
      assert s == front + [last];
      assert Elems(s) == Elems(front) + {last};
    }
  }

  lemma {:induction false} SubsetSize(a: set<nat>, b: set<nat>)
    requires a <= b
    ensures |a| <= |b| && (|a| == |b| ==> a == b)
  {
    if a == {} {
      assert |b| == 0 ==> b == {};
    } else {
      var x :| x in a;
      SubsetSize(a - {x}, b - {x});
      assert a == (a - {x}) + {x} && b == (b - {x}) + {x};
    }
  }

  /** No two entries have the same 16-bit offset. */
  ghost predicate LowsDiffer(l: HandlerList) {
    forall j, k :: 0 <= j < k < |l.handlers| ==> Low(l, j) != Low(l, k)
  }

  lemma {:induction false} LowsSize(l: HandlerList, n: nat)
    requires n <= |l.handlers|
    ensures LowsDiffer(l) ==> |Lows(l, n)| == n
  {
    hide *;
    if n == 0 {
      NoLows(l);
    } else if LowsDiffer(l) {
      LowsSize(l, n - 1);
      LowsMore(l, n - 1);
      LowIsNew(l, n - 1);
    }
  }

  lemma NoLows(l: HandlerList)
    ensures Lows(l, 0) == {}
  {
  }

  lemma LowsMore(l: HandlerList, n: nat)
    requires n < |l.handlers|
    ensures Lows(l, n + 1) == Lows(l, n) + {Low(l, n)}
  {
    hide Low;
  }

  lemma LowIsNew(l: HandlerList, n: nat)
    requires LowsDiffer(l) && n < |l.handlers|
    ensures Low(l, n) !in Lows(l, n)
  {
    hide Low;
  }

  lemma {:induction false} OffsetsSize(list: seq<CatchHandler>)
    ensures |OffsetsOf(list)| <= |list|
  {
    if list != [] {
      var front, last := list[..|list| - 1], list[|list| - 1];
      OffsetsSize(front);
      assert list == front + [last];
      assert OffsetsOf(list) == OffsetsOf(front) + {last.listOffset};
    }
  }

  /** Once the walk has passed the last entry and still misses one, two of them have the same 16-bit offset. */
  lemma PassedMeansSame(l: HandlerList, list: seq<CatchHandler>)
    requires Lows(l, |l.handlers|) <= OffsetsOf(list) && |list| < |l.handlers|
    ensures !LowsDiffer(l)
  {
    LowsSize(l, |l.handlers|);
    OffsetsSize(list);
    SubsetSize(Lows(l, |l.handlers|), OffsetsOf(list));
  }

  /** In a list as long as the original every entry is to be found. */
  lemma FindEntry(l: HandlerList, list: seq<CatchHandler>, which: seq<nat>, k: nat) returns (i: nat)
    requires Listed(l, list, which) && |list| >= |l.handlers| && k < |l.handlers|
    ensures |list| == |l.handlers| && i < |list| && which[i] == k
  {
    hide Low, HandlersOf;
    forall x, y | 0 <= x < y < |which|
      ensures which[x] != which[y]
    {
      assert list[x].listOffset != list[y].listOffset;
    }
    ElemsSize(which);
    SubsetSize(Elems(which), Below(|l.handlers|));
    assert k in Elems(which);
    i :| 0 <= i < |which| && which[i] == k;
  }

  lemma AllListed(l: HandlerList, list: seq<CatchHandler>, which: seq<nat>)
    requires Listed(l, list, which) && |list| >= |l.handlers|
    ensures Complete(l, list) && LowsDiffer(l)
  {
    hide Low, HandlersOf;
    assert list != [] ==> which[0] < |l.handlers|;
    forall k: nat | k < |l.handlers|
      ensures Entry(l, k) in list && |list| == |l.handlers|
    {
      var i := FindEntry(l, list, which, k);
      assert list[i] == Entry(l, k);
    }
    forall j: nat, k: nat | j < k < |l.handlers|
      ensures Low(l, j) != Low(l, k)
    {
      var x := FindEntry(l, list, which, j);
      var y := FindEntry(l, list, which, k);
      assert list[x].listOffset != list[y].listOffset;
    }
  }

  /** Every entry is in the list exactly once: as many as there are, all of them. */
  ghost predicate Complete(l: HandlerList, list: seq<CatchHandler>) {
    |list| == |l.handlers| && forall k :: 0 <= k < |l.handlers| ==> Entry(l, k) in list
  }

  ghost predicate Is16Bit(l: HandlerList) {
    forall k :: 0 <= k < |l.handlers| ==> Offset(l, k) < 0x1_0000
  }

  ghost predicate AtEntry(l: HandlerList, handlerOff: nat) {
    exists k :: 0 <= k < |l.handlers| && Offset(l, k) == handlerOff
  }

  /**
   The handlers of the tries, then those that only the walk finds.  It comes to an end within the list
   exactly when no two entries have the same 16-bit offset; otherwise one of them counts as there
   already, and the walk goes on behind the last.
   */
  method BuildHandlers(data: seq<Byte>, tries: seq<nat>, ghost l: HandlerList, ghost rest: seq<Byte>)
    returns (ended: bool, list: seq<CatchHandler>, tryHandlers: seq<nat>)
    requires ValidList(l) && data == RenderList(l) + rest
    requires forall i :: 0 <= i < |tries| ==> tries[i] < 0x1_0000 && AtEntry(l, tries[i])
    ensures ended <==> LowsDiffer(l)
    ensures ended ==> Complete(l, list)
    ensures !ended ==> |list| < |l.handlers|
    ensures |tryHandlers| == |tries|
    ensures forall i :: 0 <= i < |tries| ==>
              tryHandlers[i] < |list| && list[tryHandlers[i]].listOffset == tries[i]
  {
    hide *;
    ghost var which;
    list, tryHandlers, which := HandlersOfTries(data, tries, l, rest);
    ListHead(l, rest);
    var handlersSize, cursor := DecodeUnsignedLeb128(data, 0);
    ghost var first := list;
    var walked: nat := 0;
    NoLows(l);
    while handlersSize > |list|
      invariant walked <= |l.handlers| && cursor == Offset(l, walked) && first <= list
      invariant Listed(l, list, which) && Lows(l, walked) <= OffsetsOf(list)
      decreases |l.handlers| - walked
    {
      if walked == handlersSize {
        PassedMeansSame(l, list);
        return false, list, tryHandlers;
      }
      var handlerOff := cursor % 0x1_0000;
      var i := FindHandlers(list, handlerOff);
      ReadEntry(l, rest, walked);
      EntrySize(l, rest, walked);
      NextOffset(l, walked);
      var catchAll, pairs;
      catchAll, pairs, cursor := DecodeHandler(data, cursor);
      OffsetsMore(list, CatchHandler(catchAll, handlerOff, pairs));
      LowsMore(l, walked);
      if i < |list| {
        OffsetThere(list, i);
      } else {
        ListedMore(l, list, which, walked);
        list := list + [CatchHandler(catchAll, handlerOff, pairs)];
        which := which + [walked];
      }
      walked := walked + 1;
    }
    ended := true;
    AllListed(l, list, which);
  }

  lemma OffsetThere(list: seq<CatchHandler>, i: nat)
    requires i < |list|
    ensures list[i].listOffset in OffsetsOf(list)
  {
  }

  lemma NextOffset(l: HandlerList, k: nat)
    requires k < |l.handlers|
    ensures Offset(l, k + 1) == Offset(l, k) + |RenderHandler(l.handlers[k])|
    ensures Low(l, k) == Offset(l, k) % 0x1_0000
    ensures Entry(l, k) == CatchHandler(l.handlers[k].all.Some?, Low(l, k), HandlersOf(l.handlers[k]))
  {
  }

  lemma LowIsOffset(l: HandlerList, k: nat)
    requires k < |l.handlers| && Offset(l, k) < 0x1_0000
    ensures Low(l, k) == Offset(l, k)
  {
  }

  /** Lists within 64 kB are walked to their end. */
  lemma ShortListsDiffer(l: HandlerList)
    requires ValidList(l) && Is16Bit(l)
    ensures LowsDiffer(l)
  {
    hide Offset, ValidList;
    forall j, k | 0 <= j < k < |l.handlers|
      ensures Low(l, j) != Low(l, k)
    {
      OffsetIncreases(l, j, k);
    }
  }

  lemma ListHead(l: HandlerList, rest: seq<Byte>)
    requires ValidList(l)
    ensures (RenderList(l) + rest)[0..] == RenderList(l) + rest
    ensures DecodeUnsigned((RenderList(l) + rest)[0..]) == Some(Read(|l.handlers|, Offset(l, 0)))
  {
    hide DecodeUnsigned;
    Regroup(l.head, RenderHandlers(l.handlers), rest);
    DecodeUnsignedInverts(l.head, |l.handlers|, RenderHandlers(l.handlers) + rest);
  }

  method HandlersOfTries(data: seq<Byte>, tries: seq<nat>, ghost l: HandlerList, ghost rest: seq<Byte>)
    returns (list: seq<CatchHandler>, tryHandlers: seq<nat>, ghost which: seq<nat>)
    requires ValidList(l) && data == RenderList(l) + rest
    requires forall i :: 0 <= i < |tries| ==> tries[i] < 0x1_0000 && AtEntry(l, tries[i])
    ensures Listed(l, list, which) && |tryHandlers| == |tries|
    ensures forall i :: 0 <= i < |tries| ==>
              tryHandlers[i] < |list| && list[tryHandlers[i]].listOffset == tries[i]
  {
    hide Listed, AtEntry, ReadHandler, ValidList, AnyCatchAll, RenderList, Offset, Low, HandlersOf, RenderHandler;
    hide DecodeSigned;
    list, tryHandlers, which := [], [], [];
    NoneListed(l);
    for t := 0 to |tries|
      invariant Listed(l, list, which) && |tryHandlers| == t
      invariant forall i :: 0 <= i < t ==>
                  tryHandlers[i] < |list| && list[tryHandlers[i]].listOffset == tries[i]
    {
      var handlerOff := tries[t];
      var i := FindHandlers(list, handlerOff);
      if i == |list| {
        ghost var k: nat := EntryIndex(l, handlerOff);
        ReadEntry(l, rest, k);
        var _, pairs, _ := DecodeHandler(data, handlerOff);
        var catchAll := HasCatchAll(pairs);
        EntryCatchAll(l.handlers[k]);
        LowIsOffset(l, k);
        ListedMore(l, list, which, k);
        list := list + [CatchHandler(catchAll, handlerOff, pairs)];
        which := which + [k];
      }
      tryHandlers := tryHandlers + [i];
    }
  }

  lemma NoneListed(l: HandlerList)
    ensures Listed(l, [], [])
  {
  }

  lemma EntryIndex(l: HandlerList, handlerOff: nat) returns (k: nat)
    requires AtEntry(l, handlerOff)
    ensures k < |l.handlers| && Offset(l, k) == handlerOff
  {
    k :| 0 <= k < |l.handlers| && Offset(l, k) == handlerOff;
  }

  /** `n` pairs of two bytes each. */
  function ShortPairs(n: nat): (ps: seq<Pair>)
    ensures |ps| == n && forall p :: p in ps ==> p == Pair([0], [0])
  {
    if n == 0 then [] else [Pair([0], [0])] + ShortPairs(n - 1)
  }

  /** Two entries, the first of them 2^16 bytes long. */
  function FarList(): HandlerList {
    HandlerList([2], [Handler([0xFE, 0xFF, 0x01], [Pair([0], [0x80, 0])] + ShortPairs(32765), None),
                      Handler([1], [Pair([0], [0])], None)])
  }

  lemma {:induction false} ShortPairsSize(n: nat)
    ensures |RenderPairs(ShortPairs(n))| == 2 * n
  {
    if n > 0 {
      ShortPairsSize(n - 1);
      assert ShortPairs(n)[1..] == ShortPairs(n - 1);
    }
  }

  lemma FarNumbers()
    ensures IsUleb([2], 2) && IsUleb([0], 0) && IsUleb([0x80, 0], 0)
    ensures IsSleb([1], 1) && IsSleb([0xFE, 0xFF, 0x01], 32766)
  {
    assert [0x80, 0][1..] == [0] && [0][1..] == [] && [2][1..] == [];
    assert UnsignedValue([0]) == 0 && UnsignedValue([0x80, 0]) == 0 && UnsignedValue([2]) == 2;
    assert [0xFE, 0xFF, 0x01][1..] == [0xFF, 0x01] && [0xFF, 0x01][1..] == [0x01];
    assert SignedValue([0x01]) == 1 && SignedValue([0xFF, 0x01]) == 255 && SignedValue([0xFE, 0xFF, 0x01]) == 32766;
  }

  /** A legal list that the walk does not come to the end of. */
  lemma WalkCanPass()
    ensures ValidList(FarList()) && !LowsDiffer(FarList())
  {
    FarIsValid();
    FarApart();
    hide FarList, ValidList;
    assert Low(FarList(), 0) == Low(FarList(), 1);
  }

  lemma FarIsValid()
    ensures ValidList(FarList())
  {
    hide ShortPairs, IsUleb, IsSleb;
    var l := FarList();
    FarNumbers();
    assert ValidHandler(l.handlers[0]) && ValidHandler(l.handlers[1]);
  }

  lemma FarApart()
    ensures |FarList().handlers| == 2 && Offset(FarList(), 1) == Offset(FarList(), 0) + 65536
  {
    hide ShortPairs;
    var l := FarList();
    var pairs := [Pair([0], [0x80, 0])] + ShortPairs(32765);
    ShortPairsSize(32765);
    assert pairs[1..] == ShortPairs(32765);
    assert |RenderPairs(pairs)| == 65533;
    assert |RenderHandler(l.handlers[0])| == 65536;
  }

  // --- The writer -----------------------------------------------------------------------------------

  function EncodePairs(hs: seq<TypeAddr>): seq<Byte> {
    if hs == [] then []
    else
      (if hs[0].typeIdx.Some? then EncodeUnsigned(hs[0].typeIdx.value) else []) +
      (EncodeUnsigned(hs[0].addr) + EncodePairs(hs[1..]))
  }

  /** What the writer puts at the handler's offset. */
  function EncodeHandler(h: CatchHandler): seq<Byte> {
    EncodeSigned(if h.catchAll then 0 - (|h.handlers| - 1) else |h.handlers|) + EncodePairs(h.handlers)
  }

  function BlocksOf(list: seq<CatchHandler>): (blocks: seq<Block>)
    ensures |blocks| == |list|
    ensures forall i :: 0 <= i < |list| ==> blocks[i] == Block(list[i].listOffset, EncodeHandler(list[i]))
  {
    seq(|list|, i requires 0 <= i < |list| => Block(list[i].listOffset, EncodeHandler(list[i])))
  }

  /** The entry with every number in its shortest form. */
  function Shortest(e: Handler): Handler {
    Handler(EncodeSigned(if e.all.Some? then 0 - |e.pairs| else |e.pairs|), ShortestPairs(e.pairs),
            if e.all.Some? then Some(EncodeUnsigned(UnsignedValue(e.all.value))) else None)
  }

  function ShortestPairs(ps: seq<Pair>): (r: seq<Pair>)
    ensures |r| == |ps|
  {
    if ps == [] then [] else [ShortestPair(ps[0])] + ShortestPairs(ps[1..])
  }

  function ShortestPair(p: Pair): Pair {
    Pair(EncodeUnsigned(UnsignedValue(p.typeIdx)), EncodeUnsigned(UnsignedValue(p.addr)))
  }

  lemma ShortestNumber(b: seq<Byte>)
    requires IsNumber(b)
    ensures var c := EncodeUnsigned(UnsignedValue(b));
            IsNumber(c) && UnsignedValue(c) == UnsignedValue(b) && |c| <= |b|
  {
    EncodeUnsignedIsUleb(UnsignedValue(b));
    ShortestUnsigned(b, UnsignedValue(b));
  }

  lemma ShortestPairKeeps(p: Pair)
    requires ValidPair(p)
    ensures ValidPair(ShortestPair(p))
    ensures UnsignedValue(ShortestPair(p).typeIdx) == UnsignedValue(p.typeIdx)
    ensures UnsignedValue(ShortestPair(p).addr) == UnsignedValue(p.addr)
    ensures |ShortestPair(p).typeIdx| <= |p.typeIdx| && |ShortestPair(p).addr| <= |p.addr|
  {
    hide EncodeUnsigned, IsUleb, UnsignedValue;
    ShortestNumber(p.typeIdx);
    ShortestNumber(p.addr);
  }

  lemma {:induction false} ShortestPairsKeep(ps: seq<Pair>)
    requires forall p :: p in ps ==> ValidPair(p)
    ensures forall p :: p in ShortestPairs(ps) ==> ValidPair(p)
    ensures PairsOf(ShortestPairs(ps)) == PairsOf(ps)
    ensures |RenderPairs(ShortestPairs(ps))| <= |RenderPairs(ps)|
  {
    if ps != [] {
      ShortestPairKeeps(ps[0]);
      ShortestPairsKeep(ps[1..]);
      hide ShortestPair, ValidPair;
      var c := ShortestPairs(ps);
      assert c[1..] == ShortestPairs(ps[1..]);
    }
  }

  /** Written anew, an entry stands for the same handlers in no more bytes. */
  lemma ShortestKeeps(e: Handler)
    requires ValidHandler(e)
    ensures ValidHandler(Shortest(e)) && HandlersOf(Shortest(e)) == HandlersOf(e)
    ensures |RenderHandler(Shortest(e))| <= |RenderHandler(e)|
  {
    hide EncodeSigned, EncodeUnsigned, IsUleb, UnsignedValue, SignedValue, PairsOf, RenderPairs, ShortestPairs;
    var n := if e.all.Some? then 0 - |e.pairs| else |e.pairs|;
    EncodeSignedIsSleb(n);
    ShortestSigned(e.size, n);
    ShortestPairsKeep(e.pairs);
    if e.all.Some? {
      ShortestNumber(e.all.value);
    }
  }

  lemma {:induction false} EncodePairsRenders(ps: seq<Pair>, all: Option<seq<Byte>>)
    ensures EncodePairs(PairsOf(ps) + if all.Some? then [TypeAddr(None, UnsignedValue(all.value))] else []) ==
            RenderPairs(ShortestPairs(ps)) + if all.Some? then EncodeUnsigned(UnsignedValue(all.value)) else []
    decreases |ps|
  {
    var last := if all.Some? then [TypeAddr(None, UnsignedValue(all.value))] else [];
    var tail := if all.Some? then EncodeUnsigned(UnsignedValue(all.value)) else [];
    if ps == [] {
      assert last[..] == last;
      assert all.Some? ==> last[1..] == [];
    } else {
      var hs := PairsOf(ps) + last;
      EncodePairsRenders(ps[1..], all);
      assert hs[1..] == PairsOf(ps[1..]) + last;
      assert ShortestPairs(ps)[1..] == ShortestPairs(ps[1..]);
      var p := ShortestPair(ps[0]);
      assert RenderPairs(ShortestPairs(ps)) == p.typeIdx + (p.addr + RenderPairs(ShortestPairs(ps[1..])));
      Regroup(p.addr, RenderPairs(ShortestPairs(ps[1..])), tail);
      Regroup(p.typeIdx, p.addr + RenderPairs(ShortestPairs(ps[1..])), tail);
    }
  }

  lemma EncodeHandlerRenders(l: HandlerList, k: nat)
    requires k < |l.handlers|
    ensures EncodeHandler(Entry(l, k)) == RenderHandler(Shortest(l.handlers[k]))
  {
    hide EncodeSigned, EncodeUnsigned, EncodePairs, PairsOf, RenderPairs, ShortestPairs, Offset, UnsignedValue;
    var e := l.handlers[k];
    EncodePairsRenders(e.pairs, e.all);
  }

  /** Whose block it is. */
  lemma BlockIndex(l: HandlerList, list: seq<CatchHandler>, which: seq<nat>, i: nat)
    requires ValidList(l) && Is16Bit(l) && Listed(l, list, which) && i < |list|
    ensures which[i] < |l.handlers| && BlocksOf(list)[i].offset == Offset(l, which[i])
    ensures BlocksOf(list)[i].bytes == RenderHandler(Shortest(l.handlers[which[i]]))
    ensures |l.head| <= BlocksOf(list)[i].offset
    ensures BlocksOf(list)[i].End() <= Offset(l, which[i]) + |RenderHandler(l.handlers[which[i]])|
  {
    hide Offset, EncodeHandler, RenderHandler, Shortest, HandlersOf;
    var k := which[i];
    LowIsOffset(l, k);
    EncodeHandlerRenders(l, k);
    ShortestKeeps(l.handlers[k]);
    HeadFirst(l, k);
  }

  lemma HeadFirst(l: HandlerList, k: nat)
    requires ValidList(l) && k <= |l.handlers|
    ensures |l.head| <= Offset(l, k)
  {
    if k > 0 {
      OffsetIncreases(l, 0, k);
    }
  }

  /** Listing the entries of a complete list by their position. */
  lemma Positions(l: HandlerList, list: seq<CatchHandler>) returns (which: seq<nat>)
    requires LowsDiffer(l) && Complete(l, list)
    ensures Listed(l, list, which)
  {
    var at := EntriesAt(l, list, |l.handlers|);
    ElemsSize(at);
    SubsetSize(Elems(at), Below(|list|));
    which := Inverse(at, |list|);
    hide Elems, Below, LowsDiffer, Complete, Listed;
    ListedBy(l, list, at, which);
  }

  lemma ListedBy(l: HandlerList, list: seq<CatchHandler>, at: seq<nat>, which: seq<nat>)
    requires LowsDiffer(l) && |at| == |l.handlers| == |list| == |which|
    requires forall k :: 0 <= k < |at| ==> at[k] < |list| && list[at[k]] == Entry(l, k)
    requires forall i :: 0 <= i < |which| ==> which[i] < |at| && at[which[i]] == i
    ensures Listed(l, list, which)
  {
    hide Low, HandlersOf;
    forall i | 0 <= i < |list|
      ensures list[i] == Entry(l, which[i])
    {
      assert at[which[i]] == i;
    }
    forall i, j | 0 <= i < j < |list|
      ensures list[i].listOffset != list[j].listOffset
    {
      assert at[which[i]] == i && at[which[j]] == j;
      assert Low(l, which[i]) != Low(l, which[j]);
    }
  }

  /** Where each of the first `n` entries is in the list. */
  lemma {:induction false} EntriesAt(l: HandlerList, list: seq<CatchHandler>, n: nat) returns (at: seq<nat>)
    requires LowsDiffer(l) && Complete(l, list) && n <= |l.handlers|
    ensures |at| == n
    ensures forall k :: 0 <= k < n ==> at[k] < |list| && list[at[k]] == Entry(l, k)
    ensures forall j, k :: 0 <= j < k < n ==> at[j] != at[k]
    decreases n
  {
    if n == 0 {
      at := [];
    } else {
      var front := EntriesAt(l, list, n - 1);
      assert Entry(l, n - 1) in list;
      var i: nat :| i < |list| && list[i] == Entry(l, n - 1);
      forall j | 0 <= j < n - 1
        ensures front[j] != i
      {
        assert Low(l, j) != Low(l, n - 1);
      }
      at := front + [i];
    }
  }

  /** The inverse of a permutation of the first `n` numbers, on the first `m` of them. */
  lemma {:induction false} Inverse(at: seq<nat>, m: nat) returns (which: seq<nat>)
    requires m <= |at| && Elems(at) == Below(|at|)
    ensures |which| == m
    ensures forall i :: 0 <= i < m ==> which[i] < |at| && at[which[i]] == i
    decreases m
  {
    if m == 0 {
      which := [];
    } else {
      var front := Inverse(at, m - 1);
      assert m - 1 in Elems(at);
      var k: nat :| k < |at| && at[k] == m - 1;
      which := front + [k];
    }
  }

  lemma BlockPairApart(l: HandlerList, list: seq<CatchHandler>, which: seq<nat>, i: nat, j: nat)
    requires ValidList(l) && Is16Bit(l) && Listed(l, list, which) && i < j < |list|
    ensures Apart(BlocksOf(list)[i], BlocksOf(list)[j])
  {
    assert list[i].listOffset != list[j].listOffset;
    hide Offset, RenderHandler, BlocksOf, ValidList, Low, Is16Bit, HandlersOf, Shortest;
    BlockIndex(l, list, which, i);
    BlockIndex(l, list, which, j);
    if which[i] < which[j] {
      OffsetIncreases(l, which[i], which[j]);
    } else {
      OffsetIncreases(l, which[j], which[i]);
    }
  }

  lemma HeadShorter(l: HandlerList, list: seq<CatchHandler>)
    requires ValidList(l) && Complete(l, list)
    ensures |EncodeUnsigned(|list|)| <= |l.head|
  {
    ShortestUnsigned(l.head, |l.handlers|);
  }

  /** However the tries ordered the list, and though it was read in longer forms, nothing overlaps. */
  lemma BlocksDisjoint(l: HandlerList, list: seq<CatchHandler>)
    requires ValidList(l) && Is16Bit(l) && Complete(l, list)
    ensures Disjoint(BlocksOf(list), |EncodeUnsigned(|list|)|)
  {
    hide *;
    ShortListsDiffer(l);
    HeadShorter(l, list);
    var which := Positions(l, list);
    var blocks := BlocksOf(list);
    forall i | 0 <= i < |blocks|
      ensures |EncodeUnsigned(|list|)| <= blocks[i].offset
    {
      BlockIndex(l, list, which, i);
    }
    forall i, j | 0 <= i < j < |blocks|
      ensures Apart(blocks[i], blocks[j])
    {
      BlockPairApart(l, list, which, i, j);
    }
    AreDisjoint(blocks, |EncodeUnsigned(|list|)|);
  }

  lemma AreDisjoint(blocks: seq<Block>, from: nat)
    requires forall i :: 0 <= i < |blocks| ==> from <= blocks[i].offset
    requires forall i, j :: 0 <= i < j < |blocks| ==> Apart(blocks[i], blocks[j])
    ensures Disjoint(blocks, from)
  {
  }

  /**
   Once the list is written, reading at the offset that the tries have for an entry gives the handlers
   that were there before.
   */
  lemma LookupsPreserved(l: HandlerList, list: seq<CatchHandler>, d: seq<Byte>, base: nat, end: nat, k: nat)
    requires ValidList(l) && Is16Bit(l) && Complete(l, list) && BlocksAt(d, base, BlocksOf(list), end) && k < |l.handlers|
    ensures base + Offset(l, k) <= |d|
    ensures var r := ReadHandler(d[base + Offset(l, k)..]);
            r.Some? && r.value.value == HandlersOf(l.handlers[k])
  {
    hide ReadHandler, RenderHandler, HandlersOf, Offset, Shortest, BlocksAt, Complete, ValidHandler;
    var i := BlockOfEntry(l, list, d, base, end, k);
    ShortestKeeps(l.handlers[k]);
    HandlerRead(d, base + Offset(l, k), Shortest(l.handlers[k]));
  }

  lemma HandlerRead(d: seq<Byte>, p: nat, e: Handler)
    requires ValidHandler(e) && HoldsAt(d, p, RenderHandler(e))
    ensures ReadHandler(d[p..]) == Some(Read(HandlersOf(e), |RenderHandler(e)|))
  {
    hide ReadHandler, RenderHandler, HandlersOf;
    var b := RenderHandler(e);
    assert d[p..] == b + d[p + |b|..];
    HandlerInverts(e, d[p + |b|..]);
  }

  lemma BlockOfEntry(l: HandlerList, list: seq<CatchHandler>, d: seq<Byte>, base: nat, end: nat,
                     k: nat) returns (i: nat)
    requires ValidList(l) && Is16Bit(l) && Complete(l, list) && BlocksAt(d, base, BlocksOf(list), end) && k < |l.handlers|
    ensures i < |list| && list[i] == Entry(l, k)
    ensures HoldsAt(d, base + Offset(l, k), RenderHandler(Shortest(l.handlers[k])))
  {
    hide Offset, HandlersOf, EncodeHandler, RenderHandler, HoldsAt;
    LowIsOffset(l, k);
    assert Entry(l, k) in list;
    i :| 0 <= i < |list| && list[i] == Entry(l, k);
    EncodeHandlerRenders(l, k);
  }

  /** A list in shortest forms comes out byte for byte. */
  lemma ShortestListReproduced(l: HandlerList, list: seq<CatchHandler>, d: seq<Byte>, base: nat, end: nat)
    requires ValidList(l) && Is16Bit(l) && Complete(l, list) && BlocksAt(d, base, BlocksOf(list), end)
    requires HoldsAt(d, base, EncodeUnsigned(|list|))
    requires l.head == EncodeUnsigned(|list|) && forall e :: e in l.handlers ==> Shortest(e) == e
    ensures HoldsAt(d, base, RenderList(l))
  {
    hide Offset, HandlersOf, RenderHandler, Shortest, BlocksAt, Complete, RenderHandlers, EncodeUnsigned;
    forall k: nat | k < |l.handlers|
      ensures HoldsAt(d, base + Offset(l, k), RenderHandler(l.handlers[k]))
    {
      var i := BlockOfEntry(l, list, d, base, end, k);
    }
    HandlersHeld(l, d, base, |l.handlers|);
    assert l.handlers[..|l.handlers|] == l.handlers;
  }

  lemma {:induction false} HandlersHeld(l: HandlerList, d: seq<Byte>, base: nat, n: nat)
    requires n <= |l.handlers| && HoldsAt(d, base, l.head)
    requires forall k :: 0 <= k < n ==> HoldsAt(d, base + Offset(l, k), RenderHandler(l.handlers[k]))
    ensures HoldsAt(d, base, l.head + RenderHandlers(l.handlers[..n]))
    ensures |l.head + RenderHandlers(l.handlers[..n])| == Offset(l, n)
    decreases n
  {
    hide RenderHandlers, RenderHandler, HoldsAt, Offset;
    if n == 0 {
      NoHandlers(l);
    } else {
      HandlersHeld(l, d, base, n - 1);
      NextOffset(l, n - 1);
      assert l.handlers[..n] == l.handlers[..n - 1] + [l.handlers[n - 1]];
      HandlerHeld(l.head, l.handlers[..n - 1], l.handlers[n - 1], d, base);
    }
  }

  lemma NoHandlers(l: HandlerList)
    ensures l.head + RenderHandlers(l.handlers[..0]) == l.head && Offset(l, 0) == |l.head|
  {
  }

  lemma HandlerHeld(head: seq<Byte>, es: seq<Handler>, e: Handler, d: seq<Byte>, base: nat)
    requires HoldsAt(d, base, head + RenderHandlers(es))
    requires HoldsAt(d, base + |head + RenderHandlers(es)|, RenderHandler(e))
    ensures HoldsAt(d, base, head + RenderHandlers(es + [e]))
    ensures |head + RenderHandlers(es + [e])| == |head + RenderHandlers(es)| + |RenderHandler(e)|
  {
    hide *;
    RenderAppend(es, e);
    Regroup(head, RenderHandlers(es), RenderHandler(e));
    HoldsBoth(d, base, head + RenderHandlers(es), RenderHandler(e));
  }

  lemma {:induction false} RenderAppend(es: seq<Handler>, e: Handler)
    ensures RenderHandlers(es + [e]) == RenderHandlers(es) + RenderHandler(e)
    decreases |es|
  {
    if es == [] {
      assert [e][1..] == [] && es + [e] == [e];
    } else {
      hide RenderHandler;
      assert (es + [e])[1..] == es[1..] + [e];
      RenderAppend(es[1..], e);
      Regroup(RenderHandler(es[0]), RenderHandlers(es[1..]), RenderHandler(e));
    }
  }

  lemma HoldsBoth(d: seq<Byte>, p: nat, a: seq<Byte>, b: seq<Byte>)
    requires HoldsAt(d, p, a) && HoldsAt(d, p + |a|, b)
    ensures HoldsAt(d, p, a + b)
  {
    assert d[p..p + |a + b|] == d[p..p + |a|] + d[p + |a|..p + |a| + |b|];
  }

  // --- Reading a list and writing it ----------------------------------------------------------------

  method EncodeCatchHandler(h: CatchHandler) returns (b: seq<Byte>)
    ensures b == EncodeHandler(h)
  {
    hide EncodeSigned, EncodeUnsigned;
    var size := if h.catchAll then (|h.handlers| - 1) * -1 else |h.handlers|;
    b := EncodeSignedLeb128(size);
    assert h.handlers[0..] == h.handlers;
    for i := 0 to |h.handlers|
      invariant b + EncodePairs(h.handlers[i..]) == EncodeHandler(h)
    {
      var handler := h.handlers[i];
      var typeIdx := [];
      if handler.typeIdx.Some? {
        typeIdx := EncodeUnsignedLeb128(handler.typeIdx.value);
      }
      var addr := EncodeUnsignedLeb128(handler.addr);
      assert h.handlers[i..][1..] == h.handlers[i + 1..];
      Regroup(b, typeIdx, addr + EncodePairs(h.handlers[i + 1..]));
      Regroup(b + typeIdx, addr, EncodePairs(h.handlers[i + 1..]));
      b := b + typeIdx + addr;
    }
  }

  method EncodeAll(list: seq<CatchHandler>) returns (blocks: seq<Block>)
    ensures blocks == BlocksOf(list)
  {
    blocks := [];
    for i := 0 to |list|
      invariant |blocks| == i
      invariant forall j :: 0 <= j < i ==> blocks[j] == Block(list[j].listOffset, EncodeHandler(list[j]))
    {
      var b := EncodeCatchHandler(list[i]);
      blocks := blocks + [Block(list[i].listOffset, b)];
    }
  }
}
