/**
 The writer of encoded values (dexlayout/dex_writer.cc), the round trip through the reader, and the
 length of what is written.
 */
module EncodedValueWriter {
  import opened Arithmetic
  import opened Bytes
  import opened Leb128
  import opened EncodedValue
  import opened Wrappers

  // --- The bytes of a number ------------------------------------------------------------------------

  function IntBytes(v: int): seq<Byte>
    decreases if v >= 0 then v else 0 - v
  {
    if -0x80 <= v <= 0x7f then [v % 256] else [v % 256] + IntBytes(v / 256)
  }

  function UIntBytes(v: nat): seq<Byte> {
    if v < 256 then [v] else [v % 256] + UIntBytes(v / 256)
  }

  /** The bytes of `v` from the top of `n` bytes down, without the zero bytes at the bottom. */
  function TopBytes(v: nat, n: nat): seq<Byte>
    requires n >= 1 && v < Pow256(n)
    decreases n
  {
    var p := Pow256(n - 1);
    TopByte(v, n);
    if v % p == 0 then [v / p] else TopBytes(v % p, n - 1) + [v / p]
  }

  lemma TopByte(v: nat, n: nat)
    requires n >= 1 && v < Pow256(n)
    ensures 0 <= v / Pow256(n - 1) < 256
    ensures v == v / Pow256(n - 1) * Pow256(n - 1) + v % Pow256(n - 1)
    ensures v % Pow256(n - 1) != 0 ==> n >= 2
  {
    var p := Pow256(n - 1);
    var q := v / p;
    if q >= 256 {
      MulAtLeast(256, q, p);
    }
    if n == 1 {
      assert p == 1;
    }
  }

  function Payload(k: Kind, n: int): seq<Byte>
    requires InKind(k, n)
  {
    match k
    case KByte => IntBytes(n)
    case KShort => IntBytes(n)
    case KInt => IntBytes(n)
    case KLong => IntBytes(n)
    case KFloat => TopBytes(n, 4)
    case KDouble => TopBytes(n, 8)
    case _ => UIntBytes(n)
  }

  /** The numbers of each kind: the range of its C++ type. */
  predicate InKind(k: Kind, n: int) {
    match k
    case KByte => 0 - Pow256(1) <= 2 * n < Pow256(1)
    case KShort => 0 - Pow256(2) <= 2 * n < Pow256(2)
    case KInt => 0 - Pow256(4) <= 2 * n < Pow256(4)
    case KLong => 0 - Pow256(8) <= 2 * n < Pow256(8)
    case _ => 0 <= n < Pow256(MaxWidth(k))
  }

  lemma SignedLeCons(x: Byte, b: seq<Byte>)
    requires b != []
    ensures SignedLe([x] + b) == x as int + 256 * SignedLe(b)
  {
    assert ([x] + b)[1..] == b;
    assert Le([x] + b) == x as int + 256 * Le(b);
    assert Pow256(|b| + 1) == 256 * Pow256(|b|) && Pow256(|b|) == 256 * Pow256(|b| - 1);
    hide Le, Pow256;
    SignExtendShift(x as int, Le(b), 128 * Pow256(|b| - 1));
  }

  lemma SignExtendShift(x: nat, n: nat, h: nat)
    requires x < 256
    ensures SignExtend(x + 256 * n, 512 * h) == x + 256 * SignExtend(n, 2 * h)
  {
  }

  lemma SignedLeOne(x: Byte)
    ensures SignedLe([x]) == if x < 128 then x as int else x as int - 256
  {
    assert [x][1..] == [];
    assert Pow256(0) == 1 && Pow256(1) == 256 * Pow256(0);
    assert Le([x]) == x as int && Pow256(1) == 256;
  }

  lemma {:induction false} IntBytesMean(v: int, m: nat)
    requires m >= 1 && 0 - Pow256(m) <= 2 * v < Pow256(m)
    ensures 1 <= |IntBytes(v)| <= m
    ensures SignedLe(IntBytes(v)) == v
    decreases m
  {
    if -0x80 <= v <= 0x7f {
      SignedLeOne(v % 256);
    } else {
      IntRange(v, m);
      IntBytesMean(v / 256, m - 1);
      SignedLeCons(v % 256, IntBytes(v / 256));
    }
  }

  lemma IntRange(v: int, m: nat)
    requires m >= 1 && 0 - Pow256(m) <= 2 * v < Pow256(m) && !(-0x80 <= v <= 0x7f)
    ensures m >= 2 && 0 - Pow256(m - 1) <= 2 * (v / 256) < Pow256(m - 1)
  {
    assert Pow256(m) == 256 * Pow256(m - 1);
    if m > 1 {
      assert Pow256(m - 1) == 256 * Pow256(m - 2);
      hide Pow256;
      ByteShift(v, 128 * Pow256(m - 2));
    }
  }

  lemma ByteShift(v: int, h: int)
    requires 0 - 512 * h <= 2 * v < 512 * h
    ensures 0 - 2 * h <= 2 * (v / 256) < 2 * h
  {
  }

  lemma {:induction false} UIntBytesMean(v: nat, m: nat)
    requires m >= 1 && v < Pow256(m)
    ensures 1 <= |UIntBytes(v)| <= m
    ensures Le(UIntBytes(v)) == v
    decreases m
  {
    if v < 256 {
      assert [v][1..] == [];
    } else {
      if m == 1 {
        Powers();
      } else {
        UIntBytesMean(v / 256, m - 1);
        assert UIntBytes(v)[1..] == UIntBytes(v / 256);
      }
    }
  }

  lemma {:induction false} TopBytesMean(v: nat, n: nat)
    requires n >= 1 && v < Pow256(n)
    ensures 1 <= |TopBytes(v, n)| <= n
    ensures Le(TopBytes(v, n)) * Pow256(n - |TopBytes(v, n)|) == v
    decreases n
  {
    var p := Pow256(n - 1);
    TopByte(v, n);
    var top: Byte, low := v / p, v % p;
    if low == 0 {
      assert [top][1..] == [];
    } else {
      TopBytesMean(low, n - 1);
      var b := TopBytes(low, n - 1);
      LeAppend(b, top);
      PowSplit(|b|, n - 1 - |b|);
      Distribute(Le(b), top as int, Pow256(|b|), Pow256(n - 1 - |b|));
    }
  }

  /** The bytes written for a number of any kind are legal for it and mean it. */
  lemma PayloadMeans(k: Kind, n: int)
    requires InKind(k, n)
    ensures 1 <= |Payload(k, n)| <= MaxWidth(k)
    ensures Meaning(k, Payload(k, n)) == n
  {
    hide IntBytes, UIntBytes, TopBytes, Pow256, Le, SignedLe;
    match k
    case KByte => IntBytesMean(n, 1);
    case KShort => IntBytesMean(n, 2);
    case KInt => IntBytesMean(n, 4);
    case KLong => IntBytesMean(n, 8);
    case KFloat => TopBytesMean(n, 4);
    case KDouble => TopBytesMean(n, 8);
    case _ => UIntBytesMean(n, MaxWidth(k));
  }

  // --- Writing a value ------------------------------------------------------------------------------

  /** The values that the IR can hold: every number in the range of its type. */
  predicate InRange(v: Value)
    decreases v
  {
    match v
    case Num(k, n) => InKind(k, n)
    case Array(elems) => |elems| < TWO_32 && forall e :: e in elems ==> InRange(e)
    case Annotation(typeIdx, elements) =>
      && typeIdx < TWO_32 && |elements| < TWO_32
      && forall e :: e in elements ==> e.name < TWO_32 && InRange(e.value)
    case _ => true
  }

  /** What is written for a value; nothing for a value of a type that is not known. */
  function Write(v: Value): seq<Byte>
    requires InRange(v)
    decreases v, 1
  {
    match v
    case Num(k, n) =>
      PayloadMeans(k, n);
      Header(Code(k), |Payload(k, n)| - 1) + Payload(k, n)
    case Bool(b) => Header(BOOLEAN, if b then 1 else 0)
    case Null => Header(NULL, 0)
    case Array(elems) => Header(ARRAY, 0) + (EncodeUnsigned(|elems|) + WriteAll(elems))
    case Annotation(typeIdx, elements) =>
      Header(ANNOTATION, 0) + (EncodeUnsigned(typeIdx) + (EncodeUnsigned(|elements|) + WriteElements(elements)))
    case Unknown(_) => []
  }

  function WriteAll(vs: seq<Value>): seq<Byte>
    requires forall e :: e in vs ==> InRange(e)
    decreases vs, 0
  {
    if vs == [] then [] else Write(vs[0]) + WriteAll(vs[1..])
  }

  function WriteElements(es: seq<Element>): seq<Byte>
    requires forall e :: e in es ==> e.name < TWO_32 && InRange(e.value)
    decreases es, 0
  {
    if es == [] then []
    else
      var e := es[0];
      assert e.value < e;
      EncodeUnsigned(e.name) + (Write(e.value) + WriteElements(es[1..]))
  }

  // --- The round trip -------------------------------------------------------------------------------

  /** No part of the value is of an unknown type. */
  predicate Known(v: Value)
    decreases v
  {
    match v
    case Array(elems) => forall e :: e in elems ==> Known(e)
    case Annotation(_, elements) => forall e :: e in elements ==> Known(e.value)
    case Unknown(_) => false
    case _ => true
  }

  /** The layout that the writer chooses. */
  function Layout(v: Value): (w: Wire)
    requires InRange(v) && Known(v)
    decreases v, 1
  {
    match v
    case Num(k, n) => WNum(k, Payload(k, n))
    case Bool(b) => WBool(b)
    case Null => WNull
    case Array(elems) => WArray(EncodeUnsigned(|elems|), Layouts(elems))
    case Annotation(typeIdx, elements) =>
      WAnnotation(EncodeUnsigned(typeIdx), EncodeUnsigned(|elements|), ElementLayouts(elements))
  }

  function Layouts(vs: seq<Value>): seq<Wire>
    requires forall e :: e in vs ==> InRange(e) && Known(e)
    decreases vs, 0
  {
    if vs == [] then [] else [Layout(vs[0])] + Layouts(vs[1..])
  }

  function ElementLayouts(es: seq<Element>): seq<WElement>
    requires forall e :: e in es ==> e.name < TWO_32 && InRange(e.value) && Known(e.value)
    decreases es, 0
  {
    if es == [] then []
    else
      var e := es[0];
      assert e.value < e;
      [WElement(EncodeUnsigned(e.name), Layout(e.value))] + ElementLayouts(es[1..])
  }

  /** The layout is a legal one that stands for the value, and its bytes are those written. */
  lemma {:induction false} LayoutStandsFor(v: Value)
    requires InRange(v) && Known(v)
    ensures WellFormed(Layout(v)) && ValueOf(Layout(v)) == v && Render(Layout(v)) == Write(v)
    decreases v, 1
  {
    hide EncodeUnsigned, Payload, Meaning, UnsignedValue;
    match v
    case Num(k, n) => PayloadMeans(k, n);
    case Array(elems) =>
      EncodeUnsignedIsUleb(|elems|);
      LayoutsStandFor(elems);
    case Annotation(typeIdx, elements) =>
      EncodeUnsignedIsUleb(typeIdx);
      EncodeUnsignedIsUleb(|elements|);
      ElementLayoutsStandFor(elements);
      UlebValue(EncodeUnsigned(typeIdx), typeIdx);
    case _ =>
  }

  lemma UlebValue(b: seq<Byte>, n: nat)
    requires IsUleb(b, n)
    ensures UnsignedValue(b) == n
  {
  }

  lemma {:induction false} LayoutsStandFor(vs: seq<Value>)
    requires forall e :: e in vs ==> InRange(e) && Known(e)
    ensures |Layouts(vs)| == |vs|
    ensures forall w :: w in Layouts(vs) ==> WellFormed(w)
    ensures ValuesOf(Layouts(vs)) == vs
    ensures RenderAll(Layouts(vs)) == WriteAll(vs)
    decreases vs, 0
  {
    if vs != [] {
      LayoutStandsFor(vs[0]);
      LayoutsStandFor(vs[1..]);
      hide Layout, WellFormed, ValueOf, Render, Write;
      assert Layouts(vs)[1..] == Layouts(vs[1..]);
    }
  }

  lemma {:induction false} ElementLayoutsStandFor(es: seq<Element>)
    requires forall e :: e in es ==> e.name < TWO_32 && InRange(e.value) && Known(e.value)
    ensures |ElementLayouts(es)| == |es|
    ensures forall w :: w in ElementLayouts(es) ==> IsUleb(w.name, UnsignedValue(w.name)) && WellFormed(w.value)
    ensures ElementsOf(ElementLayouts(es)) == es
    ensures RenderElements(ElementLayouts(es)) == WriteElements(es)
    decreases es, 0
  {
    if es != [] {
      var e := es[0];
      assert e.value < e;
      LayoutStandsFor(e.value);
      EncodeUnsignedIsUleb(e.name);
      UlebValue(EncodeUnsigned(e.name), e.name);
      ElementLayoutsStandFor(es[1..]);
      hide Layout, WellFormed, ValueOf, Render, Write, EncodeUnsigned, IsUleb, UnsignedValue;
      assert ElementLayouts(es)[1..] == ElementLayouts(es[1..]);
    }
  }

  /** Whatever follows, reading what was written gives the value back and takes exactly its bytes. */
  ghost predicate Survives(v: Value)
    requires InRange(v)
  {
    forall rest :: ReadValue(Write(v) + rest) == Some(Read(v, |Write(v)|))
  }

  lemma KnownSurvives(v: Value)
    requires InRange(v) && Known(v)
    ensures Survives(v)
  {
    hide ReadValue, Write, Layout, InRange, Known, WellFormed, Render, ValueOf;
    LayoutStandsFor(v);
    forall rest
      ensures ReadValue(Write(v) + rest) == Some(Read(v, |Write(v)|))
    {
      ReaderInverts(Layout(v), rest);
    }
  }

  // --- Nothing shorter is read ----------------------------------------------------------------------

  lemma PowZero()
    ensures Pow256(0) == 1
  {
  }

  lemma {:induction false} TopBytesShort(x: nat, m: nat, n: nat)
    requires 1 <= m <= n && x < Pow256(m) && x * Pow256(n - m) < Pow256(n)
    ensures |TopBytes(x * Pow256(n - m), n)| <= m
    decreases m
  {
    hide Pow256, TopBytes;
    var low := x % Pow256(m - 1);
    PowZero();
    PowSplit(m - 1, n - m);
    ModScale(x, Pow256(m - 1), Pow256(n - m));
    TopBytesStep(x * Pow256(n - m), n);
    assert x * Pow256(n - m) % Pow256(n - 1) == low * Pow256(n - m);
    if low != 0 {
      NonZero(low, Pow256(n - m));
      MulLess(low, Pow256(m - 1), Pow256(n - m));
      TopBytesShort(low, m - 1, n - 1);
    }
  }

  lemma WrapRange(x: int, limit: nat)
    requires limit > 0 && limit % 2 == 0
    ensures 0 - limit <= 2 * Wrap(x, limit) < limit
  {
  }

  lemma {:induction false} PowEven(n: nat)
    requires n >= 1
    ensures Pow256(n) % 2 == 0
  {
  }

  lemma SignedShort(payload: seq<Byte>, w: nat)
    requires 1 <= |payload| && 1 <= w <= 8
    ensures var n := Wrap(SignedLe(payload), Pow256(w));
            0 - Pow256(w) <= 2 * n < Pow256(w) && |IntBytes(n)| <= |payload|
  {
    var n := Wrap(SignedLe(payload), Pow256(w));
    PowEven(w);
    WrapRange(SignedLe(payload), Pow256(w));
    if |payload| < w {
      SignedFits(payload, w);
      LeBound(payload);
      PowEven(|payload|);
      IntBytesMean(n, |payload|);
    } else {
      IntBytesMean(n, w);
    }
  }

  lemma UnsignedShort(payload: seq<Byte>, w: nat)
    requires 1 <= |payload| && 1 <= w <= 4
    ensures 0 <= Le(payload) % Pow256(w) < Pow256(w) && |UIntBytes(Le(payload) % Pow256(w))| <= |payload|
  {
    if |payload| < w {
      UnsignedFits(payload, w);
      LeBound(payload);
      UIntBytesMean(Le(payload), |payload|);
    } else {
      UIntBytesMean(Le(payload) % Pow256(w), w);
    }
  }

  lemma RightFillShort(payload: seq<Byte>, w: nat)
    requires 1 <= |payload| <= w && (w == 4 || w == 8)
    ensures var v := Le(payload) * Pow256(w - |payload|);
            Le(payload) % Pow256(w) == Le(payload) && v % Pow256(w) == v
            && 0 <= v < Pow256(w) && |TopBytes(v, w)| <= |payload|
  {
    RightFillFits(payload, w);
    LeBound(payload);
    TopBytesShort(Le(payload), |payload|, w);
  }

  /** Every number that is read is one of its kind, and is written with no more bytes. */
  lemma NumberShort(k: Kind, payload: seq<Byte>)
    requires 1 <= |payload| <= 8 && ReadNum(k, payload).Some?
    ensures var n := ReadNum(k, payload).value;
            InKind(k, n) && 1 <= |Payload(k, n)| <= |payload|
  {
    var n := ReadNum(k, payload).value;
    Powers();
    hide IntBytes, UIntBytes, TopBytes, Pow256, Le, SignedLe, Wrap;
    match k
    case KByte => ByteShort(payload);
    case KShort => SignedShort(payload, 2);
    case KInt => SignedShort(payload, 4);
    case KLong => SignedShort(payload, 8);
    case KFloat => RightFillShort(payload, 4);
    case KDouble => RightFillShort(payload, 8);
    case KChar => UnsignedShort(payload, 2);
    case _ => UnsignedShort(payload, 4);
    PayloadMeans(k, n);
  }

  lemma ByteShort(payload: seq<Byte>)
    requires |payload| >= 1
    ensures var n := Wrap(Le(payload), 0x100);
            0 - 0x100 <= 2 * n < 0x100 && |IntBytes(n)| <= |payload|
  {
  }

  lemma {:induction false} DigitsShort(s: seq<Byte>, i: nat)
    requires i <= 4 && UnsignedDigits(s, i).Some?
    ensures UnsignedDigits(s, i).value.value < Limit(UnsignedDigits(s, i).value.size)
    decreases 4 - i
  {
    if i < 4 && s[0] >= 128 {
      DigitsStep(s, i);
      DigitsShort(s[1..], i + 1);
    } else {
      assert Limit(1) == 128;
    }
  }

  lemma UlebShort(s: seq<Byte>)
    requires DecodeUnsigned(s).Some?
    ensures DecodeUnsigned(s).value.value < TWO_32
    ensures |EncodeUnsigned(DecodeUnsigned(s).value.value)| <= DecodeUnsigned(s).value.size
  {
    DigitsShort(s, 0);
    DecodeUnsignedBound(s);
    EncodeUnsignedFits(DecodeUnsigned(s).value.value, DecodeUnsigned(s).value.size);
  }

  /** The parts of unknown type. */
  function Unknowns(v: Value): nat
    decreases v, 1
  {
    match v
    case Array(elems) => UnknownsIn(elems)
    case Annotation(_, elements) => UnknownsAmong(elements)
    case Unknown(_) => 1
    case _ => 0
  }

  function UnknownsIn(vs: seq<Value>): nat
    decreases vs, 0
  {
    if vs == [] then 0 else Unknowns(vs[0]) + UnknownsIn(vs[1..])
  }

  function UnknownsAmong(es: seq<Element>): nat
    decreases es, 0
  {
    if es == [] then 0
    else
      var e := es[0];
      assert e.value < e;
      Unknowns(e.value) + UnknownsAmong(es[1..])
  }

  predicate Compact(v: Value, size: nat) {
    InRange(v) && |Write(v)| + Unknowns(v) <= size
  }

  predicate AllCompact(vs: seq<Value>, size: nat) {
    (forall e :: e in vs ==> InRange(e)) && |WriteAll(vs)| + UnknownsIn(vs) <= size
  }

  predicate ElementsCompact(es: seq<Element>, size: nat) {
    && (forall e :: e in es ==> e.name < TWO_32 && InRange(e.value))
    && |WriteElements(es)| + UnknownsAmong(es) <= size
  }

  /**
   Whatever bytes the reader accepted, its value can be written, and in no more bytes than were read;
   each part of unknown type makes it shorter by a byte at least.
   */
  lemma {:induction false} RewriteShrinks(s: seq<Byte>)
    requires ReadValue(s).Some?
    ensures Compact(ReadValue(s).value.value, ReadValue(s).value.size)
    decreases |s|, 0
  {
    hide Compact, InRange, Write, Unknowns;
    BodyShrinks(s[0] % 32, s[0] as int / 32, s[1..]);
  }

  lemma {:induction false} BodyShrinks(code: Byte, arg: nat, s: seq<Byte>)
    requires arg < 8 && ReadBody(code, arg, s).Some?
    ensures Compact(ReadBody(code, arg, s).value.value, ReadBody(code, arg, s).value.size + 1)
    decreases |s|, 3
  {
    hide Compact, ReadNumber, ReadArray, ReadAnnotation;
    var kind := KindOf(code);
    if kind.Some? {
      NumShrinks(kind.value, arg, s);
    } else if code == ARRAY {
      ArrayShrinks(s);
    } else if code == ANNOTATION {
      AnnotationShrinks(s);
    } else {
      FlatCompact(ReadBody(code, arg, s).value.value);
    }
  }

  lemma FlatCompact(v: Value)
    requires v.Null? || v.Bool? || v.Unknown?
    ensures Compact(v, 1)
  {
  }

  lemma NumShrinks(k: Kind, arg: nat, s: seq<Byte>)
    requires arg < 8 && ReadNumber(k, arg, s).Some?
    ensures Compact(ReadNumber(k, arg, s).value.value, ReadNumber(k, arg, s).value.size + 1)
  {
    hide Payload, InKind, ReadNum;
    NumberShort(k, s[..arg + 1]);
  }

  lemma {:induction false} ArrayShrinks(s: seq<Byte>)
    requires ReadArray(s).Some?
    ensures Compact(ReadArray(s).value.value, ReadArray(s).value.size + 1)
    decreases |s|, 2
  {
    hide DecodeUnsigned, EncodeUnsigned, ReadValues, WriteAll, UnknownsIn;
    var size := DecodeUnsigned(s).value;
    UlebShort(s);
    ValuesShrink(s[size.size..], size.value);
  }

  lemma {:induction false} AnnotationShrinks(s: seq<Byte>)
    requires ReadAnnotation(s).Some?
    ensures Compact(ReadAnnotation(s).value.value, ReadAnnotation(s).value.size + 1)
    decreases |s|, 2
  {
    hide DecodeUnsigned, EncodeUnsigned, ReadElements, WriteElements, UnknownsAmong;
    var typeIdx := DecodeUnsigned(s).value;
    UlebShort(s);
    var tail := s[typeIdx.size..];
    var size := DecodeUnsigned(tail).value;
    UlebShort(tail);
    ElementsShrink(tail[size.size..], size.value);
  }

  lemma {:induction false} ValuesShrink(s: seq<Byte>, n: nat)
    requires ReadValues(s, n).Some?
    ensures AllCompact(ReadValues(s, n).value.value, ReadValues(s, n).value.size)
    decreases |s|, 1
  {
    if n > 0 {
      RewriteShrinks(s);
      hide ReadValue, InRange, Write, Unknowns;
      var first := ReadValue(s).value;
      ValuesShrink(s[first.size..], n - 1);
      AllCompactCons(first.value, first.size, ReadValues(s[first.size..], n - 1).value.value,
                     ReadValues(s[first.size..], n - 1).value.size);
    }
  }

  lemma AllCompactCons(v: Value, a: nat, vs: seq<Value>, b: nat)
    requires Compact(v, a) && AllCompact(vs, b)
    ensures AllCompact([v] + vs, a + b)
  {
    hide InRange, Write, Unknowns;
    assert ([v] + vs)[1..] == vs;
  }

  lemma {:induction false} ElementsShrink(s: seq<Byte>, n: nat)
    requires ReadElements(s, n).Some?
    ensures ElementsCompact(ReadElements(s, n).value.value, ReadElements(s, n).value.size)
    decreases |s|, 1
  {
    if n > 0 {
      var name := DecodeUnsigned(s).value;
      UlebShort(s);
      RewriteShrinks(s[name.size..]);
      hide ReadValue, InRange, Write, Unknowns, Compact, ElementsCompact, EncodeUnsigned, DecodeUnsigned;
      var first := ReadElement(s).value;
      ElementsShrink(s[first.size..], n - 1);
      ElementsCompactCons(first.value, name.size, first.size - name.size,
                          ReadElements(s[first.size..], n - 1).value.value,
                          ReadElements(s[first.size..], n - 1).value.size);
    }
  }

  lemma ElementsCompactCons(e: Element, a: nat, b: nat, es: seq<Element>, c: nat)
    requires e.name < TWO_32 && |EncodeUnsigned(e.name)| <= a && Compact(e.value, b) && ElementsCompact(es, c)
    ensures ElementsCompact([e] + es, a + b + c)
  {
    hide InRange, Write, Unknowns, EncodeUnsigned;
    assert ([e] + es)[1..] == es;
  }

  lemma {:induction false} KnownHasNoUnknowns(v: Value)
    ensures Known(v) <==> Unknowns(v) == 0
    decreases v, 1
  {
    match v
    case Array(elems) => AllKnown(elems);
    case Annotation(_, elements) => ElementsKnown(elements);
    case _ =>
  }

  lemma {:induction false} AllKnown(vs: seq<Value>)
    ensures (forall e :: e in vs ==> Known(e)) <==> UnknownsIn(vs) == 0
    decreases vs, 0
  {
    if vs != [] {
      KnownHasNoUnknowns(vs[0]);
      AllKnown(vs[1..]);
      hide Known, Unknowns;
      assert vs == [vs[0]] + vs[1..];
    }
  }

  lemma {:induction false} ElementsKnown(es: seq<Element>)
    ensures (forall e :: e in es ==> Known(e.value)) <==> UnknownsAmong(es) == 0
    decreases es, 0
  {
    if es != [] {
      var e := es[0];
      assert e.value < e;
      KnownHasNoUnknowns(e.value);
      ElementsKnown(es[1..]);
      hide Known, Unknowns;
      assert es == [es[0]] + es[1..];
    }
  }

  /** Writing and reading gives a value back exactly when every part of it is of a known type. */
  lemma RoundTrip(v: Value)
    requires InRange(v)
    ensures Survives(v) <==> Known(v)
  {
    if Known(v) {
      KnownSurvives(v);
    } else if Survives(v) {
      hide ReadValue, Write, InRange, Known, Unknowns;
      KnownHasNoUnknowns(v);
      var s := Write(v) + [];
      assert ReadValue(s) == Some(Read(v, |Write(v)|));
      RewriteShrinks(s);
      assert false;
    }
  }

  /** A value of an unknown type is read, and cannot be written back. */
  lemma UnknownIsLost()
    ensures ReadValue([1]) == Some(Read(Unknown(1), 1)) && !Survives(Unknown(1))
  {
    RoundTrip(Unknown(1));
  }

  // --- The writer as it runs ------------------------------------------------------------------------

  /** The stream, of which encoded values only use the end. */
  class Output {
    var bytes: seq<Byte>

    constructor ()
      ensures bytes == []
    {
      bytes := [];
    }

    method Put(b: seq<Byte>)
      modifies this
      ensures bytes == old(bytes) + b
    {
      bytes := bytes + b;
    }
  }

  method StoreAfter(buffer: array<Byte>, length: nat, x: Byte)
    requires length < buffer.Length
    modifies buffer
    ensures buffer[..length + 1] == old(buffer[..length]) + [x]
  {
    buffer[length] := x;
  }

  method StoreBefore(buffer: array<Byte>, index: nat, end: nat, x: Byte)
    requires index < end <= buffer.Length
    modifies buffer
    ensures buffer[index..end] == [x] + old(buffer[index + 1..end])
  {
    buffer[index] := x;
  }

  lemma IntBytesStep(v: int)
    requires !(-0x80 <= v <= 0x7f)
    ensures IntBytes(v) == [v % 256] + IntBytes(v / 256)
  {
  }

  /** For both int and long values. */
  method EncodeIntValue(value: int, buffer: array<Byte>) returns (length: nat)
    requires buffer.Length == 8 && 0 - Pow256(8) <= 2 * value < Pow256(8)
    modifies buffer
    ensures length <= 8 && buffer[..length] == IntBytes(value)
  {
    IntBytesMean(value, 8);
    hide IntBytes, Pow256;
    var v := value;
    length := 0;
    if v >= 0 {
      while v > 0x7f
        invariant 0 <= v && length <= 8
        invariant buffer[..length] + IntBytes(v) == IntBytes(value)
      {
        IntBytesStep(v);
        MoveByte(buffer[..length], v % 256, IntBytes(v / 256));
        StoreAfter(buffer, length, v % 256);
        length := length + 1;
        v := v / 256;
      }
    } else {
      while v < -0x80
        invariant v < 0 && length <= 8
        invariant buffer[..length] + IntBytes(v) == IntBytes(value)
        decreases 0 - v
      {
        IntBytesStep(v);
        MoveByte(buffer[..length], v % 256, IntBytes(v / 256));
        StoreAfter(buffer, length, v % 256);
        length := length + 1;
        v := v / 256;
      }
    }
    IntBytesLast(v);
    StoreAfter(buffer, length, v % 256);
    length := length + 1;
  }

  lemma MoveByte(done: seq<Byte>, x: Byte, rest: seq<Byte>)
    ensures done + ([x] + rest) == (done + [x]) + rest
  {
  }

  lemma IntBytesLast(v: int)
    requires -0x80 <= v <= 0x7f
    ensures IntBytes(v) == [v % 256]
  {
  }

  method EncodeUIntValue(value: nat, buffer: array<Byte>) returns (length: nat)
    requires buffer.Length == 8 && value < Pow256(8)
    modifies buffer
    ensures length <= 8 && buffer[..length] == UIntBytes(value)
  {
    UIntBytesMean(value, 8);
    hide UIntBytes, Pow256;
    UIntBytesStep(value);
    StoreAfter(buffer, 0, value % 256);
    var v := value / 256;
    length := 1;
    while v != 0
      invariant 0 <= v && 1 <= length <= 8
      invariant buffer[..length] + UIntRest(v) == UIntBytes(value)
    {
      UIntBytesStep(v);
      MoveByte(buffer[..length], v % 256, UIntRest(v / 256));
      StoreAfter(buffer, length, v % 256);
      length := length + 1;
      v := v / 256;
    }
  }

  function UIntRest(v: nat): seq<Byte> {
    if v == 0 then [] else UIntBytes(v)
  }

  lemma UIntBytesStep(v: nat)
    ensures UIntBytes(v) == [v % 256] + UIntRest(v / 256)
  {
  }

  /** Shifting left within `n` bytes drops the top byte. */
  lemma ShiftTop(low: nat, i: nat, n: nat)
    requires i < n && low < Pow256(n - i)
    ensures low * Pow256(i) / Pow256(n - 1) == low / Pow256(n - 1 - i)
    ensures low * Pow256(i) * 256 % Pow256(n) == low % Pow256(n - 1 - i) * Pow256(i + 1)
  {
    PowSplit(n - 1 - i, i);
    PowSplit(n - 1 - i, i + 1);
    DivScale(low, Pow256(n - 1 - i), Pow256(i));
    ModScale(low, Pow256(n - 1 - i), Pow256(i + 1));
    ScaleLast(low, Pow256(i));
  }

  lemma ScaleLast(x: int, p: int)
    ensures x * p * 256 == x * (256 * p)
  {
  }

  /** For floats, `n` being 4, and doubles, `n` being 8: the bytes end at `buffer[n]`. */
  method EncodeRightFilled(bits: nat, n: nat, buffer: array<Byte>) returns (length: nat)
    requires buffer.Length == 8 && 1 <= n <= 8 && bits < Pow256(n)
    modifies buffer
    ensures 1 <= length <= n && buffer[n - length..n] == TopBytes(bits, n)
  {
    hide *;
    RightFirst(bits, n);
    var left := n;
    StoreBefore(buffer, left - 1, n, ShiftedOut(bits, n));
    var v := ShiftedOn(bits, n);
    left := left - 1;
    ghost var low := LowPart(bits, left);
    ghost var done := buffer[left..n];
    assert done == [ShiftedOut(bits, n)];
    while v != 0
      invariant 0 <= left < n && done == buffer[left..n]
      invariant RightInv(bits, n, left, low, v, done)
      decreases left
    {
      RightMove(bits, n, left, low, v, done);
      StoreBefore(buffer, left - 1, n, ShiftedOut(v, n));
      done := [ShiftedOut(v, n)] + done;
      v := ShiftedOn(v, n);
      left := left - 1;
      low := LowPart(low, left);
    }
    RightEnd(bits, n, left, low, v, done);
    length := n - left;
  }

  /** The bytes that are done are the end of what is to be written; the variable holds the rest. */
  ghost predicate RightInv(bits: nat, n: nat, left: nat, low: int, v: int, done: seq<Byte>) {
    && left < n && bits < Pow256(n)
    && 0 <= low < Pow256(left) && v == Scaled(low, n - left)
    && (low == 0) == (v == 0) && (low != 0 ==> left >= 1)
    && v >= 0
    && TopRest(low, left) + done == TopBytes(bits, n)
  }

  lemma RightFirst(bits: nat, n: nat)
    requires n >= 1 && bits < Pow256(n)
    ensures 0 <= ShiftedOut(bits, n) < 256
    ensures RightInv(bits, n, n - 1, LowPart(bits, n - 1), ShiftedOn(bits, n), [ShiftedOut(bits, n)])
  {
    hide Pow256, Scaled, LowPart, ShiftedOut, ShiftedOn, TopRest, TopBytes;
    RightStep(bits, n, n);
  }

  lemma RightMove(bits: nat, n: nat, left: nat, low: int, v: int, done: seq<Byte>)
    requires RightInv(bits, n, left, low, v, done) && v != 0
    ensures v >= 0 && left >= 1 && 0 <= ShiftedOut(v, n) < 256 && 0 <= low
    ensures RightInv(bits, n, left - 1, LowPart(low, left - 1), ShiftedOn(v, n), [ShiftedOut(v, n)] + done)
  {
    hide Pow256, Scaled, LowPart, ShiftedOut, ShiftedOn, TopRest, TopBytes;
    RightStep(low, left, n);
    MoveByte(TopRest(LowPart(low, left - 1), left - 1), ShiftedOut(v, n), done);
  }

  lemma RightEnd(bits: nat, n: nat, left: nat, low: int, v: int, done: seq<Byte>)
    requires RightInv(bits, n, left, low, v, done) && v == 0
    ensures done == TopBytes(bits, n)
  {
    NothingRests(left);
  }

  lemma NothingRests(n: nat)
    ensures TopRest(0, n) == []
  {
  }

  ghost function Scaled(low: nat, i: nat): int {
    low * Pow256(i)
  }

  ghost function LowPart(low: nat, i: nat): int {
    low % Pow256(i)
  }

  /** The top one of `n` bytes. */
  function ShiftedOut(v: nat, n: nat): int
    requires n >= 1
  {
    v / Pow256(n - 1)
  }

  /** `n` bytes shifted left by one. */
  function ShiftedOn(v: nat, n: nat): int {
    v * 256 % Pow256(n)
  }

  /** With `left` bytes to go, the variable holding the rest of the number shifted to the top. */
  lemma RightStep(low: nat, left: nat, n: nat)
    requires 1 <= left <= n && low < Pow256(left)
    ensures left == n ==> Scaled(low, n - left) == low
    ensures Scaled(low, n - left) >= 0
    ensures var v, low' := Scaled(low, n - left), LowPart(low, left - 1);
            && 0 <= ShiftedOut(v, n) < 256
            && 0 <= low' < Pow256(left - 1) && (low' != 0 ==> left >= 2)
            && ShiftedOn(v, n) == Scaled(low', n - left + 1) && ShiftedOn(v, n) >= 0
            && (low' == 0) == (ShiftedOn(v, n) == 0)
            && TopBytes(low, left) == TopRest(low', left - 1) + [ShiftedOut(v, n)]
    ensures low != 0 ==> TopBytes(low, left) == TopRest(low, left)
  {
    hide TopBytes, Pow256;
    PowZero();
    TopBytesStep(low, left);
    MulAtLeast(0, low, Pow256(n - left));
    ShiftTop(low, n - left, n);
    NonZero(low % Pow256(left - 1), Pow256(n - left + 1));
  }

  /** The bytes still to come. */
  ghost function TopRest(low: nat, n: nat): seq<Byte>
    requires low < Pow256(n) && (low != 0 ==> n >= 1)
  {
    if low == 0 then [] else TopBytes(low, n)
  }

  lemma TopBytesStep(v: nat, n: nat)
    requires n >= 1 && v < Pow256(n)
    ensures 0 <= v / Pow256(n - 1) < 256 && 0 <= v % Pow256(n - 1) < Pow256(n - 1)
    ensures v % Pow256(n - 1) != 0 ==> n >= 2
    ensures TopBytes(v, n) == TopRest(v % Pow256(n - 1), n - 1) + [v / Pow256(n - 1)]
  {
    TopByte(v, n);
  }

  lemma KindPayload(k: Kind, n: int)
    requires InKind(k, n)
    ensures k in {KByte, KShort, KInt, KLong} ==> 0 - Pow256(8) <= 2 * n < Pow256(8) && Payload(k, n) == IntBytes(n)
    ensures k == KFloat ==> 0 <= n < Pow256(4) && Payload(k, n) == TopBytes(n, 4)
    ensures k == KDouble ==> 0 <= n < Pow256(8) && Payload(k, n) == TopBytes(n, 8)
    ensures k !in {KByte, KShort, KInt, KLong, KFloat, KDouble} ==> 0 <= n < Pow256(8) && Payload(k, n) == UIntBytes(n)
  {
    Powers();
  }

  /** The bytes of a number, as the buffer and the part of it that the writer picks. */
  method EncodeNumber(k: Kind, n: int, buffer: array<Byte>) returns (start: nat, length: nat)
    requires InKind(k, n) && buffer.Length == 8
    modifies buffer
    ensures start + length <= 8 && buffer[start..start + length] == Payload(k, n)
  {
    hide *;
    KindPayload(k, n);
    start := 0;
    match k {
      case KByte | KShort | KInt | KLong => length := EncodeIntValue(n, buffer);
      case KFloat | KDouble =>
        var width := if k == KFloat then 4 else 8;
        length := EncodeRightFilled(n, width, buffer);
        start := width - length;
      case _ => length := EncodeUIntValue(n, buffer);
    }
    assert start == 0 ==> buffer[..length] == buffer[start..start + length];
  }

  lemma WriteNumber(k: Kind, n: int)
    requires InKind(k, n)
    ensures 1 <= |Payload(k, n)| <= 8 && 0 <= Code(k) < 32
    ensures Write(Num(k, n)) == Header(Code(k), |Payload(k, n)| - 1) + Payload(k, n)
  {
    PayloadMeans(k, n);
  }

  method WriteEncodedNumber(stream: Output, k: Kind, n: int)
    requires InKind(k, n)
    modifies stream
    ensures stream.bytes == old(stream.bytes) + Write(Num(k, n))
  {
    hide *;
    WriteNumber(k, n);
    var buffer := new Byte[8];
    var start, length := EncodeNumber(k, n, buffer);
    Regroup(stream.bytes, Header(Code(k), length - 1), Payload(k, n));
    stream.Put(Header(Code(k), length - 1));
    stream.Put(buffer[start..start + length]);
  }

  method WriteEncodedValue(stream: Output, v: Value)
    requires InRange(v)
    modifies stream
    ensures stream.bytes == old(stream.bytes) + Write(v)
    decreases v, 1
  {
    hide EncodeUnsigned, WriteAll, WriteElements, Header;
    match v {
      case Num(k, n) => WriteEncodedNumber(stream, k, n);
      case Bool(b) => stream.Put(Header(BOOLEAN, if b then 1 else 0));
      case Null => stream.Put(Header(NULL, 0));
      case Array(elems) =>
        Regroup(stream.bytes, Header(ARRAY, 0), EncodeUnsigned(|elems|) + WriteAll(elems));
        stream.Put(Header(ARRAY, 0));
        WriteEncodedArray(stream, elems);
      case Annotation(typeIdx, elements) =>
        Regroup(stream.bytes, Header(ANNOTATION, 0),
                EncodeUnsigned(typeIdx) + (EncodeUnsigned(|elements|) + WriteElements(elements)));
        stream.Put(Header(ANNOTATION, 0));
        WriteEncodedAnnotation(stream, typeIdx, elements);
      case Unknown(_) =>
    }
  }

  method WriteUleb128(stream: Output, n: nat)
    modifies stream
    ensures stream.bytes == old(stream.bytes) + EncodeUnsigned(n)
  {
    var b := EncodeUnsignedLeb128(n);
    stream.Put(b);
  }

  method WriteEncodedArray(stream: Output, values: seq<Value>)
    requires forall e :: e in values ==> InRange(e)
    modifies stream
    ensures stream.bytes == old(stream.bytes) + (EncodeUnsigned(|values|) + WriteAll(values))
    decreases values, 0
  {
    hide Write, EncodeUnsigned, InRange;
    WriteUleb128(stream, |values|);
    for i := 0 to |values|
      invariant stream.bytes + WriteAll(values[i..]) == old(stream.bytes) + (EncodeUnsigned(|values|) + WriteAll(values))
    {
      assert values[i..][1..] == values[i + 1..];
      WriteEncodedValue(stream, values[i]);
    }
  }

  lemma WriteElementsStep(es: seq<Element>, i: nat)
    requires forall e :: e in es ==> e.name < TWO_32 && InRange(e.value)
    requires i < |es|
    ensures WriteElements(es[i..]) == EncodeUnsigned(es[i].name) + (Write(es[i].value) + WriteElements(es[i + 1..]))
  {
    assert es[i..][1..] == es[i + 1..];
  }

  lemma WriteElementsNone()
    ensures WriteElements([]) == []
  {
  }

  method WriteEncodedAnnotation(stream: Output, typeIdx: nat, elements: seq<Element>)
    requires forall e :: e in elements ==> e.name < TWO_32 && InRange(e.value)
    modifies stream
    ensures stream.bytes == old(stream.bytes) +
                            (EncodeUnsigned(typeIdx) + (EncodeUnsigned(|elements|) + WriteElements(elements)))
    decreases elements, 0
  {
    hide Write, EncodeUnsigned, InRange, WriteElements;
    ghost var all := WriteElements(elements);
    Regroup(stream.bytes, EncodeUnsigned(typeIdx), EncodeUnsigned(|elements|) + all);
    WriteUleb128(stream, typeIdx);
    Regroup(stream.bytes, EncodeUnsigned(|elements|), all);
    WriteUleb128(stream, |elements|);
    ghost var target := stream.bytes + all;
    assert elements[0..] == elements;
    for i := 0 to |elements|
      invariant stream.bytes + WriteElements(elements[i..]) == target
    {
      var e := elements[i];
      assert e.value < e;
      WriteElementsStep(elements, i);
      Regroup(stream.bytes, EncodeUnsigned(e.name), Write(e.value) + WriteElements(elements[i + 1..]));
      WriteUleb128(stream, e.name);
      Regroup(stream.bytes, Write(e.value), WriteElements(elements[i + 1..]));
      WriteEncodedValue(stream, e.value);
    }
    assert elements[|elements|..] == [];
    WriteElementsNone();
  }
}
