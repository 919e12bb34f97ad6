/**
 Encoded values: the encoded_value format of the Dalvik Executable format specification and the reader
 of dexlayout's IR builder.

 References into the id tables are kept as indices.
 */
module EncodedValue {
  import opened Arithmetic
  import opened Bytes
  import opened Leb128
  import opened Wrappers

  datatype Kind =
    | KByte | KShort | KChar | KInt | KLong | KFloat | KDouble
    | KMethodType | KMethodHandle | KString | KType | KField | KMethod | KEnum

  /** Floating-point values are kept as their bits. */
  datatype Value =
    | Num(kind: Kind, n: int)
    | Bool(b: bool)
    | Null
    | Array(elems: seq<Value>)
    | Annotation(typeIdx: nat, elements: seq<Element>)
    | Unknown(code: Byte)

  datatype Element = Element(name: nat, value: Value)

  function Code(k: Kind): Byte {
    match k
    case KByte => 0x00 case KShort => 0x02 case KChar => 0x03 case KInt => 0x04 case KLong => 0x06
    case KFloat => 0x10 case KDouble => 0x11 case KMethodType => 0x15 case KMethodHandle => 0x16
    case KString => 0x17 case KType => 0x18 case KField => 0x19 case KMethod => 0x1a case KEnum => 0x1b
  }

  const ARRAY: Byte := 0x1c
  const ANNOTATION: Byte := 0x1d
  const NULL: Byte := 0x1e
  const BOOLEAN: Byte := 0x1f

  function KindOf(code: Byte): Option<Kind> {
    match code
    case 0x00 => Some(KByte) case 0x02 => Some(KShort) case 0x03 => Some(KChar) case 0x04 => Some(KInt)
    case 0x06 => Some(KLong) case 0x10 => Some(KFloat) case 0x11 => Some(KDouble)
    case 0x15 => Some(KMethodType) case 0x16 => Some(KMethodHandle) case 0x17 => Some(KString)
    case 0x18 => Some(KType) case 0x19 => Some(KField) case 0x1a => Some(KMethod) case 0x1b => Some(KEnum)
    case _ => None
  }

  // --- Little-endian numbers ------------------------------------------------------------------------

  function Pow256(n: nat): (p: nat)
    ensures p >= 1
  {
    if n == 0 then 1 else 256 * Pow256(n - 1)
  }

  lemma Powers()
    ensures Pow256(0) == 1 && Pow256(1) == 0x100 && Pow256(2) == 0x1_0000 && Pow256(3) == 0x100_0000
    ensures Pow256(4) == 0x1_0000_0000 && Pow256(5) == 0x100_0000_0000 && Pow256(6) == 0x1_0000_0000_0000
    ensures Pow256(7) == 0x100_0000_0000_0000 && Pow256(8) == 0x1_0000_0000_0000_0000
  {
    assert Pow256(2) == 256 * Pow256(1);
    assert Pow256(4) == 256 * Pow256(3);
    assert Pow256(6) == 256 * Pow256(5);
    assert Pow256(8) == 256 * Pow256(7);
  }

  function Le(b: seq<Byte>): nat {
    if b == [] then 0 else b[0] as int + 256 * Le(b[1..])
  }

  lemma {:induction false} LeBound(b: seq<Byte>)
    ensures Le(b) < Pow256(|b|)
  {
    if b != [] {
      LeBound(b[1..]);
    }
  }

  lemma {:induction false} LeAppend(b: seq<Byte>, x: Byte)
    ensures Le(b + [x]) == Le(b) + x as int * Pow256(|b|)
  {
    if b == [] {
      assert b + [x] == [x];
      assert [x][1..] == [];
    } else {
      assert (b + [x])[1..] == b[1..] + [x];
      LeAppend(b[1..], x);
      var p := Pow256(|b[1..]|);
      assert 256 * (x as int * p) == x as int * (256 * p);
    }
  }

  function SignedLe(b: seq<Byte>): int {
    SignExtend(Le(b), Pow256(|b|))
  }

  // --- Reading a number of variable width -----------------------------------------------------------

  /** Shifting left in 64 bits and arithmetically back is sign extension. */
  lemma ShiftSignExtends(value: nat, n: nat)
    requires 1 <= n <= 8 && value < Pow256(n)
    ensures Wrap(value * Pow256(8 - n), Pow256(8)) / Pow256(8 - n) == SignExtend(value, Pow256(n))
  {
    Powers();
    var h, q := Pow256(n) / 2, Pow256(8 - n);
    assert 2 * h == Pow256(n) && 2 * (h * q) == Pow256(8);
    ShiftBack(value, h, q, Pow256(8));
  }

  /** Reads `length + 1` bytes and moves the cursor; with `signExtend` the top bit is the sign. */
  method ReadVarWidth(data: seq<Byte>, cursor: nat, length: nat, signExtend: bool) returns (value: int, cursor': nat)
    requires length < 8 && cursor + length + 1 <= |data|
    ensures cursor' == cursor + length + 1
    ensures value == if signExtend then SignedLe(data[cursor..cursor']) else Le(data[cursor..cursor'])
  {
    value, cursor' := 0, cursor;
    for i := 0 to length + 1
      invariant cursor' == cursor + i
      invariant value == Le(data[cursor..cursor'])
    {
      hide Pow256, Le;
      assert data[cursor..cursor' + 1] == data[cursor..cursor'] + [data[cursor']];
      LeAppend(data[cursor..cursor'], data[cursor']);
      value := value + data[cursor'] as int * Pow256(i);
      cursor' := cursor' + 1;
    }
    if signExtend {
      hide Pow256, Le, Wrap;
      LeBound(data[cursor..cursor']);
      ShiftSignExtends(value, length + 1);
      value := Wrap(value * Pow256(7 - length), Pow256(8)) / Pow256(7 - length);
    }
  }

  /** What the reader makes of the bytes of a number; a float wider than four bytes has no meaning. */
  function ReadNum(k: Kind, payload: seq<Byte>): Option<int>
    requires 1 <= |payload| <= 8
  {
    match k
    case KByte => Some(Wrap(Le(payload), 0x100))
    case KShort => Some(Wrap(SignedLe(payload), 0x1_0000))
    case KChar => Some(Le(payload) % 0x1_0000)
    case KInt => Some(Wrap(SignedLe(payload), TWO_32))
    case KLong => Some(Wrap(SignedLe(payload), Pow256(8)))
    case KFloat => if |payload| > 4 then None else Some(Le(payload) % TWO_32 * Pow256(4 - |payload|) % TWO_32)
    case KDouble => Some(Le(payload) * Pow256(8 - |payload|) % Pow256(8))
    case _ => Some(Le(payload) % TWO_32)
  }

  // --- The format -----------------------------------------------------------------------------------

  function MaxWidth(k: Kind): nat {
    match k
    case KByte => 1
    case KShort => 2
    case KChar => 2
    case KLong => 8
    case KDouble => 8
    case _ => 4
  }

  /** The number that a payload of legal width stands for. */
  function Meaning(k: Kind, payload: seq<Byte>): int
    requires 1 <= |payload| <= MaxWidth(k)
  {
    match k
    case KByte => SignedLe(payload)
    case KShort => SignedLe(payload)
    case KInt => SignedLe(payload)
    case KLong => SignedLe(payload)
    case KFloat => Le(payload) * Pow256(4 - |payload|)
    case KDouble => Le(payload) * Pow256(8 - |payload|)
    case _ => Le(payload)
  }

  /** At every legal width the reader finds the number meant. */
  lemma ReadNumMeaning(k: Kind, payload: seq<Byte>)
    requires 1 <= |payload| <= MaxWidth(k)
    ensures ReadNum(k, payload) == Some(Meaning(k, payload))
  {
    hide Le, SignedLe, Wrap, Pow256;
    match k
    case KFloat => RightFillFits(payload, 4);
    case KDouble => RightFillFits(payload, 8);
    case KByte => WrapByte(payload);
    case KShort => SignedFits(payload, 2);
    case KInt => SignedFits(payload, 4);
    case KLong => SignedFits(payload, 8);
    case _ => UnsignedFits(payload, MaxWidth(k));
  }

  lemma {:induction false} PowMonotone(i: nat, j: nat)
    requires i <= j
    ensures Pow256(i) <= Pow256(j)
    ensures i < j ==> 2 * Pow256(i) <= Pow256(j)
    decreases j
  {
    if i < j {
      PowMonotone(i, j - 1);
    }
  }

  lemma UnsignedFits(payload: seq<Byte>, n: nat)
    requires |payload| <= n <= 4
    ensures Le(payload) % Pow256(n) == Le(payload)
    ensures Pow256(2) == 0x1_0000 && Pow256(4) == TWO_32
  {
    LeBound(payload);
    PowMonotone(|payload|, n);
    Powers();
    SmallMod(Le(payload), Pow256(n));
  }

  /** A signed number of at most `n` bytes survives conversion to a type of `n` bytes. */
  lemma SignedFits(payload: seq<Byte>, n: nat)
    requires 1 <= |payload| <= n <= 8
    ensures Wrap(SignedLe(payload), Pow256(n)) == SignedLe(payload)
    ensures Pow256(2) == 0x1_0000 && Pow256(4) == TWO_32
  {
    LeBound(payload);
    Powers();
    var x, p, q := Le(payload), Pow256(|payload|), Pow256(n);
    PowMonotone(|payload|, n);
    assert p % 2 == 0;
    WrapSmall(SignExtend(x, p), q);
  }

  lemma WrapSmall(x: int, limit: nat)
    requires limit > 0 && limit % 2 == 0 && 0 - limit <= 2 * x < limit
    ensures Wrap(x, limit) == x
  {
    if x >= 0 {
      SmallMod(x, limit);
    } else {
      assert (x + limit) % limit == x + limit by {
        SmallMod(x + limit, limit);
      }
      ModShift(x, limit);
    }
  }

  lemma WrapByte(payload: seq<Byte>)
    requires |payload| == 1
    ensures Wrap(Le(payload), 0x100) == SignedLe(payload)
  {
    LeBound(payload);
    Powers();
  }

  lemma RightFillFits(payload: seq<Byte>, n: nat)
    requires 1 <= |payload| <= n && (n == 4 || n == 8)
    ensures Le(payload) % Pow256(n) == Le(payload)
    ensures Le(payload) * Pow256(n - |payload|) % Pow256(n) == Le(payload) * Pow256(n - |payload|)
    ensures Pow256(4) == TWO_32
  {
    LeBound(payload);
    Powers();
    PowMonotone(|payload|, n);
    PowSplit(|payload|, n - |payload|);
    var x, p, q := Le(payload), Pow256(|payload|), Pow256(n - |payload|);
    MulLess(x, p, q);
    MulAtLeast(0, x, q);
    SmallMod(x, Pow256(n));
    SmallMod(x * q, Pow256(n));
  }

  lemma {:induction false} PowSplit(i: nat, j: nat)
    ensures Pow256(i) * Pow256(j) == Pow256(i + j)
  {
    if i > 0 {
      PowSplit(i - 1, j);
      ScaleProduct(Pow256(i - 1), Pow256(j));
    }
  }

  /** The syntax of the format: a value as it is laid out, with the widths chosen for it. */
  datatype Wire =
    | WNum(kind: Kind, payload: seq<Byte>)
    | WBool(b: bool)
    | WNull
    | WArray(size: seq<Byte>, elems: seq<Wire>)
    | WAnnotation(typeIdx: seq<Byte>, size: seq<Byte>, elements: seq<WElement>)

  datatype WElement = WElement(name: seq<Byte>, value: Wire)

  predicate WellFormed(w: Wire)
    decreases w
  {
    match w
    case WNum(k, payload) => 1 <= |payload| <= MaxWidth(k)
    case WArray(size, elems) => IsUleb(size, |elems|) && forall e :: e in elems ==> WellFormed(e)
    case WAnnotation(typeIdx, size, elements) =>
      && IsUleb(typeIdx, UnsignedValue(typeIdx)) && IsUleb(size, |elements|)
      && forall e :: e in elements ==> IsUleb(e.name, UnsignedValue(e.name)) && WellFormed(e.value)
    case _ => true
  }

  function Header(code: Byte, arg: nat): seq<Byte>
    requires code < 32 && arg < 8
  {
    [arg * 32 + code as int]
  }

  function Render(w: Wire): seq<Byte>
    requires WellFormed(w)
    decreases w, 1
  {
    match w
    case WNum(k, payload) => Header(Code(k), |payload| - 1) + payload
    case WBool(b) => Header(BOOLEAN, if b then 1 else 0)
    case WNull => Header(NULL, 0)
    case WArray(size, elems) => Header(ARRAY, 0) + (size + RenderAll(elems))
    case WAnnotation(typeIdx, size, elements) => Header(ANNOTATION, 0) + (typeIdx + (size + RenderElements(elements)))
  }

  function RenderAll(ws: seq<Wire>): seq<Byte>
    requires forall e :: e in ws ==> WellFormed(e)
    decreases ws, 0
  {
    if ws == [] then [] else Render(ws[0]) + RenderAll(ws[1..])
  }

  function RenderElements(es: seq<WElement>): seq<Byte>
    requires forall e :: e in es ==> IsUleb(e.name, UnsignedValue(e.name)) && WellFormed(e.value)
    decreases es, 0
  {
    if es == [] then [] else es[0].name + (Render(es[0].value) + RenderElements(es[1..]))
  }

  /** The value that a laid-out form stands for. */
  function ValueOf(w: Wire): Value
    requires WellFormed(w)
    decreases w, 1
  {
    match w
    case WNum(k, payload) => Num(k, Meaning(k, payload))
    case WBool(b) => Bool(b)
    case WNull => Null
    case WArray(_, elems) => Array(ValuesOf(elems))
    case WAnnotation(typeIdx, _, elements) => Annotation(UnsignedValue(typeIdx), ElementsOf(elements))
  }

  function ValuesOf(ws: seq<Wire>): (vs: seq<Value>)
    requires forall e :: e in ws ==> WellFormed(e)
    ensures |vs| == |ws|
    decreases ws, 0
  {
    if ws == [] then [] else [ValueOf(ws[0])] + ValuesOf(ws[1..])
  }

  function ElementsOf(es: seq<WElement>): (vs: seq<Element>)
    requires forall e :: e in es ==> IsUleb(e.name, UnsignedValue(e.name)) && WellFormed(e.value)
    ensures |vs| == |es|
    decreases es, 0
  {
    if es == [] then [] else [Element(UnsignedValue(es[0].name), ValueOf(es[0].value))] + ElementsOf(es[1..])
  }

  // --- The reader -----------------------------------------------------------------------------------

  /** Reads one value; running out of bytes has no result.  Every value takes at least one byte. */
  function ReadValue(s: seq<Byte>): (r: Option<Read<Value>>)
    ensures r.Some? ==> 1 <= r.value.size <= |s|
    decreases |s|, 0
  {
    if s == [] then None
    else
      var body := ReadBody(s[0] % 32, s[0] as int / 32, s[1..]);
      if body.None? then None else Some(Read(body.value.value, body.value.size + 1))
  }

  function ReadBody(code: Byte, arg: nat, s: seq<Byte>): (r: Option<Read<Value>>)
    requires arg < 8
    ensures r.Some? ==> r.value.size <= |s|
    decreases |s|, 3
  {
    var kind := KindOf(code);
    if kind.Some? then ReadNumber(kind.value, arg, s)
    else if code == ARRAY then ReadArray(s)
    else if code == ANNOTATION then ReadAnnotation(s)
    else if code == NULL then Some(Read(Null, 0))
    else if code == BOOLEAN then Some(Read(Bool(arg != 0), 0))
    else Some(Read(Unknown(code), 0))
  }

  function ReadNumber(k: Kind, arg: nat, s: seq<Byte>): (r: Option<Read<Value>>)
    requires arg < 8
    ensures r.Some? ==> r.value.size <= |s|
  {
    if |s| < arg + 1 then None
    else
      var n := ReadNum(k, s[..arg + 1]);
      if n.None? then None else Some(Read(Num(k, n.value), arg + 1))
  }

  function ReadArray(s: seq<Byte>): (r: Option<Read<Value>>)
    ensures r.Some? ==> r.value.size <= |s|
    decreases |s|, 2
  {
    var size := DecodeUnsigned(s);
    if size.None? then None
    else
      var elems := ReadValues(s[size.value.size..], size.value.value);
      if elems.None? then None
      else Some(Read(Array(elems.value.value), size.value.size + elems.value.size))
  }

  function ReadAnnotation(s: seq<Byte>): (r: Option<Read<Value>>)
    ensures r.Some? ==> r.value.size <= |s|
    decreases |s|, 2
  {
    var typeIdx := DecodeUnsigned(s);
    if typeIdx.None? then None
    else
      var elements := ReadCounted(s[typeIdx.value.size..]);
      if elements.None? then None
      else Some(Read(Annotation(typeIdx.value.value, elements.value.value), typeIdx.value.size + elements.value.size))
  }

  function ReadCounted(s: seq<Byte>): (r: Option<Read<seq<Element>>>)
    ensures r.Some? ==> r.value.size <= |s|
    decreases |s|, 2
  {
    var size := DecodeUnsigned(s);
    if size.None? then None
    else
      var elements := ReadElements(s[size.value.size..], size.value.value);
      if elements.None? then None
      else Some(Read(elements.value.value, size.value.size + elements.value.size))
  }

  function ReadValues(s: seq<Byte>, n: nat): (r: Option<Read<seq<Value>>>)
    ensures r.Some? ==> r.value.size <= |s| && |r.value.value| == n
    decreases |s|, 1
  {
    if n == 0 then Some(Read([], 0))
    else
      var first := ReadValue(s);
      if first.None? then None
      else
        var others := ReadValues(s[first.value.size..], n - 1);
        if others.None? then None
        else Some(Read([first.value.value] + others.value.value, first.value.size + others.value.size))
  }

  function ReadElements(s: seq<Byte>, n: nat): (r: Option<Read<seq<Element>>>)
    ensures r.Some? ==> r.value.size <= |s| && |r.value.value| == n
    decreases |s|, 1
  {
    if n == 0 then Some(Read([], 0))
    else
      var first := ReadElement(s);
      if first.None? then None
      else
        var others := ReadElements(s[first.value.size..], n - 1);
        if others.None? then None
        else Some(Read([first.value.value] + others.value.value, first.value.size + others.value.size))
  }

  function ReadElement(s: seq<Byte>): (r: Option<Read<Element>>)
    ensures r.Some? ==> 1 <= r.value.size <= |s|
    decreases |s|, 0
  {
    var name := DecodeUnsigned(s);
    if name.None? then None
    else
      var value := ReadValue(s[name.value.size..]);
      if value.None? then None
      else Some(Read(Element(name.value.value, value.value.value), name.value.size + value.value.size))
  }

  // One step of the reader at a time.

  lemma ReadHeader(code: Byte, arg: nat, s: seq<Byte>)
    requires code < 32 && arg < 8
    ensures ReadValue(Header(code, arg) + s) ==
            var body := ReadBody(code, arg, s);
            if body.None? then None else Some(Read(body.value.value, body.value.size + 1))
  {
    hide ReadBody;
    var b: Byte := arg * 32 + code as int;
    assert (Header(code, arg) + s)[1..] == s;
    assert b % 32 == code && b as int / 32 == arg;
  }

  lemma ReadArrayHeader(s: seq<Byte>, r: Read<Value>)
    requires ReadArray(s) == Some(r)
    ensures ReadValue(Header(ARRAY, 0) + s) == Some(Read(r.value, r.size + 1))
  {
    assert ReadBody(ARRAY, 0, s) == ReadArray(s);
    hide *;
    ReadHeader(ARRAY, 0, s);
  }

  lemma ReadAnnotationHeader(s: seq<Byte>, r: Read<Value>)
    requires ReadAnnotation(s) == Some(r)
    ensures ReadValue(Header(ANNOTATION, 0) + s) == Some(Read(r.value, r.size + 1))
  {
    assert ReadBody(ANNOTATION, 0, s) == ReadAnnotation(s);
    hide *;
    ReadHeader(ANNOTATION, 0, s);
  }

  lemma ReadNumBody(k: Kind, payload: seq<Byte>, rest: seq<Byte>)
    requires 1 <= |payload| <= MaxWidth(k)
    ensures ReadBody(Code(k), |payload| - 1, payload + rest) == Some(Read(Num(k, Meaning(k, payload)), |payload|))
  {
    assert KindOf(Code(k)) == Some(k);
    assert (payload + rest)[..|payload|] == payload;
    ReadNumMeaning(k, payload);
  }

  lemma ReadArrayStep(s: seq<Byte>, size: Read<nat>, elems: Read<seq<Value>>)
    requires DecodeUnsigned(s) == Some(size)
    requires ReadValues(s[size.size..], size.value) == Some(elems)
    ensures ReadArray(s) == Some(Read(Array(elems.value), size.size + elems.size))
  {
    hide ReadValues, DecodeUnsigned;
  }

  lemma ReadCountedStep(s: seq<Byte>, size: Read<nat>, elements: Read<seq<Element>>)
    requires DecodeUnsigned(s) == Some(size)
    requires ReadElements(s[size.size..], size.value) == Some(elements)
    ensures ReadCounted(s) == Some(Read(elements.value, size.size + elements.size))
  {
    hide ReadElements, DecodeUnsigned;
  }

  lemma ReadAnnotationStep(s: seq<Byte>, typeIdx: Read<nat>, elements: Read<seq<Element>>)
    requires DecodeUnsigned(s) == Some(typeIdx)
    requires ReadCounted(s[typeIdx.size..]) == Some(elements)
    ensures ReadAnnotation(s) == Some(Read(Annotation(typeIdx.value, elements.value), typeIdx.size + elements.size))
  {
    hide ReadCounted, DecodeUnsigned;
  }

  lemma ReadValuesStep(s: seq<Byte>, v: Read<Value>, n: nat, others: Read<seq<Value>>)
    requires ReadValue(s) == Some(v)
    requires ReadValues(s[v.size..], n) == Some(others)
    ensures ReadValues(s, n + 1) == Some(Read([v.value] + others.value, v.size + others.size))
  {
    hide ReadValue;
  }

  lemma ReadElementStep(s: seq<Byte>, name: Read<nat>, v: Read<Value>)
    requires DecodeUnsigned(s) == Some(name)
    requires ReadValue(s[name.size..]) == Some(v)
    ensures ReadElement(s) == Some(Read(Element(name.value, v.value), name.size + v.size))
  {
    hide ReadValue, DecodeUnsigned;
  }

  lemma ReadElementsStep(s: seq<Byte>, e: Read<Element>, n: nat, others: Read<seq<Element>>)
    requires ReadElement(s) == Some(e)
    requires ReadElements(s[e.size..], n) == Some(others)
    ensures ReadElements(s, n + 1) == Some(Read([e.value] + others.value, e.size + others.size))
  {
    hide ReadElement;
  }

  /**
   The reader inverts the format: for every layout, with arbitrary nesting and any legal widths, it
   finds the value meant and reads exactly its bytes, whatever follows.
   */
  lemma {:induction false} ReaderInverts(w: Wire, rest: seq<Byte>)
    requires WellFormed(w)
    ensures ReadValue(Render(w) + rest) == Some(Read(ValueOf(w), |Render(w)|))
    decreases w, 2
  {
    hide ReadValue;
    match w
    case WNum(k, payload) => ReaderInvertsNumber(k, payload, rest);
    case WBool(b) => ReaderInvertsBool(b, rest);
    case WNull => ReaderInvertsNull(rest);
    case WArray(_, _) => ReaderInvertsArray(w, rest);
    case WAnnotation(_, _, _) => ReaderInvertsAnnotation(w, rest);
  }

  lemma ReaderInvertsNumber(k: Kind, payload: seq<Byte>, rest: seq<Byte>)
    requires WellFormed(WNum(k, payload))
    ensures ReadValue(Render(WNum(k, payload)) + rest) == Some(Read(ValueOf(WNum(k, payload)), |payload| + 1))
  {
    hide ReadValue, ReadBody;
    Regroup(Header(Code(k), |payload| - 1), payload, rest);
    ReadHeader(Code(k), |payload| - 1, payload + rest);
    ReadNumBody(k, payload, rest);
  }

  lemma ReaderInvertsBool(b: bool, rest: seq<Byte>)
    ensures ReadValue(Render(WBool(b)) + rest) == Some(Read(Bool(b), 1))
  {
    ReadHeader(BOOLEAN, if b then 1 else 0, rest);
  }

  lemma ReaderInvertsNull(rest: seq<Byte>)
    ensures ReadValue(Render(WNull) + rest) == Some(Read(Null, 1))
  {
    ReadHeader(NULL, 0, rest);
  }

  lemma {:induction false} ReaderInvertsArray(w: Wire, rest: seq<Byte>)
    requires WellFormed(w) && w.WArray?
    ensures ReadValue(Render(w) + rest) == Some(Read(ValueOf(w), |Render(w)|))
    decreases w, 1
  {
    hide ReadValue, ReadValues, IsUleb;
    var all := RenderAll(w.elems);
    Regroup(w.size, all, rest);
    Regroup(Header(ARRAY, 0), w.size + all, rest);
    ReaderInvertsAll(w.elems, rest);
    ArrayOfParts(w.size, |w.elems|, all + rest, Read(ValuesOf(w.elems), |all|));
  }

  lemma ArrayOfParts(size: seq<Byte>, n: nat, tail: seq<Byte>, elems: Read<seq<Value>>)
    requires IsUleb(size, n)
    requires ReadValues(tail, n) == Some(elems)
    ensures ReadValue(Header(ARRAY, 0) + (size + tail)) == Some(Read(Array(elems.value), 1 + |size| + elems.size))
  {
    hide *;
    DecodeUnsignedInverts(size, n, tail);
    Afterwards(size, tail);
    ReadArrayStep(size + tail, Read(n, |size|), elems);
    ReadArrayHeader(size + tail, Read(Array(elems.value), |size| + elems.size));
  }

  lemma {:induction false} ReaderInvertsAnnotation(w: Wire, rest: seq<Byte>)
    requires WellFormed(w) && w.WAnnotation?
    ensures ReadValue(Render(w) + rest) == Some(Read(ValueOf(w), |Render(w)|))
    decreases w, 1
  {
    hide ReadValue, ReadElements, ReadCounted, IsUleb;
    var all := RenderElements(w.elements);
    Regroup(w.size, all, rest);
    Regroup(w.typeIdx, w.size + all, rest);
    Regroup(Header(ANNOTATION, 0), w.typeIdx + (w.size + all), rest);
    ReaderInvertsElements(w.elements, rest);
    CountedParts(w.size, |w.elements|, all + rest, Read(ElementsOf(w.elements), |all|));
    AnnotationOfParts(w.typeIdx, UnsignedValue(w.typeIdx), w.size + (all + rest),
                      Read(ElementsOf(w.elements), |w.size| + |all|));
  }

  lemma CountedParts(size: seq<Byte>, n: nat, tail: seq<Byte>, elements: Read<seq<Element>>)
    requires IsUleb(size, n)
    requires ReadElements(tail, n) == Some(elements)
    ensures ReadCounted(size + tail) == Some(Read(elements.value, |size| + elements.size))
  {
    hide *;
    DecodeUnsignedInverts(size, n, tail);
    Afterwards(size, tail);
    ReadCountedStep(size + tail, Read(n, |size|), elements);
  }

  lemma AnnotationOfParts(typeIdx: seq<Byte>, t: nat, tail: seq<Byte>, elements: Read<seq<Element>>)
    requires IsUleb(typeIdx, t)
    requires ReadCounted(tail) == Some(elements)
    ensures ReadValue(Header(ANNOTATION, 0) + (typeIdx + tail)) ==
            Some(Read(Annotation(t, elements.value), 1 + |typeIdx| + elements.size))
  {
    hide *;
    DecodeUnsignedInverts(typeIdx, t, tail);
    Afterwards(typeIdx, tail);
    ReadAnnotationStep(typeIdx + tail, Read(t, |typeIdx|), elements);
    ReadAnnotationHeader(typeIdx + tail, Read(Annotation(t, elements.value), |typeIdx| + elements.size));
  }

  lemma {:induction false} ReaderInvertsAll(ws: seq<Wire>, rest: seq<Byte>)
    requires forall e :: e in ws ==> WellFormed(e)
    ensures ReadValues(RenderAll(ws) + rest, |ws|) == Some(Read(ValuesOf(ws), |RenderAll(ws)|))
    decreases ws, 0
  {
    hide *;
    if ws == [] {
      ReadNoValues(ws, rest);
    } else {
      var others, b := ws[1..], Render(ws[0]);
      AllCons(ws);
      Regroup(b, RenderAll(others), rest);
      Afterwards(b, RenderAll(others) + rest);
      ReaderInverts(ws[0], RenderAll(others) + rest);
      ReaderInvertsAll(others, rest);
      ReadValuesStep(b + (RenderAll(others) + rest), Read(ValueOf(ws[0]), |b|), |others|,
                     Read(ValuesOf(others), |RenderAll(others)|));
    }
  }

  lemma ReadNoValues(ws: seq<Wire>, rest: seq<Byte>)
    requires ws == []
    ensures ReadValues(RenderAll(ws) + rest, |ws|) == Some(Read(ValuesOf(ws), |RenderAll(ws)|))
  {
  }

  lemma AllCons(ws: seq<Wire>)
    requires ws != [] && forall e :: e in ws ==> WellFormed(e)
    ensures RenderAll(ws) == Render(ws[0]) + RenderAll(ws[1..])
    ensures ValuesOf(ws) == [ValueOf(ws[0])] + ValuesOf(ws[1..])
  {
  }

  lemma ReaderInvertsElement(e: WElement, rest: seq<Byte>)
    requires IsUleb(e.name, UnsignedValue(e.name)) && WellFormed(e.value)
    requires ReadValue(Render(e.value) + rest) == Some(Read(ValueOf(e.value), |Render(e.value)|))
    ensures ReadElement((e.name + Render(e.value)) + rest) ==
            Some(Read(Element(UnsignedValue(e.name), ValueOf(e.value)), |e.name + Render(e.value)|))
  {
    hide *;
    var b := Render(e.value);
    var s := e.name + (b + rest);
    Regroup(e.name, b, rest);
    DecodeUnsignedInverts(e.name, UnsignedValue(e.name), b + rest);
    ReadElementStep(s, Read(UnsignedValue(e.name), |e.name|), Read(ValueOf(e.value), |b|));
  }

  lemma {:induction false} ReaderInvertsElements(es: seq<WElement>, rest: seq<Byte>)
    requires forall e :: e in es ==> IsUleb(e.name, UnsignedValue(e.name)) && WellFormed(e.value)
    ensures ReadElements(RenderElements(es) + rest, |es|) == Some(Read(ElementsOf(es), |RenderElements(es)|))
    decreases es, 0
  {
    if es != [] {
      var e, others := es[0], es[1..];
      var tail := RenderElements(others) + rest;
      ReaderInverts(e.value, tail);
      ReaderInvertsElement(e, tail);
      ReaderInvertsElements(others, rest);
      var b := e.name + Render(e.value);
      assert RenderElements(es) == b + RenderElements(others) by {
        Regroup(e.name, Render(e.value), RenderElements(others));
      }
      ElementsOfParts(b, Element(UnsignedValue(e.name), ValueOf(e.value)), RenderElements(others), rest,
                      |others|, ElementsOf(others));
    }
  }

  lemma ElementsOfParts(b: seq<Byte>, e: Element, all: seq<Byte>, rest: seq<Byte>, n: nat, others: seq<Element>)
    requires ReadElement(b + (all + rest)) == Some(Read(e, |b|))
    requires ReadElements(all + rest, n) == Some(Read(others, |all|))
    ensures ReadElements((b + all) + rest, n + 1) == Some(Read([e] + others, |b + all|))
  {
    hide *;
    Regroup(b, all, rest);
    Afterwards(b, all + rest);
    ReadElementsStep(b + (all + rest), Read(e, |b|), n, Read(others, |all|));
  }

  // --- The reader as it runs ------------------------------------------------------------------------

  /** What is left to read of a list, `values` of it having been read from the first `used` bytes. */
  ghost predicate ValuesLeft(s: seq<Byte>, size: nat, values: seq<Value>, used: nat) {
    && used <= |s| && |values| <= size && ReadValues(s, size).Some?
    && var others := ReadValues(s[used..], size - |values|);
       others.Some? && ReadValues(s, size).value == Read(values + others.value.value, used + others.value.size)
  }

  lemma ValuesLeftStart(s: seq<Byte>, size: nat)
    requires ReadValues(s, size).Some?
    ensures ValuesLeft(s, size, [], 0)
  {
    hide ReadValues;
    assert s[0..] == s;
    var all := ReadValues(s, size).value;
    assert [] + all.value == all.value;
  }

  lemma ValuesLeftStep(s: seq<Byte>, size: nat, values: seq<Value>, used: nat)
    requires ValuesLeft(s, size, values, used) && |values| < size
    ensures ReadValue(s[used..]).Some?
    ensures var first := ReadValue(s[used..]).value; ValuesLeft(s, size, values + [first.value], used + first.size)
  {
    hide ReadValue;
    var first := ReadValue(s[used..]).value;
    DropDrop(s, used, first.size);
    var others := ReadValues(s[used + first.size..], size - |values| - 1).value;
    assert values + ([first.value] + others.value) == (values + [first.value]) + others.value;
  }

  lemma ValuesLeftEnd(s: seq<Byte>, size: nat, values: seq<Value>, used: nat)
    requires ValuesLeft(s, size, values, used) && |values| == size
    ensures ReadValues(s, size) == Some(Read(values, used))
  {
    assert values + [] == values;
  }

  ghost predicate ElementsLeft(s: seq<Byte>, size: nat, elements: seq<Element>, used: nat) {
    && used <= |s| && |elements| <= size && ReadElements(s, size).Some?
    && var others := ReadElements(s[used..], size - |elements|);
       others.Some? && ReadElements(s, size).value == Read(elements + others.value.value, used + others.value.size)
  }

  lemma ElementsLeftStart(s: seq<Byte>, size: nat)
    requires ReadElements(s, size).Some?
    ensures ElementsLeft(s, size, [], 0)
  {
    hide ReadElements;
    assert s[0..] == s;
    var all := ReadElements(s, size).value;
    assert [] + all.value == all.value;
  }

  lemma ElementsLeftStep(s: seq<Byte>, size: nat, elements: seq<Element>, used: nat)
    requires ElementsLeft(s, size, elements, used) && |elements| < size
    ensures ReadElement(s[used..]).Some?
    ensures var first := ReadElement(s[used..]).value;
            ElementsLeft(s, size, elements + [first.value], used + first.size)
  {
    hide ReadElement;
    var first := ReadElement(s[used..]).value;
    DropDrop(s, used, first.size);
    var others := ReadElements(s[used + first.size..], size - |elements| - 1).value;
    assert elements + ([first.value] + others.value) == (elements + [first.value]) + others.value;
  }

  lemma ElementsLeftEnd(s: seq<Byte>, size: nat, elements: seq<Element>, used: nat)
    requires ElementsLeft(s, size, elements, used) && |elements| == size
    ensures ReadElements(s, size) == Some(Read(elements, used))
  {
    assert elements + [] == elements;
  }

  /** Reads the value at the cursor, which is moved behind it. */
  method ReadEncodedValue(data: seq<Byte>, cursor: nat) returns (item: Value, cursor': nat)
    requires cursor <= |data| && ReadValue(data[cursor..]).Some?
    ensures cursor < cursor' <= |data|
    ensures ReadValue(data[cursor..]) == Some(Read(item, cursor' - cursor))
    decreases |data| - cursor, 0
  {
    hide ReadBody;
    var b := data[cursor];
    DropDrop(data, cursor, 1);
    item, cursor' := ReadEncodedBody(data, cursor + 1, b % 32, b as int / 32);
  }

  method ReadEncodedBody(data: seq<Byte>, cursor: nat, code: Byte, length: nat) returns (item: Value, cursor': nat)
    requires cursor <= |data| && length < 8 && ReadBody(code, length, data[cursor..]).Some?
    ensures cursor <= cursor' <= |data|
    ensures ReadBody(code, length, data[cursor..]) == Some(Read(item, cursor' - cursor))
    decreases |data| - cursor, 3
  {
    hide ReadNumber, ReadArray, ReadAnnotation;
    var kind := KindOf(code);
    if kind.Some? {
      item, cursor' := ReadEncodedNumber(data, cursor, kind.value, length);
    } else if code == ARRAY {
      item, cursor' := ReadEncodedArray(data, cursor);
    } else if code == ANNOTATION {
      item, cursor' := ReadEncodedAnnotation(data, cursor);
    } else if code == NULL {
      item, cursor' := Null, cursor;
    } else if code == BOOLEAN {
      item, cursor' := Bool(length != 0), cursor;
    } else {
      item, cursor' := Unknown(code), cursor;
    }
  }

  method ReadEncodedNumber(data: seq<Byte>, cursor: nat, k: Kind, length: nat) returns (item: Value, cursor': nat)
    requires cursor <= |data| && length < 8 && ReadNumber(k, length, data[cursor..]).Some?
    ensures cursor <= cursor' <= |data|
    ensures ReadNumber(k, length, data[cursor..]) == Some(Read(item, cursor' - cursor))
  {
    hide Le, SignedLe, Pow256, Wrap;
    var value;
    value, cursor' := ReadVarWidth(data, cursor, length, k in {KShort, KInt, KLong});
    assert data[cursor..][..length + 1] == data[cursor..cursor'];
    match k {
      case KByte => item := Num(k, Wrap(value, 0x100));
      case KShort => item := Num(k, Wrap(value, 0x1_0000));
      case KChar => item := Num(k, value % 0x1_0000);
      case KInt => item := Num(k, Wrap(value, TWO_32));
      case KLong => item := Num(k, Wrap(value, Pow256(8)));
      case KFloat => item := Num(k, value % TWO_32 * Pow256(3 - length) % TWO_32);
      case KDouble => item := Num(k, value * Pow256(7 - length) % Pow256(8));
      case _ => item := Num(k, value % TWO_32);
    }
  }

  method ReadEncodedArray(data: seq<Byte>, cursor: nat) returns (item: Value, cursor': nat)
    requires cursor <= |data| && ReadArray(data[cursor..]).Some?
    ensures cursor <= cursor' <= |data|
    ensures ReadArray(data[cursor..]) == Some(Read(item, cursor' - cursor))
    decreases |data| - cursor, 2
  {
    hide ReadValues, ReadValue, ValuesLeft;
    var size;
    size, cursor' := DecodeUnsignedLeb128(data, cursor);
    ghost var first, s := cursor', data[cursor'..];
    DropDrop(data, cursor, first - cursor);
    ValuesLeftStart(s, size);
    var values := [];
    for i := 0 to size
      invariant first <= cursor' <= |data| && |values| == i
      invariant ValuesLeft(s, size, values, cursor' - first)
    {
      ValuesLeftStep(s, size, values, cursor' - first);
      DropDrop(data, first, cursor' - first);
      var value;
      value, cursor' := ReadEncodedValue(data, cursor');
      values := values + [value];
    }
    ValuesLeftEnd(s, size, values, cursor' - first);
    item := Array(values);
  }

  method ReadEncodedAnnotation(data: seq<Byte>, cursor: nat) returns (item: Value, cursor': nat)
    requires cursor <= |data| && ReadAnnotation(data[cursor..]).Some?
    ensures cursor <= cursor' <= |data|
    ensures ReadAnnotation(data[cursor..]) == Some(Read(item, cursor' - cursor))
    decreases |data| - cursor, 2
  {
    hide ReadCounted;
    var typeIdx, elements;
    typeIdx, cursor' := DecodeUnsignedLeb128(data, cursor);
    DropDrop(data, cursor, cursor' - cursor);
    elements, cursor' := ReadCountedElements(data, cursor');
    item := Annotation(typeIdx, elements);
  }

  method ReadCountedElements(data: seq<Byte>, cursor: nat) returns (elements: seq<Element>, cursor': nat)
    requires cursor <= |data| && ReadCounted(data[cursor..]).Some?
    ensures cursor <= cursor' <= |data|
    ensures ReadCounted(data[cursor..]) == Some(Read(elements, cursor' - cursor))
    decreases |data| - cursor, 2
  {
    hide ReadElements, ReadElement, ElementsLeft;
    var size;
    size, cursor' := DecodeUnsignedLeb128(data, cursor);
    ghost var first, s := cursor', data[cursor'..];
    DropDrop(data, cursor, first - cursor);
    ElementsLeftStart(s, size);
    elements := [];
    for i := 0 to size
      invariant first <= cursor' <= |data| && |elements| == i
      invariant ElementsLeft(s, size, elements, cursor' - first)
    {
      ElementsLeftStep(s, size, elements, cursor' - first);
      DropDrop(data, first, cursor' - first);
      var element;
      element, cursor' := ReadAnnotationElement(data, cursor');
      elements := elements + [element];
    }
    ElementsLeftEnd(s, size, elements, cursor' - first);
  }

  method ReadAnnotationElement(data: seq<Byte>, cursor: nat) returns (element: Element, cursor': nat)
    requires cursor <= |data| && ReadElement(data[cursor..]).Some?
    ensures cursor < cursor' <= |data|
    ensures ReadElement(data[cursor..]) == Some(Read(element, cursor' - cursor))
    decreases |data| - cursor, 0
  {
    hide ReadValue;
    var name, value;
    name, cursor' := DecodeUnsignedLeb128(data, cursor);
    DropDrop(data, cursor, cursor' - cursor);
    value, cursor' := ReadEncodedValue(data, cursor');
    element := Element(name, value);
  }
}
