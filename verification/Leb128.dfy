/**
 LEB128 integers, as the LEB128 section of the Dalvik Executable format defines them, with the decoders
 and encoders the program uses.
 */
module Leb128 {
  import opened Arithmetic
  import opened Bytes
  import opened Wrappers

  /** A value and the number of bytes it took. */
  datatype Read<+T> = Read(value: T, size: nat)

  const TWO_32 := 0x1_0000_0000
  const TWO_31 := 0x8000_0000

  // --- The format -----------------------------------------------------------------------------------

  /** A group of bytes of which all but the last have the high bit set. */
  predicate IsGroup(b: seq<Byte>, most: nat) {
    && 1 <= |b| <= most
    && b[|b| - 1] < 128
    && forall i :: 0 <= i < |b| - 1 ==> b[i] >= 128
  }

  lemma IsGroupCons(b: Byte, tail: seq<Byte>, most: nat)
    requires b >= 128 && IsGroup(tail, most)
    ensures IsGroup([b] + tail, most + 1)
  {
  }

  lemma IsGroupTail(b: seq<Byte>, most: nat)
    requires IsGroup(b, most + 1) && |b| > 1
    ensures b[0] >= 128 && IsGroup(b[1..], most)
  {
  }

  function Low7(b: Byte): nat {
    b % 128
  }

  function UnsignedValue(b: seq<Byte>): nat {
    if b == [] then 0 else Low7(b[0]) + 128 * UnsignedValue(b[1..])
  }

  /** Like `UnsignedValue`, the seven bits of the last byte being signed. */
  function SignedValue(b: seq<Byte>): int
    requires b != []
  {
    if |b| == 1 then SignExtend(Low7(b[0]), 128) else Low7(b[0]) + 128 * SignedValue(b[1..])
  }

  /** The top bit of a value below `limit` is the sign. */
  function SignExtend(n: nat, limit: nat): int {
    if n < limit / 2 then n else n - limit
  }

  /** `b` is an unsigned LEB128 form of `n`. */
  predicate IsUleb(b: seq<Byte>, n: nat) {
    IsGroup(b, 5) && UnsignedValue(b) == n && n < TWO_32
  }

  /** `b` is a signed LEB128 form of `n`. */
  predicate IsSleb(b: seq<Byte>, n: int) {
    IsGroup(b, 5) && SignedValue(b) == n && -TWO_31 <= n < TWO_31
  }

  // --- Decoding -------------------------------------------------------------------------------------

  /**
   What the decoder reads from the bytes, `i` of a group having been read: of the fifth byte only the
   low four bits count.  Reading beyond the end of the bytes has no result.
   */
  function UnsignedDigits(s: seq<Byte>, i: nat): (r: Option<Read<nat>>)
    requires i <= 4
    ensures r.Some? ==> 1 <= r.value.size <= 5 - i && r.value.size <= |s|
    decreases 4 - i
  {
    if s == [] then None
    else if i == 4 then Some(Read(s[0] as int % 16, 1))
    else if s[0] < 128 then Some(Read(Low7(s[0]), 1))
    else
      var r := UnsignedDigits(s[1..], i + 1);
      if r.None? then None else Some(Read(Low7(s[0]) + 128 * r.value.value, r.value.size + 1))
  }

  function SignedDigits(s: seq<Byte>, i: nat): (r: Option<Read<int>>)
    requires i <= 4
    ensures r.Some? ==> 1 <= r.value.size <= 5 - i && r.value.size <= |s|
    decreases 4 - i
  {
    if s == [] then None
    else if i == 4 then Some(Read(SignExtend(s[0] as int % 16, 16), 1))
    else if s[0] < 128 then Some(Read(SignExtend(Low7(s[0]), 128), 1))
    else
      var r := SignedDigits(s[1..], i + 1);
      if r.None? then None else Some(Read(Low7(s[0]) + 128 * r.value.value, r.value.size + 1))
  }

  function DecodeUnsigned(s: seq<Byte>): Option<Read<nat>> {
    UnsignedDigits(s, 0)
  }

  function DecodeSigned(s: seq<Byte>): Option<Read<int>> {
    SignedDigits(s, 0)
  }

  /** Values that `k` bytes can hold, the fifth holding four bits. */
  function Room(i: nat): nat
    requires i <= 4
    decreases 4 - i
  {
    if i == 4 then 16 else 128 * Room(i + 1)
  }

  lemma RoomIs32()
    ensures Room(0) == TWO_32
  {
    assert Room(2) == 128 * Room(3);
    assert Room(0) == 128 * Room(1);
  }

  lemma {:induction false} UnsignedDigitsInvert(b: seq<Byte>, i: nat, rest: seq<Byte>)
    requires i <= 4 && IsGroup(b, 5 - i)
    requires UnsignedValue(b) < Room(i)
    ensures UnsignedDigits(b + rest, i) == Some(Read(UnsignedValue(b), |b|))
    decreases 4 - i
  {
    assert |b| >= 1;
    hide *;
    if |b| == 1 {
      UnsignedLast(b, i, rest);
    } else {
      UnsignedTailFits(b, i);
      UnsignedDigitsInvert(b[1..], i + 1, rest);
      UnsignedDigitsCons(b, i, rest);
    }
  }

  lemma UnsignedLast(b: seq<Byte>, i: nat, rest: seq<Byte>)
    requires i <= 4 && IsGroup(b, 5 - i) && |b| == 1 && UnsignedValue(b) < Room(i)
    ensures UnsignedDigits(b + rest, i) == Some(Read(UnsignedValue(b), 1))
  {
    assert (b + rest)[0] == b[0] && b[1..] == [];
  }

  lemma UnsignedTailFits(b: seq<Byte>, i: nat)
    requires i <= 4 && IsGroup(b, 5 - i) && |b| > 1
    requires UnsignedValue(b) < Room(i)
    ensures i < 4 && b[0] >= 128 && IsGroup(b[1..], 4 - i) && UnsignedValue(b[1..]) < Room(i + 1)
  {
    IsGroupTail(b, 4 - i);
  }

  lemma UnsignedDigitsCons(b: seq<Byte>, i: nat, rest: seq<Byte>)
    requires i < 4 && |b| > 1 && b[0] >= 128
    requires UnsignedDigits(b[1..] + rest, i + 1) == Some(Read(UnsignedValue(b[1..]), |b| - 1))
    ensures UnsignedDigits(b + rest, i) == Some(Read(UnsignedValue(b), |b|))
  {
    assert (b + rest)[0] == b[0] && (b + rest)[1..] == b[1..] + rest;
  }

  /** The decoder inverts the format and reads exactly the bytes of the value. */
  lemma DecodeUnsignedInverts(b: seq<Byte>, n: nat, rest: seq<Byte>)
    requires IsUleb(b, n)
    ensures DecodeUnsigned(b + rest) == Some(Read(n, |b|))
  {
    RoomIs32();
    UnsignedDigitsInvert(b, 0, rest);
  }

  lemma {:induction false} SignedDigitsInvert(b: seq<Byte>, i: nat, rest: seq<Byte>)
    requires i <= 4 && IsGroup(b, 5 - i)
    requires 0 - Room(i) <= 2 * SignedValue(b) < Room(i)
    ensures SignedDigits(b + rest, i) == Some(Read(SignedValue(b), |b|))
    decreases 4 - i
  {
    assert |b| >= 1;
    hide *;
    if |b| == 1 {
      SignedLast(b, i, rest);
    } else {
      SignedTailFits(b, i);
      SignedDigitsInvert(b[1..], i + 1, rest);
      SignedDigitsCons(b, i, rest);
    }
  }

  lemma SignedLast(b: seq<Byte>, i: nat, rest: seq<Byte>)
    requires i <= 4 && IsGroup(b, 5 - i) && |b| == 1 && 0 - Room(i) <= 2 * SignedValue(b) < Room(i)
    ensures SignedDigits(b + rest, i) == Some(Read(SignedValue(b), 1))
  {
    assert (b + rest)[0] == b[0];
    if i == 4 && b[0] >= 64 {
      assert b[0] as int % 16 == b[0] as int - 112;
    }
  }

  lemma SignedTailFits(b: seq<Byte>, i: nat)
    requires i <= 4 && IsGroup(b, 5 - i) && |b| > 1
    requires 0 - Room(i) <= 2 * SignedValue(b) < Room(i)
    ensures i < 4 && b[0] >= 128 && IsGroup(b[1..], 4 - i)
    ensures 0 - Room(i + 1) <= 2 * SignedValue(b[1..]) < Room(i + 1)
  {
    IsGroupTail(b, 4 - i);
    RoomAtLeast(i + 1);
    Shrink(Low7(b[0]), SignedValue(b[1..]), Room(i + 1));
  }

  lemma SignedDigitsCons(b: seq<Byte>, i: nat, rest: seq<Byte>)
    requires i < 4 && |b| > 1 && b[0] >= 128
    requires SignedDigits(b[1..] + rest, i + 1) == Some(Read(SignedValue(b[1..]), |b| - 1))
    ensures SignedDigits(b + rest, i) == Some(Read(SignedValue(b), |b|))
  {
    assert (b + rest)[0] == b[0] && (b + rest)[1..] == b[1..] + rest;
    SignedDigitsStep(b + rest, i, b[1..] + rest);
  }

  /** Dropping the low digit keeps a number within a signed range. */
  lemma Shrink(low: nat, q: int, limit: nat)
    requires low < 128 && limit % 2 == 0
    requires 0 - 128 * limit <= 2 * (low + 128 * q) < 128 * limit
    ensures 0 - limit <= 2 * q < limit
  {
  }

  lemma SignedDigitsStep(s: seq<Byte>, i: nat, tail: seq<Byte>)
    requires i < 4 && s != [] && s[0] >= 128 && s[1..] == tail
    requires SignedDigits(tail, i + 1).Some?
    ensures var r := SignedDigits(tail, i + 1).value;
            SignedDigits(s, i) == Some(Read(Low7(s[0]) + 128 * r.value, r.size + 1))
  {
  }

  lemma DecodeSignedInverts(b: seq<Byte>, n: int, rest: seq<Byte>)
    requires IsSleb(b, n)
    ensures DecodeSigned(b + rest) == Some(Read(n, |b|))
  {
    RoomIs32();
    SignedDigitsInvert(b, 0, rest);
  }

  /** What five bytes hold fits in 32 bits. */
  lemma {:induction false} UnsignedDigitsBound(s: seq<Byte>, i: nat)
    requires i <= 4
    ensures UnsignedDigits(s, i).Some? ==> UnsignedDigits(s, i).value.value < Room(i)
    decreases 4 - i
  {
    if s != [] && i < 4 {
      UnsignedDigitsBound(s[1..], i + 1);
      RoomAtLeast(i + 1);
    }
  }

  lemma {:induction false} RoomAtLeast(i: nat)
    requires i <= 4
    ensures Room(i) >= 16 && Room(i) % 2 == 0
    decreases 4 - i
  {
    if i < 4 {
      RoomAtLeast(i + 1);
    }
  }

  lemma DecodeUnsignedBound(s: seq<Byte>)
    ensures DecodeUnsigned(s).Some? ==> DecodeUnsigned(s).value.value < TWO_32
  {
    RoomIs32();
    UnsignedDigitsBound(s, 0);
  }

  /** One step of `UnsignedDigits`, on a byte that is not the last. */
  lemma DigitsStep(s: seq<Byte>, i: nat)
    requires i < 4 && UnsignedDigits(s, i).Some?
    ensures |s| > 0
    ensures s[0] < 128 ==> UnsignedDigits(s, i) == Some(Read(Low7(s[0]), 1))
    ensures s[0] >= 128 ==> |s| > 1 && UnsignedDigits(s[1..], i + 1).Some?
    ensures s[0] >= 128 ==>
              var r := UnsignedDigits(s[1..], i + 1).value;
              UnsignedDigits(s, i).value == Read(Low7(s[0]) + 128 * r.value, r.size + 1)
  {
  }

  /** The decoder as it stands: no loop, at most five bytes, the bits put together in place. */
  method DecodeUnsignedLeb128(data: seq<Byte>, cursor: nat) returns (result: nat, cursor': nat)
    requires cursor <= |data| && DecodeUnsigned(data[cursor..]).Some?
    ensures cursor < cursor' <= |data|
    ensures DecodeUnsigned(data[cursor..]) == Some(Read(result, cursor' - cursor))
  {
    hide UnsignedDigits;
    ghost var s0 := data[cursor..];
    DigitsStep(s0, 0);
    result, cursor' := data[cursor] as int, cursor + 1;
    if result > 0x7f {
      ghost var s1 := data[cursor'..];
      assert s0[1..] == s1;
      DigitsStep(s1, 1);
      var cur := data[cursor'] as int;
      result, cursor' := result % 128 + cur % 128 * 0x80, cursor' + 1;
      if cur > 0x7f {
        ghost var s2 := data[cursor'..];
        assert s1[1..] == s2;
        DigitsStep(s2, 2);
        cur := data[cursor'] as int;
        result, cursor' := result + cur % 128 * 0x4000, cursor' + 1;
        if cur > 0x7f {
          ghost var s3 := data[cursor'..];
          assert s2[1..] == s3;
          DigitsStep(s3, 3);
          cur := data[cursor'] as int;
          result, cursor' := result + cur % 128 * 0x20_0000, cursor' + 1;
          if cur > 0x7f {
            ghost var s4 := data[cursor'..];
            assert s3[1..] == s4;
            LastDigit(s4);
            cur := data[cursor'] as int;
            result, cursor' := result + cur % 16 * 0x1000_0000, cursor' + 1;
          }
        }
      }
    }
  }

  lemma LastDigit(s: seq<Byte>)
    requires UnsignedDigits(s, 4).Some?
    ensures |s| > 0 && UnsignedDigits(s, 4) == Some(Read(s[0] as int % 16, 1))
  {
  }

  /** One step of `SignedDigits`, on a byte that is not the last. */
  lemma SignedStep(s: seq<Byte>, i: nat)
    requires i < 4 && SignedDigits(s, i).Some?
    ensures |s| > 0
    ensures s[0] < 128 ==> SignedDigits(s, i) == Some(Read(SignExtend(Low7(s[0]), 128), 1))
    ensures s[0] >= 128 ==> |s| > 1 && SignedDigits(s[1..], i + 1).Some?
    ensures s[0] >= 128 ==>
              var r := SignedDigits(s[1..], i + 1).value;
              SignedDigits(s, i).value == Read(Low7(s[0]) + 128 * r.value, r.size + 1)
  {
  }

  lemma LastSignedDigit(s: seq<Byte>)
    requires SignedDigits(s, 4).Some?
    ensures |s| > 0 && SignedDigits(s, 4) == Some(Read(SignExtend(s[0] as int % 16, 16), 1))
  {
  }

  /** Conversion to a signed type of `limit` values. */
  function Wrap(n: int, limit: nat): int
    requires limit > 0
  {
    SignExtend(n % limit, limit)
  }

  lemma ShiftBack(value: nat, h: nat, q: nat, m: nat)
    requires h >= 1 && q >= 1 && value < 2 * h
    requires m == 2 * (h * q) && m > 0
    ensures Wrap(value * q, m) / q == SignExtend(value, 2 * h)
  {
    MulLess(value, 2 * h, q);
    assert 2 * h * q == m;
    SmallMod(value * q, m);
    if value < h {
      MulLess(value, h, q);
      DivExact(value, q);
    } else {
      MulAtLeast(h, value, q);
      assert value * q - m == (value - 2 * h) * q;
      DivExact(value - 2 * h, q);
    }
  }

  /** Of the fifth byte the upper half falls off the top. */
  lemma TopBits(low: nat, cur: nat)
    requires low < 0x1000_0000 && cur < 0x100
    ensures Wrap(low + cur * 0x1000_0000, TWO_32) == SignExtend(low + cur % 16 * 0x1000_0000, TWO_32)
  {
  }

  /** The digits of a form of one byte, and so on. */
  lemma SignedOne(s: seq<Byte>)
    requires SignedDigits(s, 0).Some?
    ensures |s| > 0
    ensures s[0] < 128 ==> SignedDigits(s, 0) == Some(Read(SignExtend(Low7(s[0]), 0x80), 1))
  {
    SignedStep(s, 0);
  }

  lemma SignedTwo(s: seq<Byte>)
    requires SignedDigits(s, 0).Some? && |s| > 0 && s[0] >= 128
    ensures |s| > 1 && SignedDigits(s[1..], 1).Some?
    ensures s[1] < 128 ==> SignedDigits(s, 0) == Some(Read(SignExtend(Low7(s[0]) + Low7(s[1]) * 0x80, 0x4000), 2))
  {
    hide SignedDigits;
    SignedStep(s, 0);
    SignedStep(s[1..], 1);
  }

  lemma SignedThree(s: seq<Byte>)
    requires SignedDigits(s, 0).Some? && |s| > 1 && s[0] >= 128 && s[1] >= 128
    ensures |s| > 2 && SignedDigits(s[1..], 1).Some? && SignedDigits(s[2..], 2).Some?
    ensures s[2] < 128 ==>
              SignedDigits(s, 0) == Some(Read(SignExtend(Low7(s[0]) + Low7(s[1]) * 0x80 + Low7(s[2]) * 0x4000, 0x20_0000), 3))
  {
    hide SignedDigits;
    SignedTwo(s);
    SignedStep(s, 0);
    SignedStep(s[1..], 1);
    assert s[1..][1..] == s[2..];
    SignedStep(s[2..], 2);
  }

  lemma SignedFour(s: seq<Byte>)
    requires SignedDigits(s, 0).Some? && |s| > 2 && s[0] >= 128 && s[1] >= 128 && s[2] >= 128
    ensures |s| > 3 && SignedDigits(s[1..], 1).Some? && SignedDigits(s[2..], 2).Some? && SignedDigits(s[3..], 3).Some?
    ensures s[3] < 128 ==>
              SignedDigits(s, 0) == Some(Read(SignExtend(Low7(s[0]) + Low7(s[1]) * 0x80 + Low7(s[2]) * 0x4000 +
                                                         Low7(s[3]) * 0x20_0000, 0x1000_0000), 4))
  {
    hide SignedDigits;
    SignedThree(s);
    SignedStep(s, 0);
    SignedStep(s[1..], 1);
    assert s[1..][1..] == s[2..];
    SignedStep(s[2..], 2);
    assert s[2..][1..] == s[3..];
    SignedStep(s[3..], 3);
  }

  lemma SignedFive(s: seq<Byte>)
    requires SignedDigits(s, 0).Some? && |s| > 3 && s[0] >= 128 && s[1] >= 128 && s[2] >= 128 && s[3] >= 128
    ensures |s| > 4
    ensures SignedDigits(s, 0) == Some(Read(SignExtend(Low7(s[0]) + Low7(s[1]) * 0x80 + Low7(s[2]) * 0x4000 +
                                                       Low7(s[3]) * 0x20_0000 + s[4] as int % 16 * 0x1000_0000, TWO_32), 5))
  {
    hide SignedDigits;
    SignedFour(s);
    SignedStep(s, 0);
    SignedStep(s[1..], 1);
    assert s[1..][1..] == s[2..];
    SignedStep(s[2..], 2);
    assert s[2..][1..] == s[3..];
    SignedStep(s[3..], 3);
    assert s[3..][1..] == s[4..];
    LastSignedDigit(s[4..]);
  }

  /** The decoder shifts the sign bit of what it has to the top of 32 bits and back. */
  method DecodeSignedLeb128(data: seq<Byte>, cursor: nat) returns (result: int, cursor': nat)
    requires cursor <= |data| && DecodeSigned(data[cursor..]).Some?
    ensures cursor < cursor' <= |data|
    ensures DecodeSigned(data[cursor..]) == Some(Read(result, cursor' - cursor))
  {
    hide SignedDigits, SignExtend, Wrap;
    ghost var s := data[cursor..];
    SignedOne(s);
    result, cursor' := data[cursor] as int, cursor + 1;
    if result <= 0x7f {
      ShiftBack(result, 0x40, 0x200_0000, TWO_32);
      result := Wrap(result * 0x200_0000, TWO_32) / 0x200_0000;
    } else {
      SignedTwo(s);
      var cur := data[cursor'] as int;
      result, cursor' := result % 128 + cur % 128 * 0x80, cursor' + 1;
      if cur <= 0x7f {
        ShiftBack(result, 0x2000, 0x4_0000, TWO_32);
        result := Wrap(result * 0x4_0000, TWO_32) / 0x4_0000;
      } else {
        SignedThree(s);
        cur := data[cursor'] as int;
        result, cursor' := result + cur % 128 * 0x4000, cursor' + 1;
        if cur <= 0x7f {
          ShiftBack(result, 0x10_0000, 0x800, TWO_32);
          result := Wrap(result * 0x800, TWO_32) / 0x800;
        } else {
          SignedFour(s);
          cur := data[cursor'] as int;
          result, cursor' := result + cur % 128 * 0x20_0000, cursor' + 1;
          if cur <= 0x7f {
            ShiftBack(result, 0x800_0000, 0x10, TWO_32);
            result := Wrap(result * 0x10, TWO_32) / 0x10;
          } else {
            SignedFive(s);
            cur := data[cursor'] as int;
            TopBits(result, cur);
            result, cursor' := Wrap(result + cur * 0x1000_0000, TWO_32), cursor' + 1;
          }
        }
      }
    }
  }

  // --- Encoding -------------------------------------------------------------------------------------

  function EncodeUnsigned(n: nat): seq<Byte> {
    if n < 128 then [n] else [n % 128 + 128] + EncodeUnsigned(n / 128)
  }

  function EncodeSigned(n: int): seq<Byte>
    decreases if n >= 0 then n else -n
  {
    if -64 <= n < 64 then [n % 128] else [n % 128 + 128] + EncodeSigned(n / 128)
  }

  /** The first number too large for `n` groups of seven bits. */
  function Limit(n: nat): nat {
    if n == 0 then 1 else 128 * Limit(n - 1)
  }

  lemma Limits()
    ensures Limit(0) == 1 && Limit(1) == 0x80 && Limit(2) == 0x4000
    ensures Limit(3) == 0x20_0000 && Limit(4) == 0x1000_0000 && Limit(5) == 0x8_0000_0000
  {
    assert Limit(3) == 128 * Limit(2);
    assert Limit(5) == 128 * Limit(4);
  }

  lemma {:induction false} EncodeUnsignedFits(n: nat, k: nat)
    requires k >= 1 && n < Limit(k)
    ensures IsGroup(EncodeUnsigned(n), k)
    ensures UnsignedValue(EncodeUnsigned(n)) == n
    decreases k
  {
    if n >= 128 {
      LimitEven(k);
      EncodeUnsignedFits(n / 128, k - 1);
      EncodeUnsignedStep(n, k - 1);
    } else {
      assert [n as Byte][1..] == [];
    }
  }

  lemma EncodeUnsignedStep(n: nat, k: nat)
    requires n >= 128
    requires IsGroup(EncodeUnsigned(n / 128), k) && UnsignedValue(EncodeUnsigned(n / 128)) == n / 128
    ensures IsGroup(EncodeUnsigned(n), k + 1) && UnsignedValue(EncodeUnsigned(n)) == n
  {
    hide *;
    EncodeUnsignedMore(n);
    IsGroupCons(n % 128 + 128, EncodeUnsigned(n / 128), k);
    UnsignedValueCons(n % 128 + 128, EncodeUnsigned(n / 128));
    HighBit(n % 128);
  }

  lemma EncodeUnsignedMore(n: nat)
    requires n >= 128
    ensures EncodeUnsigned(n) == [n % 128 + 128] + EncodeUnsigned(n / 128)
  {
  }

  lemma UnsignedValueCons(b: Byte, tail: seq<Byte>)
    ensures UnsignedValue([b] + tail) == Low7(b) + 128 * UnsignedValue(tail)
  {
    assert ([b] + tail)[1..] == tail;
  }

  lemma EncodeUnsignedIsUleb(n: nat)
    requires n < TWO_32
    ensures IsUleb(EncodeUnsigned(n), n)
  {
    Limits();
    EncodeUnsignedFits(n, 5);
  }

  lemma {:induction false} EncodeSignedFits(n: int, k: nat)
    requires k >= 1 && 0 - Limit(k) <= 2 * n < Limit(k)
    ensures IsGroup(EncodeSigned(n), k)
    ensures SignedValue(EncodeSigned(n)) == n
    decreases k
  {
    if !(-64 <= n < 64) {
      LimitEven(k);
      SignedNeedsMore(n, k);
      EncodeSignedFits(n / 128, k - 1);
      EncodeSignedStep(n, k - 1);
    }
  }

  lemma SignedNeedsMore(n: int, k: nat)
    requires k >= 1 && 0 - Limit(k) <= 2 * n < Limit(k)
    requires !(-64 <= n < 64)
    ensures k > 1 && 0 - Limit(k - 1) <= 2 * (n / 128) < Limit(k - 1)
  {
    LimitEven(k);
    Shrink(n % 128, n / 128, Limit(k - 1));
  }

  lemma EncodeSignedStep(n: int, k: nat)
    requires !(-64 <= n < 64)
    requires IsGroup(EncodeSigned(n / 128), k) && SignedValue(EncodeSigned(n / 128)) == n / 128
    ensures IsGroup(EncodeSigned(n), k + 1) && SignedValue(EncodeSigned(n)) == n
  {
    hide *;
    var b: Byte, tail := n % 128 + 128, EncodeSigned(n / 128);
    EncodeSignedMore(n);
    IsGroupCons(b, tail, k);
    SignedValueCons(b, tail);
    HighBit(n % 128);
  }

  lemma EncodeSignedMore(n: int)
    requires !(-64 <= n < 64)
    ensures EncodeSigned(n) == [n % 128 + 128] + EncodeSigned(n / 128)
  {
  }

  lemma HighBit(low: nat)
    requires low < 128
    ensures Low7(low + 128) == low
  {
  }

  lemma LimitEven(k: nat)
    requires k >= 1
    ensures Limit(1) == 128
    ensures k > 1 ==> Limit(k - 1) % 2 == 0 && Limit(k) == 128 * Limit(k - 1)
  {
    Limits();
    if k > 1 {
      assert Limit(k - 1) == 128 * Limit(k - 2);
    }
  }

  lemma SignedValueCons(b: Byte, tail: seq<Byte>)
    requires tail != []
    ensures SignedValue([b] + tail) == Low7(b) + 128 * SignedValue(tail)
  {
    assert ([b] + tail)[1..] == tail;
  }

  lemma EncodeSignedIsSleb(n: int)
    requires -TWO_31 <= n < TWO_31
    ensures IsSleb(EncodeSigned(n), n)
  {
    Limits();
    EncodeSignedFits(n, 5);
  }

  method EncodeUnsignedLeb128(n: nat) returns (dest: seq<Byte>)
    ensures dest == EncodeUnsigned(n)
  {
    hide EncodeUnsigned;
    dest := [];
    var out: Byte, value := n % 128, n / 128;
    while value != 0
      invariant 0 <= out < 128 && value >= 0
      invariant EncodeUnsigned(n) == dest + EncodeUnsigned(value * 128 + out)
      decreases value
    {
      EncodeUnsignedMore(value * 128 + out);
      OutByte(value, out);
      Regroup(dest, [out + 128], EncodeUnsigned(value));
      dest := dest + [out + 128];
      out, value := value % 128, value / 128;
    }
    EncodeUnsignedSmall(out);
    dest := dest + [out];
  }

  lemma OutByte(value: nat, out: nat)
    requires out < 128
    ensures (value * 128 + out) % 128 == out && (value * 128 + out) / 128 == value
  {
  }

  lemma EncodeUnsignedSmall(n: Byte)
    requires n < 128
    ensures EncodeUnsigned(n) == [n]
  {
  }

  /** The complement for negative numbers: what the encoder counts bits of. */
  function Magnitude(n: int): nat {
    if n >= 0 then n else -n - 1
  }

  method EncodeSignedLeb128(n: int) returns (dest: seq<Byte>)
    ensures dest == EncodeSigned(n)
  {
    dest := [];
    var value := n;
    var extraBits := Magnitude(value) / 64;
    var out: Byte := value % 128;
    while extraBits != 0
      invariant EncodeSigned(n) == dest + EncodeSigned(value)
      invariant extraBits == Magnitude(value) / 64 && out == value % 128
      decreases extraBits
    {
      assert EncodeSigned(value) == [out + 128] + EncodeSigned(value / 128);
      dest := dest + [out + 128];
      MagnitudeShift(value);
      value := value / 128;
      out := value % 128;
      extraBits := extraBits / 128;
    }
    dest := dest + [out];
  }

  lemma MagnitudeShift(n: int)
    ensures Magnitude(n / 128) / 64 == Magnitude(n) / 64 / 128
  {
    if n < 0 {
      assert Magnitude(n / 128) == Magnitude(n) / 128;
    }
  }

  // --- The encoder's forms are the shortest ---------------------------------------------------------

  lemma {:induction false} UnsignedValueLimit(b: seq<Byte>)
    ensures UnsignedValue(b) < Limit(|b|)
  {
    if b != [] {
      UnsignedValueLimit(b[1..]);
    }
  }

  lemma ShortestUnsigned(b: seq<Byte>, n: nat)
    requires IsUleb(b, n)
    ensures |EncodeUnsigned(n)| <= |b|
  {
    UnsignedValueLimit(b);
    EncodeUnsignedFits(n, |b|);
  }

  lemma {:induction false} SignedValueLimit(b: seq<Byte>)
    requires b != []
    ensures 0 - Limit(|b|) <= 2 * SignedValue(b) < Limit(|b|)
  {
    if |b| == 1 {
      Limits();
    } else {
      SignedValueLimit(b[1..]);
      LimitEven(|b|);
      hide Limit;
      Widen(Low7(b[0]), SignedValue(b[1..]), Limit(|b| - 1));
    }
  }

  lemma Widen(low: nat, q: int, limit: nat)
    requires low < 128 && limit % 2 == 0 && 0 - limit <= 2 * q < limit
    ensures 0 - 128 * limit <= 2 * (low + 128 * q) < 128 * limit
  {
  }

  lemma ShortestSigned(b: seq<Byte>, n: int)
    requires IsSleb(b, n)
    ensures |EncodeSigned(n)| <= |b|
  {
    SignedValueLimit(b);
    EncodeSignedFits(n, |b|);
  }

  lemma Digits(n: int, low: nat, high: int)
    requires n == low + 128 * high && low < 128
    ensures n % 128 == low && n / 128 == high
  {
  }

  /** A number has one form of each length. */
  lemma UniqueUnsigned(b: seq<Byte>)
    requires IsGroup(b, 5) && |b| <= |EncodeUnsigned(UnsignedValue(b))|
    ensures b == EncodeUnsigned(UnsignedValue(b))
  {
    UniqueUnsignedForm(b, 5);
  }

  lemma {:induction false} UniqueUnsignedForm(b: seq<Byte>, most: nat)
    requires IsGroup(b, most) && |b| <= |EncodeUnsigned(UnsignedValue(b))|
    ensures b == EncodeUnsigned(UnsignedValue(b))
    decreases |b|
  {
    var n := UnsignedValue(b);
    if |b| == 1 {
      assert b[1..] == [];
      EncodeUnsignedSmall(b[0]);
    } else {
      IsGroupTail(b, most - 1);
      Digits(n, Low7(b[0]), UnsignedValue(b[1..]));
      hide IsGroup, UnsignedValue;
      assert n >= 128;
      EncodeUnsignedMore(n);
      UniqueUnsignedForm(b[1..], most - 1);
      assert b == [b[0]] + b[1..];
    }
  }

  lemma UniqueSigned(b: seq<Byte>, n: int)
    requires IsSleb(b, n) && |b| <= |EncodeSigned(n)|
    ensures b == EncodeSigned(n)
  {
    UniqueSignedForm(b, 5);
  }

  lemma OneSignedByte(b: seq<Byte>)
    requires |b| == 1 && IsGroup(b, 1)
    ensures b == EncodeSigned(SignedValue(b))
  {
    assert -64 <= SignedValue(b) < 64 && SignedValue(b) % 128 == b[0] as int;
  }

  lemma SplitSigned(b: seq<Byte>)
    requires |b| > 1 && b[0] >= 128
    ensures SignedValue(b) % 128 + 128 == b[0] as int && SignedValue(b) / 128 == SignedValue(b[1..])
  {
    Digits(SignedValue(b), Low7(b[0]), SignedValue(b[1..]));
  }

  lemma LongSigned(n: int)
    requires |EncodeSigned(n)| > 1
    ensures EncodeSigned(n) == [n % 128 + 128] + EncodeSigned(n / 128)
  {
    assert !(-64 <= n < 64);
  }

  lemma NotEmpty(b: seq<Byte>, most: nat)
    requires IsGroup(b, most)
    ensures 0 < |b| <= most && (|b| == 1 ==> IsGroup(b, 1))
  {
  }

  lemma {:induction false} UniqueSignedForm(b: seq<Byte>, most: nat)
    requires IsGroup(b, most) && |b| <= |EncodeSigned(SignedValue(b))|
    ensures b == EncodeSigned(SignedValue(b))
    decreases |b|
  {
    hide *;
    NotEmpty(b, most);
    if |b| == 1 {
      OneSignedByte(b);
    } else {
      IsGroupTail(b, most - 1);
      SplitSigned(b);
      LongSigned(SignedValue(b));
      UniqueSignedForm(b[1..], most - 1);
      assert b == [b[0]] + b[1..];
    }
  }
}
