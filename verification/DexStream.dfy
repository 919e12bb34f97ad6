/**
 The data section of a compact dex container: the section's storage and the random-access stream that
 writes into it (dexlayout/dex_writer.h).

 Offsets are numbers without bound.
 */
module DexStream {
  import opened Arithmetic
  import opened Bytes
  import opened Leb128

  // --- Zero-filled storage --------------------------------------------------------------------------

  function Zeros(n: nat): (z: seq<Byte>)
    ensures |z| == n && forall i :: 0 <= i < n ==> z[i] == 0
  {
    seq(n, _ => 0)
  }

  ghost predicate ZeroFrom(d: seq<Byte>, p: nat) {
    forall i :: p <= i < |d| ==> d[i] == 0
  }

  /** The storage holds the bytes `b` at `p`. */
  ghost predicate HoldsAt(d: seq<Byte>, p: nat, b: seq<Byte>) {
    p + |b| <= |d| && d[p..p + |b|] == b
  }

  /** Storage past its end counts as zero. */
  ghost function ByteAt(d: seq<Byte>, i: nat): Byte {
    if i < |d| then d[i] else 0
  }

  /** `d` became `d'` by putting `b` at `p`, and perhaps growing. */
  ghost predicate Wrote(d: seq<Byte>, d': seq<Byte>, p: nat, b: seq<Byte>) {
    && |d| <= |d'| && p + |b| <= |d'|
    && (forall i :: 0 <= i < |b| ==> d'[p + i] == b[i])
    && (forall i :: 0 <= i < |d'| && !(p <= i < p + |b|) ==> d'[i] == ByteAt(d, i))
  }

  lemma WroteHolds(d: seq<Byte>, d': seq<Byte>, p: nat, b: seq<Byte>)
    requires Wrote(d, d', p, b)
    ensures HoldsAt(d', p, b)
  {
  }

  lemma WroteZero(d: seq<Byte>, d': seq<Byte>, p: nat, b: seq<Byte>)
    requires Wrote(d, d', p, b) && ZeroFrom(d, p)
    ensures ZeroFrom(d', p + |b|)
  {
  }

  lemma WroteTwice(d: seq<Byte>, d1: seq<Byte>, d2: seq<Byte>, p: nat, a: seq<Byte>, b: seq<Byte>)
    requires Wrote(d, d1, p, a) && Wrote(d1, d2, p + |a|, b)
    ensures Wrote(d, d2, p, a + b)
  {
    forall i | 0 <= i < |a + b|
      ensures d2[p + i] == (a + b)[i]
    {
      if i >= |a| {
        assert d2[p + |a| + (i - |a|)] == b[i - |a|];
      } else {
        assert d1[p + i] == a[i];
      }
    }
  }

  /** Skipping over zeros writes them. */
  lemma WroteSkipped(d: seq<Byte>, d': seq<Byte>, p: nat, n: nat)
    requires Wrote(d, d', p, []) && ZeroFrom(d, p) && p + n <= |d'|
    ensures Wrote(d, d', p, Zeros(n))
  {
  }

  /** Clearing what was written into zeros undoes it. */
  lemma WroteCleared(d: seq<Byte>, d1: seq<Byte>, d2: seq<Byte>, p: nat, b: seq<Byte>)
    requires Wrote(d, d1, p, b) && ZeroFrom(d, p) && p <= |d| && Wrote(d1, d2, p, Zeros(|b|))
    ensures Wrote(d, d2, p, [])
  {
    forall i | 0 <= i < |d2|
      ensures d2[i] == ByteAt(d, i)
    {
      if p <= i < p + |b| {
        assert d2[p + (i - p)] == Zeros(|b|)[i - p];
      }
    }
  }

  class VectorSection {
    var data: seq<Byte>

    constructor ()
      ensures data == []
    {
      data := [];
    }

    method Resize(size: nat)
      modifies this
      ensures |data| == size
      ensures size <= |old(data)| ==> data == old(data)[..size]
      ensures size >= |old(data)| ==> data == old(data) + Zeros(size - |old(data)|)
    {
      if size <= |data| {
        data := data[..size];
      } else {
        data := data + Zeros(size - |data|);
      }
    }
  }

  // --- The stream -----------------------------------------------------------------------------------

  class Stream {
    const section: VectorSection
    var position: nat
    var dataSize: nat

    /** The cached size is the section's. */
    ghost predicate Valid()
      reads this, section
    {
      dataSize == |section.data|
    }

    constructor (section: VectorSection)
      ensures this.section == section && position == 0 && Valid()
    {
      this.section := section;
      position := 0;
      dataSize := |section.data|;
    }

    /** The storage grows by half until the range is inside it, whatever its size was. */
    method EnsureStorage(length: nat)
      requires Valid()
      modifies this, section
      ensures Valid() && position == old(position)
      ensures position + length <= |section.data|
      ensures Wrote(old(section.data), section.data, position, [])
      ensures position + length <= |old(section.data)| ==> section.data == old(section.data)
    {
      var end := position + length;
      while end > dataSize
        invariant Valid() && position == old(position)
        invariant |old(section.data)| <= dataSize
        invariant section.data == old(section.data) + Zeros(dataSize - |old(section.data)|)
        invariant end <= |old(section.data)| ==> dataSize == |old(section.data)|
        decreases end - dataSize
      {
        section.Resize(dataSize * 3 / 2 + 1);
        dataSize := |section.data|;
      }
    }

    method Seek(p: nat)
      requires Valid()
      modifies this, section
      ensures Valid() && position == p && p <= |section.data|
      ensures Wrote(old(section.data), section.data, p, [])
      ensures p <= |old(section.data)| ==> section.data == old(section.data)
    {
      position := p;
      EnsureStorage(0);
    }

    /** Overwrites nothing but zeros: that is the check of the debug build. */
    method Write(buffer: seq<Byte>)
      requires Valid()
      requires forall i :: position <= i < position + |buffer| ==> ByteAt(section.data, i) == 0
      modifies this, section
      ensures Valid() && position == old(position) + |buffer| && position <= |section.data|
      ensures Wrote(old(section.data), section.data, old(position), buffer)
    {
      EnsureStorage(|buffer|);
      CopyIn(position, buffer);
      position := position + |buffer|;
    }

    /** Like the LEB128 writers, puts bytes whatever is there. */
    method Overwrite(buffer: seq<Byte>)
      requires Valid()
      modifies this, section
      ensures Valid() && position == old(position) + |buffer| && position <= |section.data|
      ensures Wrote(old(section.data), section.data, old(position), buffer)
    {
      EnsureStorage(|buffer|);
      CopyIn(position, buffer);
      position := position + |buffer|;
    }

    method CopyIn(p: nat, buffer: seq<Byte>)
      requires Valid() && p + |buffer| <= |section.data|
      modifies section
      ensures Valid()
      ensures |section.data| == |old(section.data)| && Wrote(old(section.data), section.data, p, buffer)
    {
      ghost var d := section.data;
      for i := 0 to |buffer|
        invariant |section.data| == |d|
        invariant forall j :: 0 <= j < i ==> section.data[p + j] == buffer[j]
        invariant forall j :: 0 <= j < |d| && !(p <= j < p + i) ==> section.data[j] == d[j]
      {
        section.data := section.data[p + i := buffer[i]];
      }
    }

    /** Zeroes a range that ends at or before the position. */
    method Clear(p: nat, length: nat)
      requires Valid() && p + length <= position
      modifies this, section
      ensures Valid() && position == old(position)
      ensures Wrote(old(section.data), section.data, p, Zeros(length))
    {
      EnsureStorage(length);
      CopyIn(p, Zeros(length));
    }

    method WriteUleb128(value: nat)
      requires Valid() && value < TWO_32
      modifies this, section
      ensures Valid() && position == old(position) + |EncodeUnsigned(value)| && position <= |section.data|
      ensures Wrote(old(section.data), section.data, old(position), EncodeUnsigned(value))
    {
      var b := EncodeUnsignedLeb128(value);
      EncodeUnsignedIsUleb(value);
      EnsureStorage(8);
      CopyIn(position, b);
      position := position + |b|;
    }

    method AlignTo(alignment: nat)
      requires Valid() && alignment > 0
      modifies this, section
      ensures Valid() && position <= |section.data|
      ensures old(position) <= position < old(position) + alignment && position % alignment == 0
      ensures Wrote(old(section.data), section.data, old(position), [])
      ensures position <= |old(section.data)| ==> section.data == old(section.data)
    {
      RoundUpMeans(position, alignment);
      position := RoundUp(position, alignment);
      EnsureStorage(0);
    }

    method Skip(count: nat)
      requires Valid()
      modifies this, section
      ensures Valid() && position == old(position) + count && position <= |section.data|
      ensures Wrote(old(section.data), section.data, old(position), [])
    {
      position := position + count;
      EnsureStorage(0);
    }
  }

  function RoundUp(x: nat, n: nat): (r: nat)
    requires n > 0
    ensures x <= r
  {
    x + n - 1 - (x + n - 1) % n
  }

  lemma RoundUpMeans(x: nat, n: nat)
    requires n > 0
    ensures x <= RoundUp(x, n) < x + n && RoundUp(x, n) % n == 0
  {
    var y := x + n - 1;
    assert y - y % n == y / n * n;
    MultipleMod(y / n, n);
  }
}
