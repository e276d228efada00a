/** FBinaryWriter: a write position over a growable byte array.
  *
  * The array is a separate object (`ByteArray`) because the writer only
  * holds a reference to it: a writer made over a caller's array writes into
  * that array, and a writer copied by value writes into the same array as
  * the original while keeping a position of its own. Each write method is
  * specified by `WriteAt` applied to the codec's encoding of the value. */
module BinaryWriters {
  import opened Wrappers
  import opened Bytes
  import opened Codec
  import opened WideCodec
  import UInt128
  import Int128
  import UInt256
  import Int256
  import Timestamps
  import TimeDurations
  import ConnectionIds
  import Identities

  /** A TArray<uint8>: the only thing the writer changes. */
  class ByteArray {
    var bytes: seq<byte>

    constructor (b: seq<byte>)
      ensures bytes == b
    {
      bytes := b;
    }
  }

  function Max(a: int, b: int): int {
    if a < b then b else a
  }

  /** TArray::SetNum(n) for a larger n: new elements are zero. */
  function Grow(buf: seq<byte>, n: int): (r: seq<byte>)
    ensures |r| == Max(|buf|, n)
    ensures forall i :: 0 <= i < |r| ==> r[i] == if i < |buf| then buf[i] else 0
    decreases n - |buf|
  {
    if n <= |buf| then buf else Grow(buf + [0], n)
  }

  /** The array after writing e at position p: grown with zeros to reach
    * p + |e| if it is shorter, with e over positions p to p + |e|.
    * Writing nothing leaves the array as it is. */
  function WriteAt(buf: seq<byte>, p: nat, e: seq<byte>): (r: seq<byte>)
    ensures |r| == if e == [] then |buf| else Max(|buf|, p + |e|)
  {
    if e == [] then buf
    else
      var grown := Grow(buf, p + |e|);
      grown[..p] + e + grown[p + |e|..]
  }

  /** Each byte after the write: from e inside the written range, from
    * the old array before its end, zero in the gap the growth opened. */
  lemma WriteAtElems(buf: seq<byte>, p: nat, e: seq<byte>)
    ensures forall i :: 0 <= i < |WriteAt(buf, p, e)| ==>
      WriteAt(buf, p, e)[i] == if p <= i < p + |e| then e[i - p] else if i < |buf| then buf[i] else 0
  {
  }

  /** What was written can be read back where it was written. */
  lemma WriteAtHolds(buf: seq<byte>, p: nat, e: seq<byte>)
    requires e != [] || p <= |buf|
    ensures At(WriteAt(buf, p, e), p, e)
  {
    var r := WriteAt(buf, p, e);
    if e != [] {
      assert r[p..p + |e|] == e;
    }
  }

  /** Writing at the end of the array appends. */
  lemma WriteAtEnd(buf: seq<byte>, e: seq<byte>)
    ensures WriteAt(buf, |buf|, e) == buf + e
  {
  }

  /** Two writes, the second starting where the first stopped, are one
    * write of both. */
  lemma WriteAtConcat(buf: seq<byte>, p: nat, a: seq<byte>, b: seq<byte>)
    ensures WriteAt(WriteAt(buf, p, a), p + |a|, b) == WriteAt(buf, p, a + b)
  {
    var r := WriteAt(WriteAt(buf, p, a), p + |a|, b);
    var s := WriteAt(buf, p, a + b);
    if a == [] {
      assert a + b == b;
    } else if b == [] {
      assert a + b == a;
    } else {
      assert |r| == |s|;
      forall i | 0 <= i < |r|
        ensures r[i] == s[i]
      {
      }
    }
  }

  /** WriteAtConcat with the second position given by name: a write at
    * q = p + |a| after a write of a at p. */
  lemma WriteAtNext(buf: seq<byte>, p: nat, a: seq<byte>, q: nat, b: seq<byte>)
    requires q == p + |a|
    ensures WriteAt(WriteAt(buf, p, a), q, b) == WriteAt(buf, p, a + b)
  {
    WriteAtConcat(buf, p, a, b);
  }

  /** Encoding one more element appends its encoding. */
  lemma {:induction false} ElemsEncodeSnoc<T>(enc: T -> seq<byte>, xs: seq<T>, x: T)
    ensures EncodeElems(enc, xs + [x]) == EncodeElems(enc, xs) + enc(x)
  {
    if xs == [] {
      assert [x][1..] == [];
      assert [] + [x] == [x];
    } else {
      assert (xs + [x])[1..] == xs[1..] + [x];
      ElemsEncodeSnoc(enc, xs[1..], x);
    }
  }

  class BinaryWriter {
    /** The array written to (Data). */
    const data: ByteArray
    /** The next position to write (Position); it may lie beyond the end
      * of the array when another writer has emptied it. */
    var position: nat

    /** FBinaryWriter(InitialCapacity): a writer over its own empty array;
      * the capacity is only reserved. */
    constructor ()
      ensures fresh(data) && data.bytes == [] && position == 0
    {
      data := new ByteArray([]);
      position := 0;
    }

    /** FBinaryWriter(InData): a writer appending to the caller's array. */
    constructor Over(buffer: ByteArray)
      ensures data == buffer && position == |buffer.bytes|
    {
      data := buffer;
      position := |buffer.bytes|;
    }

    /** The copy the compiler makes when a writer is passed by value: the
      * same array and a position of its own. */
    constructor Copy(w: BinaryWriter)
      ensures data == w.data && position == w.position
    {
      data := w.data;
      position := w.position;
    }

    /** SetPosition: any position; the array grows with zeros to reach it. */
    method SetPosition(p: int)
      requires p >= 0
      modifies this, data
      ensures data.bytes == Grow(old(data.bytes), p) && position == p
    {
      data.bytes := Grow(data.bytes, p);
      position := p;
    }

    /** Reset: the array is emptied and the position returns to the start. */
    method Reset()
      modifies this, data
      ensures data.bytes == [] && position == 0
    {
      data.bytes := [];
      position := 0;
    }

    /** EnsureCapacity: the array grows with zeros to reach the position
      * plus the bytes about to be written. */
    method EnsureCapacity(additional: nat)
      modifies data
      ensures data.bytes == Grow(old(data.bytes), position + additional)
    {
      if position + additional > |data.bytes| {
        data.bytes := Grow(data.bytes, position + additional);
      }
    }

    /** WriteBytes: the first count bytes of bs; nothing when count is not
      * positive. */
    method WriteBytes(bs: seq<byte>, count: int)
      requires count <= |bs|
      modifies this, data
      ensures count <= 0 ==> data.bytes == old(data.bytes) && position == old(position)
      ensures count > 0 ==> data.bytes == WriteAt(old(data.bytes), old(position), bs[..count])
      ensures count > 0 ==> position == old(position) + count
    {
      if count <= 0 {
        return;
      }
      EnsureCapacity(count);
      data.bytes := data.bytes[..position] + bs[..count] + data.bytes[position + count..];
      position := position + count;
    }

    /** The bytes e written at the position, which moves past them. */
    method Put(e: seq<byte>)
      modifies this, data
      ensures data.bytes == WriteAt(old(data.bytes), old(position), e)
      ensures position == old(position) + |e|
    {
      assert e[..|e|] == e;
      WriteBytes(e, |e|);
    }

    method WriteByte(b: byte)
      modifies this, data
      ensures data.bytes == WriteAt(old(data.bytes), old(position), EncodeByte(b))
      ensures position == old(position) + 1
    {
      EnsureCapacity(1);
      data.bytes := data.bytes[position := b];
      position := position + 1;
    }

    /** WriteBool: the byte 1 or 0. */
    method WriteBool(b: bool)
      modifies this, data
      ensures data.bytes == WriteAt(old(data.bytes), old(position), EncodeBool(b))
      ensures position == old(position) + 1
    {
      WriteByte(if b then 1 else 0);
    }

    /** WriteSByte: the byte with the same bits. */
    method WriteSByte(x: i8)
      modifies this, data
      ensures data.bytes == WriteAt(old(data.bytes), old(position), EncodeSByte(x))
      ensures position == old(position) + 1
    {
      NarrowWidths();
      WriteByte(Bits(x, 1));
    }

    /** WriteInt16, WriteInt32, WriteInt64: the value's in-memory bytes. */
    method WriteInt16(x: i16)
      modifies this, data
      ensures data.bytes == WriteAt(old(data.bytes), old(position), EncodeInt16(x))
      ensures position == old(position) + 2
    {
      Put(EncodeInt16(x));
    }

    method WriteInt32(x: i32)
      modifies this, data
      ensures data.bytes == WriteAt(old(data.bytes), old(position), EncodeInt32(x))
      ensures position == old(position) + 4
    {
      Put(EncodeInt32(x));
    }

    method WriteInt64(x: i64)
      modifies this, data
      ensures data.bytes == WriteAt(old(data.bytes), old(position), EncodeInt64(x))
      ensures position == old(position) + 8
    {
      Put(EncodeInt64(x));
    }

    /** The unsigned writes: the value cast to the signed type, written. */
    method WriteUInt16(x: u16)
      modifies this, data
      ensures data.bytes == WriteAt(old(data.bytes), old(position), EncodeUInt16(x))
      ensures position == old(position) + 2
    {
      NarrowWidths();
      WriteInt16(Signed(x, 2));
    }

    method WriteUInt32(x: u32)
      modifies this, data
      ensures data.bytes == WriteAt(old(data.bytes), old(position), EncodeUInt32(x))
      ensures position == old(position) + 4
    {
      NarrowWidths();
      WriteInt32(Signed(x, 4));
    }

    method WriteUInt64(x: u64)
      modifies this, data
      ensures data.bytes == WriteAt(old(data.bytes), old(position), EncodeUInt64(x))
      ensures position == old(position) + 8
    {
      NarrowWidths();
      WriteInt64(Signed(x, 8));
    }

    /** WriteString: the count of the UTF-8 bytes of the text before the
      * first '\0', then those bytes. */
    method WriteString(s: string)
      requires |WrittenBytes(s)| < 0x8000_0000
      modifies this, data
      ensures data.bytes == WriteAt(old(data.bytes), old(position), EncodeString(s))
      ensures position == old(position) + |EncodeString(s)|
    {
      ghost var b, p := data.bytes, position;
      var u := WrittenBytes(s);
      WriteInt32(|u|);
      CountIsInt32(|u|);
      ghost var counted := WriteAt(b, p, EncodeCount(|u|));
      assert data.bytes == counted && position == p + 4;
      WriteBytes(u, |u|);
      assert u[..|u|] == u;
      assert data.bytes == WriteAt(counted, p + 4, u);
      WriteAtConcat(b, p, EncodeCount(|u|), u);
      assert EncodeString(s) == EncodeCount(|u|) + u;
    }

    /** An element written by a caller-supplied writer (the ElementWriter
      * of WriteArray, the payload of WriteOptional*), as its encoder. */
    method WriteWith<T>(enc: T -> seq<byte>, x: T)
      modifies this, data
      ensures data.bytes == WriteAt(old(data.bytes), old(position), enc(x))
      ensures position == old(position) + |enc(x)|
    {
      Put(enc(x));
    }

    /** WriteOptionalByte, WriteOptionalInt32, WriteOptionalString and the
      * other optional writes: the flag, then the payload if there is one. */
    method WriteOptional<T>(enc: T -> seq<byte>, o: Option<T>)
      modifies this, data
      ensures data.bytes == WriteAt(old(data.bytes), old(position), EncodeOptional(enc, o))
      ensures position == old(position) + |EncodeOptional(enc, o)|
    {
      WriteBool(o.Some?);
      if o.Some? {
        WriteWith(enc, o.value);
        WriteAtConcat(old(data.bytes), old(position), EncodeBool(true), enc(o.value));
      } else {
        assert EncodeOptional(enc, o) == EncodeBool(false);
      }
    }

    /** WriteU128 and WriteI128: the upper word, then the lower. */
    method WriteU128(v: UInt128.U128)
      modifies this, data
      ensures data.bytes == WriteAt(old(data.bytes), old(position), EncodeU128(v))
      ensures position == old(position) + 16
    {
      WriteUInt64(v.upper);
      WriteUInt64(v.lower);
      WriteAtConcat(old(data.bytes), old(position), EncodeUInt64(v.upper), EncodeUInt64(v.lower));
    }

    method WriteI128(v: Int128.I128)
      modifies this, data
      ensures data.bytes == WriteAt(old(data.bytes), old(position), EncodeI128(v))
      ensures position == old(position) + 16
    {
      WriteUInt64(v.upper);
      WriteUInt64(v.lower);
      WriteAtConcat(old(data.bytes), old(position), EncodeUInt64(v.upper), EncodeUInt64(v.lower));
    }

    /** WriteU256 and WriteI256: the upper half, then the lower. */
    method WriteU256(v: UInt256.U256)
      modifies this, data
      ensures data.bytes == WriteAt(old(data.bytes), old(position), EncodeU256(v))
      ensures position == old(position) + 32
    {
      WriteU128(v.upper);
      WriteU128(v.lower);
      WriteAtConcat(old(data.bytes), old(position), EncodeU128(v.upper), EncodeU128(v.lower));
    }

    method WriteI256(v: Int256.I256)
      modifies this, data
      ensures data.bytes == WriteAt(old(data.bytes), old(position), EncodeI256(v))
      ensures position == old(position) + 32
    {
      WriteI128(v.upper);
      WriteI128(v.lower);
      WriteAtConcat(old(data.bytes), old(position), EncodeI128(v.upper), EncodeI128(v.lower));
    }

    method WriteTimeDuration(t: TimeDurations.TimeDuration)
      modifies this, data
      ensures data.bytes == WriteAt(old(data.bytes), old(position), EncodeTimeDuration(t))
      ensures position == old(position) + 8
    {
      WriteInt64(t.micros);
    }

    method WriteTimestamp(t: Timestamps.Timestamp)
      modifies this, data
      ensures data.bytes == WriteAt(old(data.bytes), old(position), EncodeTimestamp(t))
      ensures position == old(position) + 8
    {
      WriteInt64(t.micros);
    }

    method WriteConnectionId(c: ConnectionIds.ConnectionId)
      modifies this, data
      ensures data.bytes == WriteAt(old(data.bytes), old(position), EncodeConnectionId(c))
      ensures position == old(position) + 16
    {
      WriteU128(c.value);
    }

    method WriteIdentity(i: Identities.Identity)
      modifies this, data
      ensures data.bytes == WriteAt(old(data.bytes), old(position), EncodeIdentity(i))
      ensures position == old(position) + 32
    {
      WriteU256(i.value);
    }

    /** The loop of WriteArray: the element writer on each element in
      * order. */
    method WriteElems<T>(xs: seq<T>, enc: T -> seq<byte>)
      modifies this, data
      ensures data.bytes == WriteAt(old(data.bytes), old(position), EncodeElems(enc, xs))
      ensures position == old(position) + |EncodeElems(enc, xs)|
    {
      ghost var buf := data.bytes;
      ghost var start := position;
      var i := 0;
      while i < |xs|
        invariant 0 <= i <= |xs|
        invariant data.bytes == WriteAt(buf, start, EncodeElems(enc, xs[..i]))
        invariant position == start + |EncodeElems(enc, xs[..i])|
      {
        ghost var before := EncodeElems(enc, xs[..i]);
        WriteWith(enc, xs[i]);
        WriteAtConcat(buf, start, before, enc(xs[i]));
        assert xs[..i + 1] == xs[..i] + [xs[i]];
        ElemsEncodeSnoc(enc, xs[..i], xs[i]);
        i := i + 1;
      }
      assert xs[..i] == xs;
    }

    /** WriteArray: the int32 element count, then the elements. */
    method WriteArray<T>(xs: seq<T>, enc: T -> seq<byte>)
      requires |xs| < 0x8000_0000
      modifies this, data
      ensures data.bytes == WriteAt(old(data.bytes), old(position), EncodeArray(enc, xs))
      ensures position == old(position) + |EncodeArray(enc, xs)|
    {
      WriteInt32(|xs|);
      CountIsInt32(|xs|);
      WriteElems(xs, enc);
      WriteAtConcat(old(data.bytes), old(position), EncodeCount(|xs|), EncodeElems(enc, xs));
    }

    method WriteStringArray(ss: seq<string>)
      requires |ss| < 0x8000_0000
      modifies this, data
      ensures data.bytes == WriteAt(old(data.bytes), old(position), EncodeArray(EncodeString, ss))
      ensures position == old(position) + |EncodeArray(EncodeString, ss)|
    {
      WriteArray(ss, EncodeString);
    }
  }
}
