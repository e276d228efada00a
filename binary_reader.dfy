/** FBinaryReader: a read position moving forwards over a fixed buffer.
  *
  * Each read method is specified by the pure decoder of the codec: what it
  * returns and where it leaves the position are what the decoder gives at
  * the old position. A read that would run past the end of the data makes
  * the reader's `checkf` abort, so the methods require that it does not. */
module BinaryReaders {
  import opened Wrappers
  import opened Bytes
  import opened Codec
  import opened WideCodec
  import UInt128
  import Int128
  import UInt256
  import Int256
  import Timestamps
  import TimeDurations
  import ConnectionIds
  import Identities

  class BinaryReader {
    /** The bytes read from (Data and Size). */
    const data: seq<byte>
    /** The next byte to read (Position). */
    var position: nat

    ghost predicate Valid()
      reads this
    {
      position <= |data|
    }

    /** Both constructors: a reader at the start of the given bytes. */
    constructor (d: seq<byte>)
      ensures Valid() && data == d && position == 0
    {
      data := d;
      position := 0;
    }

    /** The copy the compiler makes when a reader is passed by value: the
      * same bytes and the same position, moving independently from then
      * on. */
    constructor Copy(r: BinaryReader)
      requires r.Valid()
      ensures Valid() && data == r.data && position == r.position
    {
      data := r.data;
      position := r.position;
    }

    /** SetPosition: any position from the start to the end of the data. */
    method SetPosition(p: int)
      requires 0 <= p <= |data|
      modifies this
      ensures Valid() && position == p
    {
      position := p;
    }

    /** ReadBytes: the next count bytes. */
    method ReadBytes(count: int) returns (bs: seq<byte>)
      requires Valid() && 0 <= count && position + count <= |data|
      modifies this
      ensures Valid()
      ensures DecodeBytes(data, old(position), count) == Some(Read(bs, position))
    {
      bs := data[position..position + count];
      position := position + count;
    }

    method ReadByte() returns (b: byte)
      requires Valid() && position + 1 <= |data|
      modifies this
      ensures Valid()
      ensures DecodeByte(data, old(position)) == Some(Read(b, position))
    {
      b := data[position];
      position := position + 1;
    }

    method ReadBool() returns (b: bool)
      requires Valid() && position + 1 <= |data|
      modifies this
      ensures Valid()
      ensures DecodeBool(data, old(position)) == Some(Read(b, position))
    {
      var x := ReadByte();
      b := x != 0;
    }

    method ReadSByte() returns (x: i8)
      requires Valid() && position + 1 <= |data|
      modifies this
      ensures Valid()
      ensures DecodeSByte(data, old(position)) == Some(Read(x, position))
    {
      NarrowWidths();
      var b := ReadByte();
      x := Signed(b, 1);
      BitsSigned(b, 1);
    }

    /** The n bytes at the position reinterpreted as a signed integer. */
    method ReadSigned(n: nat) returns (x: int)
      requires Valid() && 1 <= n && position + n <= |data|
      modifies this
      ensures Valid()
      ensures DecodeSigned(data, old(position), n) == Some(Read(x, position))
    {
      var bytes := data[position..position + n];
      x := Signed(FromLE(bytes), n);
      position := position + n;
    }

    method ReadInt16() returns (x: i16)
      requires Valid() && position + 2 <= |data|
      modifies this
      ensures Valid()
      ensures DecodeInt16(data, old(position)) == Some(Read(x, position))
    {
      NarrowWidths();
      x := ReadSigned(2);
    }

    method ReadInt32() returns (x: i32)
      requires Valid() && position + 4 <= |data|
      modifies this
      ensures Valid()
      ensures DecodeInt32(data, old(position)) == Some(Read(x, position))
    {
      NarrowWidths();
      x := ReadSigned(4);
    }

    method ReadInt64() returns (x: i64)
      requires Valid() && position + 8 <= |data|
      modifies this
      ensures Valid()
      ensures DecodeInt64(data, old(position)) == Some(Read(x, position))
    {
      NarrowWidths();
      x := ReadSigned(8);
    }

    /** The unsigned reads: the signed read cast to the unsigned type. */
    method ReadUInt16() returns (x: u16)
      requires Valid() && position + 2 <= |data|
      modifies this
      ensures Valid()
      ensures DecodeUInt16(data, old(position)) == Some(Read(x, position))
    {
      NarrowWidths();
      var s := ReadInt16();
      x := Bits(s, 2);
    }

    method ReadUInt32() returns (x: u32)
      requires Valid() && position + 4 <= |data|
      modifies this
      ensures Valid()
      ensures DecodeUInt32(data, old(position)) == Some(Read(x, position))
    {
      NarrowWidths();
      var s := ReadInt32();
      x := Bits(s, 4);
    }

    method ReadUInt64() returns (x: u64)
      requires Valid() && position + 8 <= |data|
      modifies this
      ensures Valid()
      ensures DecodeUInt64(data, old(position)) == Some(Read(x, position))
    {
      NarrowWidths();
      var s := ReadInt64();
      x := Bits(s, 8);
    }

    /** ReadString: the length, then one character per byte, a zero byte
      * appending nothing. */
    method ReadString() returns (s: string)
      requires Valid() && DecodeString(data, position).Some?
      modifies this
      ensures Valid()
      ensures DecodeString(data, old(position)) == Some(Read(s, position))
    {
      var len := ReadInt32();
      if len < 0 {
        return "";
      }
      ghost var start := position;
      s := "";
      var i := 0;
      while i < len
        invariant 0 <= i <= len && position == start + i <= |data|
        invariant start + len <= |data|
        invariant s == Widen(data[start..position])
      {
        var b := data[position];
        assert data[start..position + 1] == data[start..position] + [b];
        if b != 0 {
          s := s + [b as char];
        }
        position := position + 1;
        i := i + 1;
      }
    }

    /** An element read by a caller-supplied reader (the ElementReader of
      * ReadArray, the payload of ReadOptional*), as its decoder. */
    method ReadWith<T>(dec: Decoder<T>) returns (x: T)
      requires Valid() && Sound(dec) && dec(data, position).Some?
      modifies this
      ensures Valid()
      ensures dec(data, old(position)) == Some(Read(x, position))
    {
      var r := dec(data, position).value;
      x := r.value;
      position := r.next;
    }

    /** ReadOptionalByte, ReadOptionalInt32, ReadOptionalString and the
      * other optional reads: the flag, then the payload if the flag is
      * set. */
    method ReadOptional<T>(dec: Decoder<T>) returns (o: Option<T>)
      requires Valid() && Sound(dec) && DecodeOptional(dec, data, position).Some?
      modifies this
      ensures Valid()
      ensures DecodeOptional(dec, data, old(position)) == Some(Read(o, position))
    {
      var hasValue := ReadBool();
      if hasValue {
        var x := ReadWith(dec);
        o := Some(x);
      } else {
        o := None;
      }
    }

    /** ReadU128: sixteen bytes must remain; the upper word, then the lower. */
    method ReadU128() returns (v: UInt128.U128)
      requires Valid() && position + 16 <= |data|
      modifies this
      ensures Valid()
      ensures DecodeU128(data, old(position)) == Some(Read(v, position))
    {
      var upper := ReadUInt64();
      var lower := ReadUInt64();
      v := UInt128.U128(upper, lower);
    }

    method ReadI128() returns (v: Int128.I128)
      requires Valid() && position + 16 <= |data|
      modifies this
      ensures Valid()
      ensures DecodeI128(data, old(position)) == Some(Read(v, position))
    {
      var upper := ReadUInt64();
      var lower := ReadUInt64();
      v := Int128.I128(upper, lower);
    }

    /** ReadU256: 32 bytes must remain; the upper half, then the lower. */
    method ReadU256() returns (v: UInt256.U256)
      requires Valid() && position + 32 <= |data|
      modifies this
      ensures Valid()
      ensures DecodeU256(data, old(position)) == Some(Read(v, position))
    {
      var upper := ReadU128();
      var lower := ReadU128();
      v := UInt256.U256(upper, lower);
    }

    method ReadI256() returns (v: Int256.I256)
      requires Valid() && position + 32 <= |data|
      modifies this
      ensures Valid()
      ensures DecodeI256(data, old(position)) == Some(Read(v, position))
    {
      var upper := ReadI128();
      var lower := ReadI128();
      v := Int256.I256(upper, lower);
    }

    method ReadTimeDuration() returns (t: TimeDurations.TimeDuration)
      requires Valid() && position + 8 <= |data|
      modifies this
      ensures Valid()
      ensures DecodeTimeDuration(data, old(position)) == Some(Read(t, position))
    {
      var micros := ReadInt64();
      t := TimeDurations.TimeDuration(micros);
    }

    method ReadTimestamp() returns (t: Timestamps.Timestamp)
      requires Valid() && position + 8 <= |data|
      modifies this
      ensures Valid()
      ensures DecodeTimestamp(data, old(position)) == Some(Read(t, position))
    {
      var micros := ReadInt64();
      t := Timestamps.Timestamp(micros);
    }

    method ReadConnectionId() returns (c: ConnectionIds.ConnectionId)
      requires Valid() && position + 16 <= |data|
      modifies this
      ensures Valid()
      ensures DecodeConnectionId(data, old(position)) == Some(Read(c, position))
    {
      var v := ReadU128();
      c := ConnectionIds.ConnectionId(v);
    }

    method ReadIdentity() returns (i: Identities.Identity)
      requires Valid() && position + 32 <= |data|
      modifies this
      ensures Valid()
      ensures DecodeIdentity(data, old(position)) == Some(Read(i, position))
    {
      var v := ReadU256();
      i := Identities.Identity(v);
    }

    /** ReadArray: the length; a negative one gives the empty array,
      * otherwise the element reader runs that many times. */
    method ReadArray<T>(dec: Decoder<T>) returns (xs: seq<T>)
      requires Valid() && Sound(dec) && DecodeArray(dec, data, position).Some?
      modifies this
      ensures Valid()
      ensures DecodeArray(dec, data, old(position)) == Some(Read(xs, position))
    {
      var len := ReadInt32();
      if len < 0 {
        return [];
      }
      ghost var start := position;
      xs := [];
      var i := 0;
      while i < len
        invariant 0 <= i <= len && Valid()
        invariant DecodeElems(dec, data, start, len).Some?
        invariant DecodeElems(dec, data, start, i) == Some(Read(xs, position))
      {
        ElemsSplit(dec, data, start, i, len - i);
        assert i + (len - i) == len;
        var x := ReadWith(dec);
        ElemsSnoc(dec, data, start, i);
        xs := xs + [x];
        i := i + 1;
      }
    }

    method ReadStringArray() returns (ss: seq<string>)
      requires Valid() && DecodeArray(DecodeString, data, position).Some?
      modifies this
      ensures Valid()
      ensures DecodeArray(DecodeString, data, old(position)) == Some(Read(ss, position))
    {
      StringIsSound();
      ss := ReadArray(DecodeString);
    }
  }
}
