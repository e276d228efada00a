/** FStdbConnectionId: a 128-bit connection id. The parsers refuse input
  * of the wrong length and the all-zero id. */
module ConnectionIds {
  import opened Wrappers
  import opened Bytes
  import UInt128
  import ByteUtils

  type U128 = UInt128.U128

  datatype ConnectionId = ConnectionId(value: U128)

  /** The default constructor: the zero id. */
  const Default: ConnectionId := ConnectionId(UInt128.Zero)

  const SixteenZeros: seq<byte> := [0, 0, 0, 0, 0, 0, 0, 0, 0, 0, 0, 0, 0, 0, 0, 0]

  lemma ZeroBytes()
    ensures UInt128.ToBytesLE(UInt128.Zero) == SixteenZeros
    ensures UInt128.ToBytesBE(UInt128.Zero) == SixteenZeros
  {
    LEOfZero(8);
    ShiftedBytesAreBE(0);
    BEOfZero(8);
    assert seq(8, _ => 0) + seq(8, _ => 0) == SixteenZeros;
  }

  /** The parsers' zero test is a test for sixteen zero bytes. */
  lemma ParsedLE(bytes: seq<byte>)
    requires |bytes| == 16
    ensures ByteUtils.ReadFU128FromLE(bytes, 0) == UInt128.Zero <==> bytes == SixteenZeros
    ensures UInt128.ToBytesLE(ByteUtils.ReadFU128FromLE(bytes, 0)) == bytes
  {
    ZeroBytes();
    ByteUtils.U128ParseIff(bytes, UInt128.Zero);
    assert bytes[0..16] == bytes;
  }

  lemma ParsedBE(bytes: seq<byte>)
    requires |bytes| == 16
    ensures ByteUtils.ReadFU128FromBE(bytes, 0) == UInt128.Zero <==> bytes == SixteenZeros
    ensures UInt128.ToBytesBE(ByteUtils.ReadFU128FromBE(bytes, 0)) == bytes
  {
    ZeroBytes();
    ByteUtils.U128ParseIff(bytes, UInt128.Zero);
    assert bytes[0..16] == bytes;
  }

  /** FromLittleEndian: sixteen bytes that are not all zero give the id
    * they store least significant byte first; anything else gives none. */
  function FromLittleEndian(bytes: seq<byte>): (r: Option<ConnectionId>)
    ensures r.Some? <==> |bytes| == 16 && bytes != SixteenZeros
    ensures r.Some? ==> UInt128.ToBytesLE(r.value.value) == bytes
  {
    if |bytes| != 16 then None
    else
      var parsed := ByteUtils.ReadFU128FromLE(bytes, 0);
      ParsedLE(bytes);
      if parsed == UInt128.Zero then None else Some(ConnectionId(parsed))
  }

  /** FromBigEndian: sixteen bytes that are not all zero give the id they
    * store most significant byte first; anything else gives none. */
  function FromBigEndian(bytes: seq<byte>): (r: Option<ConnectionId>)
    ensures r.Some? <==> |bytes| == 16 && bytes != SixteenZeros
  {
    if |bytes| != 16 then None
    else
      var parsed := ByteUtils.ReadFU128FromBE(bytes, 0);
      ParsedBE(bytes);
      if parsed == UInt128.Zero then None else Some(ConnectionId(parsed))
  }

  /** The id FromBigEndian returns is laid out big-endian as the input. */
  lemma FromBigEndianLayout(bytes: seq<byte>)
    ensures FromBigEndian(bytes).Some? ==> UInt128.ToBytesBE(FromBigEndian(bytes).value.value) == bytes
  {
    if |bytes| == 16 {
      ParsedBE(bytes);
    }
  }

  /** FromHexString: the big-endian parse of the bytes the hex text denotes. */
  method FromHexString(hex: string) returns (r: Option<ConnectionId>)
    ensures r == FromBigEndian(ByteUtils.HexToBytes(hex))
    ensures r.Some? ==> |ByteUtils.RemoveHexMarks(hex)| in {32, 33}
  {
    var bytes := ByteUtils.HexStringToBytes(hex);
    r := FromBigEndian(bytes);
  }

  /** ToString: the value's "0x" and 32 upper-case hex digits. */
  function ToString(id: ConnectionId): (s: string)
    ensures |s| == 34
  {
    UInt128.ToString(id.value)
  }

  /** CompareTo: the order of the underlying 128-bit values. */
  function CompareTo(a: ConnectionId, b: ConnectionId): (r: int)
    ensures r == -1 <==> UInt128.Value(a.value) < UInt128.Value(b.value)
    ensures r == 0 <==> a == b
    ensures r == 1 <==> UInt128.Value(b.value) < UInt128.Value(a.value)
  {
    UInt128.CompareTo(a.value, b.value)
  }

  /** A non-zero id survives ToString and FromHexString. */
  lemma HexRoundTrip(id: ConnectionId)
    requires id != Default
    ensures FromBigEndian(ByteUtils.HexToBytes(ToString(id))) == Some(id)
  {
    ByteUtils.HexOfU128String(id.value);
    var bytes := UInt128.ToBytesBE(id.value);
    ZeroBytes();
    if bytes == SixteenZeros {
      ByteUtils.U128RoundTrips(id.value);
      ByteUtils.U128RoundTrips(UInt128.Zero);
    }
    ByteUtils.U128RoundTrips(id.value);
    assert bytes[0..16] == bytes;
  }

  /** A non-zero id survives its big-endian and little-endian layouts. */
  lemma BytesRoundTrip(id: ConnectionId)
    requires id != Default
    ensures FromBigEndian(UInt128.ToBytesBE(id.value)) == Some(id)
    ensures FromLittleEndian(UInt128.ToBytesLE(id.value)) == Some(id)
  {
    ZeroBytes();
    var be := UInt128.ToBytesBE(id.value);
    var le := UInt128.ToBytesLE(id.value);
    ByteUtils.U128ParseIff(be, id.value);
    ByteUtils.U128ParseIff(le, id.value);
    ByteUtils.U128ParseIff(be, UInt128.Zero);
    ByteUtils.U128ParseIff(le, UInt128.Zero);
  }

  /** The same bytes read backwards give the same id in the other order. */
  lemma LittleEndianIsReversedBigEndian(bytes: seq<byte>)
    ensures FromLittleEndian(Reverse(bytes)) == FromBigEndian(bytes)
  {
    if |bytes| == 16 {
      var x := ByteUtils.ReadFU128FromLE(Reverse(bytes), 0);
      var y := ByteUtils.ReadFU128FromBE(bytes, 0);
      assert Reverse(bytes)[0..16] == Reverse(bytes);
      assert bytes[0..16] == bytes;
      UInt128.ToBytesLEIsLE(y);
      ByteUtils.U128RoundTrips(x);
      ByteUtils.U128RoundTrips(y);
    }
  }
}
