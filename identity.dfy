/** FStdbIdentity: a 256-bit identity. Unlike the connection id, the
  * parsers accept the zero value; their caller must supply 32 bytes. */
module Identities {
  import opened Bytes
  import UInt256
  import ByteUtils

  type U256 = UInt256.U256

  datatype Identity = Identity(value: U256)

  /** The default constructor: the zero identity. */
  const Default: Identity := Identity(UInt256.Zero)

  /** FromLittleEndian: the identity 32 bytes store least significant
    * byte first. */
  function FromLittleEndian(bytes: seq<byte>): (id: Identity)
    requires |bytes| == 32
    ensures UInt256.ToBytesLE(id.value) == bytes
  {
    Identity(ByteUtils.ReadFU256FromLE(bytes))
  }

  /** FromBigEndian: the identity 32 bytes store most significant byte
    * first. */
  function FromBigEndian(bytes: seq<byte>): (id: Identity)
    requires |bytes| == 32
    ensures UInt256.ToBytesBE(id.value) == bytes
  {
    Identity(ByteUtils.ReadFU256FromBE(bytes))
  }

  /** FromHexString: the big-endian parse of the bytes the hex text
    * denotes, which must be 32 bytes. */
  method FromHexString(hex: string) returns (id: Identity)
    requires |ByteUtils.RemoveHexMarks(hex)| / 2 == 32
    ensures id == FromBigEndian(ByteUtils.HexToBytes(hex))
  {
    var bytes := ByteUtils.HexStringToBytes(hex);
    id := FromBigEndian(bytes);
  }

  /** ToString: the value's "0x" and 64 upper-case hex digits. */
  function ToString(id: Identity): (s: string)
    ensures |s| == 66
  {
    UInt256.ToString(id.value)
  }

  /** CompareTo: the order of the underlying 256-bit values. */
  function CompareTo(a: Identity, b: Identity): (r: int)
    ensures r == -1 <==> UInt256.Value(a.value) < UInt256.Value(b.value)
    ensures r == 0 <==> a == b
    ensures r == 1 <==> UInt256.Value(b.value) < UInt256.Value(a.value)
  {
    UInt256.CompareTo(a.value, b.value)
  }

  /** operator< and operator>: the order of the underlying values. */
  predicate Less(a: Identity, b: Identity) {
    UInt256.Less(a.value, b.value)
  }

  predicate Greater(a: Identity, b: Identity) {
    UInt256.Greater(a.value, b.value)
  }

  lemma OrderIsNumeric(a: Identity, b: Identity)
    ensures Less(a, b) <==> UInt256.Value(a.value) < UInt256.Value(b.value)
    ensures Greater(a, b) <==> Less(b, a)
  {
    UInt256.LessIsNumeric(a.value, b.value);
    UInt256.GreaterIsConverse(a.value, b.value);
  }

  /** Every identity, the zero one included, survives ToString and
    * FromHexString. */
  lemma HexRoundTrip(id: Identity)
    ensures |ByteUtils.HexToBytes(ToString(id))| == 32
    ensures FromBigEndian(ByteUtils.HexToBytes(ToString(id))) == id
  {
    ByteUtils.HexOfU256String(id.value);
    ByteUtils.U256RoundTrips(id.value);
  }

  /** Every identity survives its big-endian and little-endian layouts. */
  lemma BytesRoundTrip(id: Identity)
    ensures FromBigEndian(UInt256.ToBytesBE(id.value)) == id
    ensures FromLittleEndian(UInt256.ToBytesLE(id.value)) == id
  {
    ByteUtils.U256RoundTrips(id.value);
  }

  /** The same 32 bytes read backwards give the same identity in the
    * other byte order. */
  lemma LittleEndianIsReversedBigEndian(bytes: seq<byte>)
    requires |bytes| == 32
    ensures FromLittleEndian(Reverse(bytes)) == FromBigEndian(bytes)
  {
    var x := FromLittleEndian(Reverse(bytes)).value;
    var y := FromBigEndian(bytes).value;
    UInt256.ToBytesLEIsLE(y);
    ByteUtils.U256RoundTrips(x);
    ByteUtils.U256RoundTrips(y);
  }
}
