/** FByteUtils: building wide integers from byte arrays in either byte
  * order, and turning hex text into bytes. */
module ByteUtils {
  import opened Bytes
  import Hex
  import UInt128
  import UInt256

  type U128 = UInt128.U128
  type U256 = UInt256.U256

  /** ReadUInt64BE: the eight bytes at offset, each shifted into place and
    * ORed together, which is their big-endian value. */
  function ReadUInt64BE(bytes: seq<byte>, offset: nat): (v: u64)
    requires offset + 8 <= |bytes|
    ensures BE(v, 8) == bytes[offset..offset + 8]
  {
    Pow256Widths();
    BEOfFromBE(bytes[offset..offset + 8]);
    FromBE(bytes[offset..offset + 8])
  }

  /** ReadFU128FromBE: upper half from the first eight bytes, lower half
    * from the next eight; the caller must supply sixteen bytes. */
  function ReadFU128FromBE(bytes: seq<byte>, offset: nat): (v: U128)
    requires offset + 16 <= |bytes|
    ensures UInt128.ToBytesBE(v) == bytes[offset..offset + 16]
  {
    var v := UInt128.U128(ReadUInt64BE(bytes, offset), ReadUInt64BE(bytes, offset + 8));
    ShiftedBytesAreBE(v.upper);
    ShiftedBytesAreBE(v.lower);
    assert bytes[offset..offset + 16] == bytes[offset..offset + 8] + bytes[offset + 8..offset + 16];
    v
  }

  /** ReadFU128FromLE: the in-memory 64-bit values at offset + 8 (upper)
    * and offset (lower). */
  function ReadFU128FromLE(bytes: seq<byte>, offset: nat): (v: U128)
    requires offset + 16 <= |bytes|
    ensures UInt128.ToBytesLE(v) == bytes[offset..offset + 16]
  {
    Pow256Widths();
    LEOfFromLE(bytes[offset + 8..offset + 16]);
    LEOfFromLE(bytes[offset..offset + 8]);
    assert bytes[offset..offset + 16] == bytes[offset..offset + 8] + bytes[offset + 8..offset + 16];
    UInt128.U128(FromLE(bytes[offset + 8..offset + 16]), FromLE(bytes[offset..offset + 8]))
  }

  /** ReadFU256FromBE: exactly 32 bytes, upper half first. */
  function ReadFU256FromBE(bytes: seq<byte>): (v: U256)
    requires |bytes| == 32
    ensures UInt256.ToBytesBE(v) == bytes
  {
    assert bytes == bytes[0..16] + bytes[16..32];
    UInt256.U256(ReadFU128FromBE(bytes, 0), ReadFU128FromBE(bytes, 16))
  }

  /** ReadFU256FromLE: exactly 32 bytes, lower half first. */
  function ReadFU256FromLE(bytes: seq<byte>): (v: U256)
    requires |bytes| == 32
    ensures UInt256.ToBytesLE(v) == bytes
  {
    assert bytes == bytes[0..16] + bytes[16..32];
    UInt256.U256(ReadFU128FromLE(bytes, 16), ReadFU128FromLE(bytes, 0))
  }

  /** Reading back the bytes a value was written as gives the value. */
  lemma U128RoundTrips(v: U128)
    ensures ReadFU128FromBE(UInt128.ToBytesBE(v), 0) == v
    ensures ReadFU128FromLE(UInt128.ToBytesLE(v), 0) == v
  {
    var be := UInt128.ToBytesBE(v);
    var le := UInt128.ToBytesLE(v);
    var x := ReadFU128FromBE(be, 0);
    var y := ReadFU128FromLE(le, 0);
    assert be[0..16] == be && le[0..16] == le;
    UInt128.ToBytesBEIsBE(x);
    UInt128.ToBytesBEIsBE(v);
    BEInjective(UInt128.Value(x), UInt128.Value(v), 16);
    UInt128.ValueInjective(x, v);
    UInt128.ToBytesLEIsLE(y);
    UInt128.ToBytesLEIsLE(v);
    LEInjective(UInt128.Value(y), UInt128.Value(v), 16);
    UInt128.ValueInjective(y, v);
  }

  /** Sixteen bytes parse to v exactly when they are v's layout. */
  lemma U128ParseIff(bytes: seq<byte>, v: U128)
    requires |bytes| == 16
    ensures ReadFU128FromBE(bytes, 0) == v <==> UInt128.ToBytesBE(v) == bytes
    ensures ReadFU128FromLE(bytes, 0) == v <==> UInt128.ToBytesLE(v) == bytes
  {
    assert bytes[0..16] == bytes;
    U128RoundTrips(v);
  }

  lemma U256RoundTrips(v: U256)
    ensures ReadFU256FromBE(UInt256.ToBytesBE(v)) == v
    ensures ReadFU256FromLE(UInt256.ToBytesLE(v)) == v
  {
    var x := ReadFU256FromBE(UInt256.ToBytesBE(v));
    var y := ReadFU256FromLE(UInt256.ToBytesLE(v));
    UInt256.ToBytesBEIsBE(x);
    UInt256.ToBytesBEIsBE(v);
    BEInjective(UInt256.Value(x), UInt256.Value(v), 32);
    UInt256.ValueInjective(x, v);
    UInt256.ToBytesLEIsLE(y);
    UInt256.ToBytesLEIsLE(v);
    LEInjective(UInt256.Value(y), UInt256.Value(v), 32);
    UInt256.ValueInjective(y, v);
  }

  /** FString::Replace of "0x" by "", with the engine's default
    * case-insensitive search: every "0x" or "0X" met scanning left to right
    * is dropped, and the text after a removal is not rescanned. */
  function RemoveHexMarks(s: string): (r: string)
    ensures |r| <= |s|
  {
    if |s| < 2 then s
    else if s[0] == '0' && (s[1] == 'x' || s[1] == 'X') then RemoveHexMarks(s[2..])
    else [s[0]] + RemoveHexMarks(s[1..])
  }

  /** Text without an 'x' or 'X' is left as it is. */
  lemma {:induction false} RemoveHexMarksNoX(s: string)
    requires forall i :: 0 <= i < |s| ==> s[i] != 'x' && s[i] != 'X'
    ensures RemoveHexMarks(s) == s
  {
    if |s| >= 2 {
      RemoveHexMarksNoX(s[1..]);
    }
  }

  /** Marks are removed once: removing from "00xx" leaves "0x". */
  lemma RemoveHexMarksDoesNotRescan()
    ensures RemoveHexMarks("00xx") == "0x"
  {
    assert "00xx"[1..] == "0xx";
    assert "0xx"[2..] == "x";
  }

  /** The bytes HexStringToBytes returns for some text. */
  function HexToBytes(hex: string): (bytes: seq<byte>)
    ensures |bytes| == |RemoveHexMarks(hex)| / 2
  {
    Hex.Parse(RemoveHexMarks(hex))
  }

  /** HexStringToBytes: drop the "0x" marks, then turn each pair of digits
    * into one byte, the first digit giving the high four bits. */
  method HexStringToBytes(hex: string) returns (bytes: seq<byte>)
    ensures |bytes| == |RemoveHexMarks(hex)| / 2
    ensures forall i :: 0 <= i < |bytes| ==>
      bytes[i] == Hex.DigitValue(RemoveHexMarks(hex)[2 * i]) * 16 + Hex.DigitValue(RemoveHexMarks(hex)[2 * i + 1])
    ensures bytes == HexToBytes(hex)
  {
    var clean := RemoveHexMarks(hex);
    var count := |clean| / 2;
    var a := new byte[count];
    for i := 0 to count
      invariant forall j :: 0 <= j < i ==> a[j] == Hex.PairValue(clean[2 * j], clean[2 * j + 1])
    {
      a[i] := Hex.DigitValue(clean[2 * i]) * 16 + Hex.DigitValue(clean[2 * i + 1]);
    }
    bytes := a[..];
  }

  /** "0x" followed by printed bytes, in either case, reads back as the
    * bytes. */
  lemma HexToBytesOfPrinted(bs: seq<byte>, upper: bool)
    ensures HexToBytes("0x" + Hex.Print(bs, upper)) == bs
    ensures HexToBytes(Hex.Print(bs, upper)) == bs
  {
    var p := Hex.Print(bs, upper);
    Hex.PrintHasNoX(bs, upper);
    RemoveHexMarksNoX(p);
    assert ("0x" + p)[2..] == p;
    Hex.ParsePrint(bs, upper);
  }

  /** Parsing FU128's ToString gives back its ToBytesBE. */
  lemma HexOfU128String(v: U128)
    ensures HexToBytes(UInt128.ToString(v)) == UInt128.ToBytesBE(v)
  {
    UInt128.ToStringPrintsBE(v);
    HexToBytesOfPrinted(UInt128.ToBytesBE(v), true);
  }

  /** Parsing FU256's ToString gives back its ToBytesBE. */
  lemma HexOfU256String(v: U256)
    ensures HexToBytes(UInt256.ToString(v)) == UInt256.ToBytesBE(v)
  {
    UInt256.ToStringPrintsBE(v);
    HexToBytesOfPrinted(UInt256.ToBytesBE(v), true);
  }
}
