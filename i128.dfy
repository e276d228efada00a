/** FI128: a signed 128-bit integer kept as two's complement in two unsigned
  * 64-bit halves; the sign is the top bit of the upper half. */
module Int128 {
  import opened Bytes
  import Hex

  const Two64: nat := 0x1_0000_0000_0000_0000

  datatype I128 = I128(upper: u64, lower: u64)

  /** The default constructor: both halves zero. */
  const Zero: I128 := I128(0, 0)

  /** The upper half read as a signed 64-bit integer. */
  function SignedUpper(a: I128): (x: i64)
  {
    Signed(a.upper, 8)
  }

  /** The number the two halves denote. */
  function Value(a: I128): (v: int)
    ensures -0x8000_0000_0000_0000_0000_0000_0000_0000 <= v < 0x8000_0000_0000_0000_0000_0000_0000_0000
  {
    SignedUpper(a) * Two64 + a.lower
  }

  /** The 128-bit pattern read as an unsigned number. */
  function Bits(a: I128): (v: nat)
    ensures v < Two64 * Two64
  {
    a.upper * Two64 + a.lower
  }

  lemma ValueInjective(a: I128, b: I128)
    ensures Value(a) == Value(b) <==> a == b
  {
    assert SignedUpper(a) == SignedUpper(b) <==> a.upper == b.upper;
  }

  /** IsNegative: the upper half is negative as a signed 64-bit integer. */
  predicate IsNegative(a: I128) {
    SignedUpper(a) < 0
  }

  lemma IsNegativeIsSign(a: I128)
    ensures IsNegative(a) <==> Value(a) < 0
  {
  }

  /** operator<: a negative number is below a non-negative one; with equal
    * signs the upper halves decide and the lower halves break a tie. */
  predicate Less(a: I128, b: I128) {
    if IsNegative(a) != IsNegative(b) then IsNegative(a)
    else if a.upper < b.upper then true
    else SignedUpper(a) == SignedUpper(b) && a.lower < b.lower
  }

  /** operator> */
  predicate Greater(a: I128, b: I128) {
    if IsNegative(a) != IsNegative(b) then IsNegative(b)
    else if a.upper > b.upper then true
    else SignedUpper(a) == SignedUpper(b) && a.lower > b.lower
  }

  /** operator< is the order of the signed 128-bit numbers. */
  lemma LessIsNumeric(a: I128, b: I128)
    ensures Less(a, b) <==> Value(a) < Value(b)
  {
  }

  /** operator> is operator< with the operands swapped. */
  lemma GreaterIsConverse(a: I128, b: I128)
    ensures Greater(a, b) <==> Less(b, a)
  {
  }

  /** CompareTo: -1, 0 or 1 as a is below, equal to or above b. */
  function CompareTo(a: I128, b: I128): (r: int)
    ensures r == -1 <==> Value(a) < Value(b)
    ensures r == 0 <==> a == b
    ensures r == 1 <==> Value(b) < Value(a)
  {
    LessIsNumeric(a, b);
    LessIsNumeric(b, a);
    GreaterIsConverse(a, b);
    ValueInjective(a, b);
    if Less(a, b) then -1 else if Greater(a, b) then 1 else 0
  }

  /** ToBytesBE: the upper half's bytes, then the lower half's. */
  function ToBytesBE(a: I128): (r: seq<byte>)
    ensures |r| == 16
  {
    ShiftedBytes(a.upper) + ShiftedBytes(a.lower)
  }

  /** ToBytesLE: the in-memory bytes of the lower half, then the upper. */
  function ToBytesLE(a: I128): (r: seq<byte>)
    ensures |r| == 16
  {
    LE(a.lower, 8) + LE(a.upper, 8)
  }

  /** ToBytesBE is the big-endian layout of the two's complement pattern. */
  lemma ToBytesBEIsBE(a: I128)
    ensures Bits(a) < Pow256(16)
    ensures ToBytesBE(a) == BE(Bits(a), 16)
  {
    ShiftedBytesAreBE(a.upper);
    ShiftedBytesAreBE(a.lower);
    assert Pow256(8) == Two64;
    BEConcat(a.upper, a.lower, 8, 8);
  }

  /** ToBytesLE is the little-endian layout of the pattern, which is
    * ToBytesBE read backwards. */
  lemma ToBytesLEIsLE(a: I128)
    ensures Bits(a) < Pow256(16)
    ensures ToBytesLE(a) == LE(Bits(a), 16)
    ensures ToBytesLE(a) == Reverse(ToBytesBE(a))
  {
    assert Pow256(8) == Two64;
    LEConcat(a.upper, a.lower, 8, 8);
    var le := LE(Bits(a), 16);
    ToBytesBEIsBE(a);
    BEIsReversedLE(Bits(a), 16);
    ReverseReverse(le);
  }

  /** The pattern is the two's complement of the number. */
  lemma BitsIsTwosComplement(a: I128)
    ensures Bits(a) == if Value(a) >= 0 then Value(a) else Value(a) + Two64 * Two64
  {
  }

  /** ToString: "0x" and each half as sixteen upper-case hex digits. */
  function ToString(a: I128): (s: string)
    ensures |s| == 34
  {
    "0x" + Hex.Print(BE(a.upper, 8), true) + Hex.Print(BE(a.lower, 8), true)
  }

  /** The digits of ToString are the bytes of ToBytesBE, two per byte. */
  lemma ToStringPrintsBE(a: I128)
    ensures ToString(a) == "0x" + Hex.Print(ToBytesBE(a), true)
  {
    ShiftedBytesAreBE(a.upper);
    ShiftedBytesAreBE(a.lower);
    Hex.PrintConcat(BE(a.upper, 8), BE(a.lower, 8), true);
  }
}
