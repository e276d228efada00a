/** FU128: an unsigned 128-bit integer kept as two unsigned 64-bit halves. */
module UInt128 {
  import opened Bytes
  import Hex

  const Two64: nat := 0x1_0000_0000_0000_0000

  datatype U128 = U128(upper: u64, lower: u64)

  /** The default constructor: both halves zero. */
  const Zero: U128 := U128(0, 0)

  /** The number the two halves denote. */
  function Value(a: U128): (v: nat)
    ensures v < Two64 * Two64
  {
    a.upper * Two64 + a.lower
  }

  lemma ValueInjective(a: U128, b: U128)
    ensures Value(a) == Value(b) <==> a == b
  {
  }

  /** operator<: the upper halves decide, the lower halves break a tie. */
  predicate Less(a: U128, b: U128) {
    a.upper < b.upper || (a.upper == b.upper && a.lower < b.lower)
  }

  /** operator> */
  predicate Greater(a: U128, b: U128) {
    a.upper > b.upper || (a.upper == b.upper && a.lower > b.lower)
  }

  /** operator< is the order of the 128-bit numbers. */
  lemma LessIsNumeric(a: U128, b: U128)
    ensures Less(a, b) <==> Value(a) < Value(b)
  {
  }

  /** operator> is operator< with the operands swapped. */
  lemma GreaterIsConverse(a: U128, b: U128)
    ensures Greater(a, b) <==> Less(b, a)
  {
  }

  /** CompareTo: -1, 0 or 1 as a is below, equal to or above b. */
  function CompareTo(a: U128, b: U128): (r: int)
    ensures r == -1 <==> Value(a) < Value(b)
    ensures r == 0 <==> a == b
    ensures r == 1 <==> Value(b) < Value(a)
  {
    LessIsNumeric(a, b);
    LessIsNumeric(b, a);
    GreaterIsConverse(a, b);
    ValueInjective(a, b);
    if Less(a, b) then -1 else if Greater(a, b) then 1 else 0
  }

  /** ToBytesBE: the upper half's bytes, then the lower half's. */
  function ToBytesBE(a: U128): (r: seq<byte>)
    ensures |r| == 16
  {
    ShiftedBytes(a.upper) + ShiftedBytes(a.lower)
  }

  /** ToBytesLE: the in-memory bytes of the lower half, then the upper. */
  function ToBytesLE(a: U128): (r: seq<byte>)
    ensures |r| == 16
  {
    LE(a.lower, 8) + LE(a.upper, 8)
  }

  /** ToBytesBE is the 16-byte big-endian layout of the number. */
  lemma ToBytesBEIsBE(a: U128)
    ensures Value(a) < Pow256(16)
    ensures ToBytesBE(a) == BE(Value(a), 16)
  {
    ShiftedBytesAreBE(a.upper);
    ShiftedBytesAreBE(a.lower);
    assert Pow256(8) == Two64;
    BEConcat(a.upper, a.lower, 8, 8);
  }

  /** ToBytesLE is the 16-byte little-endian layout of the number, which is
    * ToBytesBE read backwards. */
  lemma ToBytesLEIsLE(a: U128)
    ensures Value(a) < Pow256(16)
    ensures ToBytesLE(a) == LE(Value(a), 16)
    ensures ToBytesLE(a) == Reverse(ToBytesBE(a))
  {
    assert Pow256(8) == Two64;
    LEConcat(a.upper, a.lower, 8, 8);
    var le := LE(Value(a), 16);
    ToBytesBEIsBE(a);
    BEIsReversedLE(Value(a), 16);
    ReverseReverse(le);
  }

  /** ToString: "0x" and each half as sixteen upper-case hex digits. */
  function ToString(a: U128): (s: string)
    ensures |s| == 34
  {
    "0x" + Hex.Print(BE(a.upper, 8), true) + Hex.Print(BE(a.lower, 8), true)
  }

  /** The digits of ToString are the bytes of ToBytesBE, two per byte. */
  lemma ToStringPrintsBE(a: U128)
    ensures ToString(a) == "0x" + Hex.Print(ToBytesBE(a), true)
  {
    ShiftedBytesAreBE(a.upper);
    ShiftedBytesAreBE(a.lower);
    Hex.PrintConcat(BE(a.upper, 8), BE(a.lower, 8), true);
  }
}
