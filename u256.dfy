/** FU256: an unsigned 256-bit integer kept as two FU128 halves. */
module UInt256 {
  import opened Bytes
  import Hex
  import UInt128

  type U128 = UInt128.U128

  const Two128: nat := 0x1_0000_0000_0000_0000_0000_0000_0000_0000

  datatype U256 = U256(upper: U128, lower: U128)

  /** The default constructor: both halves zero. */
  const Zero: U256 := U256(UInt128.Zero, UInt128.Zero)

  /** The number the two halves denote. */
  function Value(a: U256): (v: nat)
    ensures v < Two128 * Two128
  {
    UInt128.Value(a.upper) * Two128 + UInt128.Value(a.lower)
  }

  lemma ValueInjective(a: U256, b: U256)
    ensures Value(a) == Value(b) <==> a == b
  {
    UInt128.ValueInjective(a.upper, b.upper);
    UInt128.ValueInjective(a.lower, b.lower);
  }

  /** operator<: the upper halves decide, the lower halves break a tie. */
  predicate Less(a: U256, b: U256) {
    UInt128.Less(a.upper, b.upper) || (a.upper == b.upper && UInt128.Less(a.lower, b.lower))
  }

  /** operator> */
  predicate Greater(a: U256, b: U256) {
    UInt128.Greater(a.upper, b.upper) || (a.upper == b.upper && UInt128.Greater(a.lower, b.lower))
  }

  /** operator< is the order of the 256-bit numbers. */
  lemma LessIsNumeric(a: U256, b: U256)
    ensures Less(a, b) <==> Value(a) < Value(b)
  {
    UInt128.LessIsNumeric(a.upper, b.upper);
    UInt128.LessIsNumeric(a.lower, b.lower);
    UInt128.ValueInjective(a.upper, b.upper);
  }

  /** operator> is operator< with the operands swapped. */
  lemma GreaterIsConverse(a: U256, b: U256)
    ensures Greater(a, b) <==> Less(b, a)
  {
    UInt128.GreaterIsConverse(a.upper, b.upper);
    UInt128.GreaterIsConverse(a.lower, b.lower);
  }

  /** CompareTo: -1, 0 or 1 as a is below, equal to or above b. */
  function CompareTo(a: U256, b: U256): (r: int)
    ensures r == -1 <==> Value(a) < Value(b)
    ensures r == 0 <==> a == b
    ensures r == 1 <==> Value(b) < Value(a)
  {
    LessIsNumeric(a, b);
    LessIsNumeric(b, a);
    GreaterIsConverse(a, b);
    ValueInjective(a, b);
    if Less(a, b) then -1 else if Greater(a, b) then 1 else 0
  }

  /** ToBytesBE: the upper half's big-endian bytes, then the lower's. */
  function ToBytesBE(a: U256): (r: seq<byte>)
    ensures |r| == 32
  {
    UInt128.ToBytesBE(a.upper) + UInt128.ToBytesBE(a.lower)
  }

  /** ToBytesLE: the lower half's little-endian bytes, then the upper's. */
  function ToBytesLE(a: U256): (r: seq<byte>)
    ensures |r| == 32
  {
    UInt128.ToBytesLE(a.lower) + UInt128.ToBytesLE(a.upper)
  }

  /** ToBytesBE is the 32-byte big-endian layout of the number. */
  lemma ToBytesBEIsBE(a: U256)
    ensures Value(a) < Pow256(32)
    ensures ToBytesBE(a) == BE(Value(a), 32)
  {
    UInt128.ToBytesBEIsBE(a.upper);
    UInt128.ToBytesBEIsBE(a.lower);
    Pow256Widths();
    BEConcat(UInt128.Value(a.upper), UInt128.Value(a.lower), 16, 16);
  }

  /** ToBytesLE is the 32-byte little-endian layout of the number, which
    * is ToBytesBE read backwards. */
  lemma ToBytesLEIsLE(a: U256)
    ensures Value(a) < Pow256(32)
    ensures ToBytesLE(a) == LE(Value(a), 32)
    ensures ToBytesLE(a) == Reverse(ToBytesBE(a))
  {
    ToBytesBEIsBE(a);
    var le := LE(Value(a), 32);
    assert ToBytesLE(a) == le by {
      UInt128.ToBytesLEIsLE(a.upper);
      UInt128.ToBytesLEIsLE(a.lower);
      Pow256Widths();
      LEConcat(UInt128.Value(a.upper), UInt128.Value(a.lower), 16, 16);
    }
    BEIsReversedLE(Value(a), 32);
    ReverseReverse(le);
  }

  /** ToString: "0x" followed by each half's digits without its own "0x". */
  function ToString(a: U256): (s: string)
    ensures |s| == 66
  {
    "0x" + UInt128.ToString(a.upper)[2..] + UInt128.ToString(a.lower)[2..]
  }

  /** The digits of ToString are the bytes of ToBytesBE, two per byte. */
  lemma ToStringPrintsBE(a: U256)
    ensures ToString(a) == "0x" + Hex.Print(ToBytesBE(a), true)
  {
    UInt128.ToStringPrintsBE(a.upper);
    UInt128.ToStringPrintsBE(a.lower);
    Hex.PrintConcat(UInt128.ToBytesBE(a.upper), UInt128.ToBytesBE(a.lower), true);
  }
}
