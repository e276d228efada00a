/** FI256: a signed 256-bit integer kept as two FI128 halves; the sign is
  * the top bit of the upper half. */
module Int256 {
  import opened Bytes
  import Hex
  import Int128

  type I128 = Int128.I128

  const Two128: nat := 0x1_0000_0000_0000_0000_0000_0000_0000_0000

  datatype I256 = I256(upper: I128, lower: I128)

  /** The default constructor: both halves zero. */
  const Zero: I256 := I256(Int128.Zero, Int128.Zero)

  /** The number the 256-bit two's complement pattern denotes: the upper
    * half is signed, the lower half is the low 128 bits. */
  function Value(a: I256): (v: int)
  {
    Int128.Value(a.upper) * Two128 + Int128.Bits(a.lower)
  }

  /** The 256-bit pattern read as an unsigned number. */
  function Bits(a: I256): (v: nat)
    ensures v < Two128 * Two128
  {
    Int128.Bits(a.upper) * Two128 + Int128.Bits(a.lower)
  }

  /** IsNegative: the top bit of the upper half's upper 64 bits. */
  predicate IsNegative(a: I256) {
    Signed(a.upper.upper, 8) < 0
  }

  lemma IsNegativeIsSign(a: I256)
    ensures IsNegative(a) <==> Value(a) < 0
  {
    Int128.IsNegativeIsSign(a.upper);
  }

  /** operator<: a negative number is below a non-negative one; with equal
    * signs the upper halves decide by FI128's order, and equal upper
    * halves are broken by FI128's (signed) order on the lower halves. */
  predicate Less(a: I256, b: I256) {
    if IsNegative(a) != IsNegative(b) then IsNegative(a)
    else if Int128.Less(a.upper, b.upper) then true
    else a.upper == b.upper && Int128.Less(a.lower, b.lower)
  }

  /** operator> */
  predicate Greater(a: I256, b: I256) {
    if IsNegative(a) != IsNegative(b) then IsNegative(b)
    else if Int128.Greater(a.upper, b.upper) then true
    else a.upper == b.upper && Int128.Greater(a.lower, b.lower)
  }

  /** operator< orders by the signed value of the upper half and then by
    * the signed value of the lower half. */
  lemma LessIsLexicographic(a: I256, b: I256)
    ensures Less(a, b) <==>
      Int128.Value(a.upper) < Int128.Value(b.upper)
      || (a.upper == b.upper && Int128.Value(a.lower) < Int128.Value(b.lower))
  {
    Int128.LessIsNumeric(a.upper, b.upper);
    Int128.LessIsNumeric(a.lower, b.lower);
    Int128.IsNegativeIsSign(a.upper);
    Int128.IsNegativeIsSign(b.upper);
  }

  lemma LessIrreflexive(a: I256)
    ensures !Less(a, a)
  {
    LessIsLexicographic(a, a);
  }

  lemma LessTransitive(a: I256, b: I256, c: I256)
    requires Less(a, b) && Less(b, c)
    ensures Less(a, c)
  {
    LessIsLexicographic(a, b);
    LessIsLexicographic(b, c);
    LessIsLexicographic(a, c);
  }

  /** Any two different values are ordered one way or the other. */
  lemma LessTotal(a: I256, b: I256)
    ensures a == b || Less(a, b) || Less(b, a)
  {
    LessIsLexicographic(a, b);
    LessIsLexicographic(b, a);
    Int128.ValueInjective(a.upper, b.upper);
    Int128.ValueInjective(a.lower, b.lower);
  }

  /** operator> is operator< with the operands swapped. */
  lemma GreaterIsConverse(a: I256, b: I256)
    ensures Greater(a, b) <==> Less(b, a)
  {
    Int128.GreaterIsConverse(a.upper, b.upper);
    Int128.GreaterIsConverse(a.lower, b.lower);
  }

  /** When the lower halves agree in their top bit, operator< is the order
    * of the 256-bit numbers. */
  lemma LessIsNumericForLowerHalvesOfOneSign(a: I256, b: I256)
    requires Int128.IsNegative(a.lower) == Int128.IsNegative(b.lower)
    ensures Less(a, b) <==> Value(a) < Value(b)
  {
    LessIsLexicographic(a, b);
    Int128.ValueInjective(a.upper, b.upper);
    Int128.BitsIsTwosComplement(a.lower);
    Int128.BitsIsTwosComplement(b.lower);
    Int128.IsNegativeIsSign(a.lower);
    Int128.IsNegativeIsSign(b.lower);
  }

  /** In general operator< is not the numeric order: a lower half with its
    * top bit set counts as negative, so 2^127 sorts below 0. */
  lemma LessIsNotNumeric()
    ensures var a := I256(Int128.Zero, Int128.I128(0x8000_0000_0000_0000, 0));
            Less(a, Zero) && Value(a) == 0x8000_0000_0000_0000_0000_0000_0000_0000 && Value(Zero) == 0
  {
  }

  /** CompareTo: -1, 0 or 1 as a is below, equal to or above b in the order
    * of operator<. */
  function CompareTo(a: I256, b: I256): (r: int)
    ensures r == -1 <==> Less(a, b)
    ensures r == 0 <==> a == b
    ensures r == 1 <==> Less(b, a)
  {
    LessIrreflexive(a);
    LessTotal(a, b);
    GreaterIsConverse(a, b);
    LessIsLexicographic(a, b);
    LessIsLexicographic(b, a);
    if Less(a, b) then -1 else if Greater(a, b) then 1 else 0
  }

  /** ToBytesBE: the upper half's big-endian bytes, then the lower's. */
  function ToBytesBE(a: I256): (r: seq<byte>)
    ensures |r| == 32
  {
    Int128.ToBytesBE(a.upper) + Int128.ToBytesBE(a.lower)
  }

  /** ToBytesLE: the lower half's little-endian bytes, then the upper's. */
  function ToBytesLE(a: I256): (r: seq<byte>)
    ensures |r| == 32
  {
    Int128.ToBytesLE(a.lower) + Int128.ToBytesLE(a.upper)
  }

  /** ToBytesBE is the big-endian layout of the two's complement pattern. */
  lemma ToBytesBEIsBE(a: I256)
    ensures Bits(a) < Pow256(32)
    ensures ToBytesBE(a) == BE(Bits(a), 32)
  {
    Int128.ToBytesBEIsBE(a.upper);
    Int128.ToBytesBEIsBE(a.lower);
    Pow256Widths();
    BEConcat(Int128.Bits(a.upper), Int128.Bits(a.lower), 16, 16);
  }

  /** ToBytesLE is the little-endian layout of the pattern, which is
    * ToBytesBE read backwards. */
  lemma ToBytesLEIsLE(a: I256)
    ensures Bits(a) < Pow256(32)
    ensures ToBytesLE(a) == LE(Bits(a), 32)
    ensures ToBytesLE(a) == Reverse(ToBytesBE(a))
  {
    ToBytesBEIsBE(a);
    var le := LE(Bits(a), 32);
    assert ToBytesLE(a) == le by {
      Int128.ToBytesLEIsLE(a.upper);
      Int128.ToBytesLEIsLE(a.lower);
      Pow256Widths();
      LEConcat(Int128.Bits(a.upper), Int128.Bits(a.lower), 16, 16);
    }
    BEIsReversedLE(Bits(a), 32);
    ReverseReverse(le);
  }

  /** The pattern is the two's complement of the number. */
  lemma BitsIsTwosComplement(a: I256)
    ensures Bits(a) == if Value(a) >= 0 then Value(a) else Value(a) + Two128 * Two128
  {
    Int128.BitsIsTwosComplement(a.upper);
    IsNegativeIsSign(a);
    Int128.IsNegativeIsSign(a.upper);
  }

  /** ToString: "0x" followed by each half's digits without its own "0x". */
  function ToString(a: I256): (s: string)
    ensures |s| == 66
  {
    "0x" + Int128.ToString(a.upper)[2..] + Int128.ToString(a.lower)[2..]
  }

  /** The digits of ToString are the bytes of ToBytesBE, two per byte. */
  lemma ToStringPrintsBE(a: I256)
    ensures ToString(a) == "0x" + Hex.Print(ToBytesBE(a), true)
  {
    Int128.ToStringPrintsBE(a.upper);
    Int128.ToStringPrintsBE(a.lower);
    Hex.PrintConcat(Int128.ToBytesBE(a.upper), Int128.ToBytesBE(a.lower), true);
  }
}
