/** Hexadecimal text: the digits printf prints for `%X` and `%x`, and the
  * digit values the engine's hex-digit parser gives back. */
module Hex {
  import opened Bytes

  /** The digit printed for a nibble; `upper` selects `%X` over `%x`. */
  function Digit(n: nat, upper: bool): (c: char)
    requires n < 16
  {
    if upper then "0123456789ABCDEF"[n] else "0123456789abcdef"[n]
  }

  /** The engine's hex-digit parser: decimal digits and the letters a-f in
    * either case give their value, every other character gives 0. */
  function DigitValue(c: char): (v: nat)
    ensures v < 16
  {
    if '0' <= c <= '9' then c as int - '0' as int
    else if 'a' <= c <= 'f' then c as int - 'a' as int + 10
    else if 'A' <= c <= 'F' then c as int - 'A' as int + 10
    else 0
  }

  lemma DigitValueOfDigit(n: nat, upper: bool)
    requires n < 16
    ensures DigitValue(Digit(n, upper)) == n
  {
  }

  /** A byte printed with two digits, as `%02X` (or `%02x`) prints it. */
  function Pair(b: byte, upper: bool): (s: string)
    ensures |s| == 2
  {
    [Digit(b / 16, upper), Digit(b % 16, upper)]
  }

  /** Every byte printed with two digits, first byte first. */
  function Print(bs: seq<byte>, upper: bool): (s: string)
    ensures |s| == 2 * |bs|
  {
    if bs == [] then "" else Pair(bs[0], upper) + Print(bs[1..], upper)
  }

  /** The byte that two hex digits denote. */
  function PairValue(hi: char, lo: char): (b: byte)
  {
    DigitValue(hi) * 16 + DigitValue(lo)
  }

  /** The bytes that consecutive digit pairs denote; a trailing odd digit
    * is ignored. */
  function Parse(s: string): (bs: seq<byte>)
    ensures |bs| == |s| / 2
    ensures forall i :: 0 <= i < |bs| ==> bs[i] == PairValue(s[2 * i], s[2 * i + 1])
  {
    if |s| < 2 then [] else [PairValue(s[0], s[1])] + Parse(s[2..])
  }

  lemma {:induction false} PrintAt(bs: seq<byte>, upper: bool, i: nat)
    requires i < |bs|
    ensures Print(bs, upper)[2 * i] == Digit(bs[i] / 16, upper)
    ensures Print(bs, upper)[2 * i + 1] == Digit(bs[i] % 16, upper)
  {
    if i > 0 {
      PrintAt(bs[1..], upper, i - 1);
    }
  }

  /** Parsing what was printed gives the bytes back, in either case. */
  lemma ParsePrint(bs: seq<byte>, upper: bool)
    ensures Parse(Print(bs, upper)) == bs
  {
    var s := Print(bs, upper);
    forall i | 0 <= i < |bs|
      ensures Parse(s)[i] == bs[i]
    {
      PrintAt(bs, upper, i);
      DigitValueOfDigit(bs[i] / 16, upper);
      DigitValueOfDigit(bs[i] % 16, upper);
    }
  }

  lemma {:induction false} PrintConcat(a: seq<byte>, b: seq<byte>, upper: bool)
    ensures Print(a + b, upper) == Print(a, upper) + Print(b, upper)
  {
    if a == [] {
      assert a + b == b;
    } else {
      assert (a + b)[1..] == a[1..] + b;
      PrintConcat(a[1..], b, upper);
    }
  }

  /** Printed text holds no 'x' or 'X', so no "0x" occurs in it. */
  lemma PrintHasNoX(bs: seq<byte>, upper: bool)
    ensures forall i :: 0 <= i < |Print(bs, upper)| ==> Print(bs, upper)[i] != 'x' && Print(bs, upper)[i] != 'X'
  {
    forall i | 0 <= i < |Print(bs, upper)|
      ensures Print(bs, upper)[i] != 'x' && Print(bs, upper)[i] != 'X'
    {
      var j := i / 2;
      assert i == 2 * j || i == 2 * j + 1;
      PrintAt(bs, upper, j);
      DigitIsNotX(bs[j] / 16, upper);
      DigitIsNotX(bs[j] % 16, upper);
    }
  }

  lemma DigitIsNotX(n: nat, upper: bool)
    requires n < 16
    ensures Digit(n, upper) != 'x' && Digit(n, upper) != 'X'
  {
  }
}
