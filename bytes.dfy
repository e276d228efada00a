/** Fixed-width integers and their byte layouts.
  *
  * The client runs on little-endian targets, so every `memcpy` of an
  * integer in the codec stores its least significant byte first (`LE`).
  * The wide integer types also offer a big-endian layout (`BE`). Signed
  * types are stored as two's complement (`Bits`, `Signed`). */
module Bytes {

  type byte = x: int | 0 <= x < 0x100
  type u16 = x: int | 0 <= x < 0x1_0000
  type u32 = x: int | 0 <= x < 0x1_0000_0000
  type u64 = x: int | 0 <= x < 0x1_0000_0000_0000_0000
  type i8 = x: int | -0x80 <= x < 0x80
  type i16 = x: int | -0x8000 <= x < 0x8000
  type i32 = x: int | -0x8000_0000 <= x < 0x8000_0000
  type i64 = x: int | -0x8000_0000_0000_0000 <= x < 0x8000_0000_0000_0000

  /** 256 to the power n: the number of distinct values of n bytes. */
  function Pow256(n: nat): (r: nat)
    ensures r >= 1
  {
    if n == 0 then 1 else 256 * Pow256(n - 1)
  }

  lemma {:induction false} Pow256Add(n: nat, m: nat)
    ensures Pow256(n + m) == Pow256(n) * Pow256(m)
  {
    if m > 0 {
      Pow256Add(n, m - 1);
      assert Pow256(n + m) == 256 * Pow256(n + (m - 1));
    }
  }

  /** The ranges of 8, 16 and 32 bytes. */
  lemma Pow256Widths()
    ensures Pow256(8) == 0x1_0000_0000_0000_0000
    ensures Pow256(16) == 0x1_0000_0000_0000_0000_0000_0000_0000_0000
    ensures Pow256(32) == 0x1_0000_0000_0000_0000_0000_0000_0000_0000_0000_0000_0000_0000_0000_0000_0000_0000
  {
    Pow256Add(8, 8);
    Pow256Add(16, 16);
  }

  /** The ranges of 1, 2, 4 and 8 bytes and the halves of those ranges,
    * which bound the signed types. */
  lemma NarrowWidths()
    ensures Pow256(1) == 0x100 && Pow256(2) == 0x1_0000
    ensures Pow256(4) == 0x1_0000_0000 && Pow256(8) == 0x1_0000_0000_0000_0000
    ensures Half(1) == 0x80 && Half(2) == 0x8000
    ensures Half(4) == 0x8000_0000 && Half(8) == 0x8000_0000_0000_0000
  {
    Pow256Widths();
    Pow256Add(2, 2);
    Pow256Add(4, 4);
    assert Pow256(7) * 256 == Pow256(8) by { Pow256Add(7, 1); }
  }

  /** The n-byte little-endian layout of v. */
  function LE(v: nat, n: nat): (r: seq<byte>)
    requires v < Pow256(n)
    ensures |r| == n
  {
    if n == 0 then [] else [v % 256] + LE(v / 256, n - 1)
  }

  /** Zero is written as n zero bytes, in either order. */
  lemma {:induction false} LEOfZero(n: nat)
    ensures LE(0, n) == seq(n, _ => 0)
  {
    if n > 0 {
      LEOfZero(n - 1);
      assert [0] + seq(n - 1, _ => 0) == seq(n, _ => 0);
    }
  }

  lemma {:induction false} BEOfZero(n: nat)
    ensures BE(0, n) == seq(n, _ => 0)
  {
    if n > 0 {
      BEOfZero(n - 1);
      assert seq(n - 1, _ => 0) + [0] == seq(n, _ => 0);
    }
  }

  /** The value of a little-endian byte string. */
  function FromLE(s: seq<byte>): (v: nat)
    ensures v < Pow256(|s|)
  {
    if s == [] then 0 else s[0] + 256 * FromLE(s[1..])
  }

  /** The n-byte big-endian layout of v. */
  function BE(v: nat, n: nat): (r: seq<byte>)
    requires v < Pow256(n)
    ensures |r| == n
  {
    if n == 0 then [] else BE(v / 256, n - 1) + [v % 256]
  }

  /** The value of a big-endian byte string. */
  function FromBE(s: seq<byte>): (v: nat)
    ensures v < Pow256(|s|)
  {
    if s == [] then 0 else 256 * FromBE(s[..|s| - 1]) + s[|s| - 1]
  }

  function Reverse<T>(s: seq<T>): (r: seq<T>)
    ensures |r| == |s|
    ensures forall i :: 0 <= i < |s| ==> r[i] == s[|s| - 1 - i]
  {
    if s == [] then [] else Reverse(s[1..]) + [s[0]]
  }

  lemma ReverseReverse<T>(s: seq<T>)
    ensures Reverse(Reverse(s)) == s
  {
  }

  lemma {:induction false} FromLEOfLE(v: nat, n: nat)
    requires v < Pow256(n)
    ensures FromLE(LE(v, n)) == v
  {
    if n > 0 {
      FromLEOfLE(v / 256, n - 1);
      assert LE(v, n)[1..] == LE(v / 256, n - 1);
    }
  }

  lemma {:induction false} LEOfFromLE(s: seq<byte>)
    ensures LE(FromLE(s), |s|) == s
  {
    if s != [] {
      var rest := FromLE(s[1..]);
      DivMod256(rest, s[0]);
      assert FromLE(s) == 256 * rest + s[0];
      LEOfFromLE(s[1..]);
      assert s == [s[0]] + s[1..];
    }
  }

  lemma {:induction false} FromBEOfBE(v: nat, n: nat)
    requires v < Pow256(n)
    ensures FromBE(BE(v, n)) == v
  {
    if n > 0 {
      FromBEOfBE(v / 256, n - 1);
      assert BE(v, n)[..n - 1] == BE(v / 256, n - 1);
    }
  }

  lemma {:induction false} BEOfFromBE(s: seq<byte>)
    ensures BE(FromBE(s), |s|) == s
  {
    if s != [] {
      var init, last := s[..|s| - 1], s[|s| - 1];
      var high := FromBE(init);
      DivMod256(high, last);
      assert FromBE(s) == 256 * high + last;
      BEOfFromBE(init);
      assert s == init + [last];
    }
  }

  /** Dividing 256 * a + b by 256, for a byte b. */
  lemma DivMod256(a: nat, b: byte)
    ensures (256 * a + b) / 256 == a && (256 * a + b) % 256 == b
  {
  }

  /** Equal byte strings of the same width denote equal values, and back. */
  lemma LEInjective(v: nat, w: nat, n: nat)
    requires v < Pow256(n) && w < Pow256(n)
    ensures LE(v, n) == LE(w, n) <==> v == w
  {
    if LE(v, n) == LE(w, n) {
      FromLEOfLE(v, n);
      FromLEOfLE(w, n);
    }
  }

  lemma BEInjective(v: nat, w: nat, n: nat)
    requires v < Pow256(n) && w < Pow256(n)
    ensures BE(v, n) == BE(w, n) <==> v == w
  {
    if BE(v, n) == BE(w, n) {
      FromBEOfBE(v, n);
      FromBEOfBE(w, n);
    }
  }

  /** The big-endian layout is the little-endian one read backwards. */
  lemma {:induction false} BEIsReversedLE(v: nat, n: nat)
    requires v < Pow256(n)
    ensures BE(v, n) == Reverse(LE(v, n))
  {
    if n > 0 {
      BEIsReversedLE(v / 256, n - 1);
      assert LE(v, n)[1..] == LE(v / 256, n - 1);
    }
  }

  /** The big-endian layout of a value split into a high part of n bytes
    * and a low part of m bytes is the two layouts one after the other. */
  lemma {:induction false} BEConcat(hi: nat, lo: nat, n: nat, m: nat)
    requires hi < Pow256(n) && lo < Pow256(m)
    ensures hi * Pow256(m) + lo < Pow256(n + m)
    ensures BE(hi * Pow256(m) + lo, n + m) == BE(hi, n) + BE(lo, m)
  {
    if m == 0 {
      assert hi * Pow256(m) + lo == hi;
    } else {
      var x := hi * Pow256(m - 1);
      assert hi * Pow256(m) == 256 * x;
      var v := hi * Pow256(m) + lo;
      assert v / 256 == x + lo / 256 && v % 256 == lo % 256;
      BEConcat(hi, lo / 256, n, m - 1);
      assert n + m - 1 == n + (m - 1);
    }
  }

  /** The little-endian layout of the same split: low part first. */
  lemma {:induction false} LEConcat(hi: nat, lo: nat, n: nat, m: nat)
    requires hi < Pow256(n) && lo < Pow256(m)
    ensures hi * Pow256(m) + lo < Pow256(m + n)
    ensures LE(hi * Pow256(m) + lo, m + n) == LE(lo, m) + LE(hi, n)
  {
    if m == 0 {
      assert hi * Pow256(m) + lo == hi;
    } else {
      var x := hi * Pow256(m - 1);
      assert hi * Pow256(m) == 256 * x;
      var v := hi * Pow256(m) + lo;
      assert v / 256 == x + lo / 256 && v % 256 == lo % 256;
      LEConcat(hi, lo / 256, n, m - 1);
      assert m + n - 1 == (m - 1) + n;
    }
  }

  /** v shifted right by 8 * k bits. */
  function ShiftRightBytes(v: nat, k: nat): (r: nat)
    ensures r <= v
  {
    if k == 0 then v else ShiftRightBytes(v / 256, k - 1)
  }

  /** Byte k of the big-endian layout is the value shifted right by
    * 8 * (n - 1 - k) bits and masked to eight bits. */
  lemma {:induction false} BEByte(v: nat, n: nat, k: nat)
    requires v < Pow256(n) && k < n
    ensures BE(v, n)[k] == ShiftRightBytes(v, n - 1 - k) % 256
  {
    if k < n - 1 {
      BEByte(v / 256, n - 1, k);
      assert BE(v, n)[k] == BE(v / 256, n - 1)[k];
    }
  }

  /** The eight bytes of v obtained by shifting right by 56, 48, ..., 0
    * bits and keeping the low byte of each. */
  function ShiftedBytes(v: u64): (r: seq<byte>)
    ensures |r| == 8
  {
    seq(8, i requires 0 <= i < 8 => ShiftRightBytes(v, 7 - i) % 256)
  }

  /** Shifting out the bytes gives the big-endian layout. */
  lemma ShiftedBytesAreBE(v: u64)
    ensures ShiftedBytes(v) == BE(v, 8)
  {
    forall k | 0 <= k < 8
      ensures ShiftedBytes(v)[k] == BE(v, 8)[k]
    {
      BEByte(v, 8, k);
    }
  }

  /** Half the range of n bytes: the first pattern whose sign bit is set. */
  function Half(n: nat): (h: int)
    requires 1 <= n
    ensures h >= 128 && 2 * h == Pow256(n)
  {
    128 * Pow256(n - 1)
  }

  /** Two's complement: the signed value of the n-byte pattern u. */
  function Signed(u: nat, n: nat): (x: int)
    requires 1 <= n && u < Pow256(n)
    ensures -Half(n) <= x < Half(n)
    ensures x == u || x == u - Pow256(n)
  {
    if u < Half(n) then u else u - Pow256(n)
  }

  /** Two's complement: the n-byte pattern that stores x. */
  function Bits(x: int, n: nat): (u: nat)
    requires 1 <= n && -Half(n) <= x < Half(n)
    ensures u < Pow256(n)
    ensures u == x || u == x + Pow256(n)
  {
    if x >= 0 then x else x + Pow256(n)
  }

  lemma SignedBits(x: int, n: nat)
    requires 1 <= n && -Half(n) <= x < Half(n)
    ensures Signed(Bits(x, n), n) == x
  {
  }

  lemma BitsSigned(u: nat, n: nat)
    requires 1 <= n && u < Pow256(n)
    ensures Bits(Signed(u, n), n) == u
  {
  }
}
