/** The BSATN wire format of the client as pure functions.
  *
  * A decoder maps a buffer and a read position to the value stored there
  * and the position just after it, or to None where FBinaryReader would run
  * past the end of its data (the reader's `checkf` aborts there). An encoder
  * maps a value to the bytes FBinaryWriter emits for it. Integers are stored
  * least significant byte first; strings and arrays carry an int32 count;
  * optionals carry a flag byte. */
module Codec {
  import opened Wrappers
  import opened Bytes

  /** A decoded value and the read position just after it. */
  datatype Read<+T> = Read(value: T, next: nat)

  type Decoder<T> = (seq<byte>, nat) -> Option<Read<T>>

  /** The buffer d holds the bytes e starting at position p. */
  predicate At(d: seq<byte>, p: nat, e: seq<byte>) {
    p + |e| <= |d| && d[p..p + |e|] == e
  }

  lemma AtConcat(d: seq<byte>, p: nat, a: seq<byte>, b: seq<byte>)
    ensures At(d, p, a + b) <==> At(d, p, a) && At(d, p + |a|, b)
  {
    if p + |a| + |b| <= |d| {
      assert d[p..p + |a + b|] == d[p..p + |a|] + d[p + |a|..p + |a| + |b|];
      if At(d, p, a + b) {
        assert d[p..p + |a|] == (a + b)[..|a|];
        assert d[p + |a|..p + |a| + |b|] == (a + b)[|a|..];
      }
    }
  }

  /** AtConcat with the position after a named instead of computed. */
  lemma AtNext(d: seq<byte>, p: nat, a: seq<byte>, q: nat, b: seq<byte>)
    requires q == p + |a|
    requires At(d, p, a + b)
    ensures At(d, p, a) && At(d, q, b)
  {
    AtConcat(d, p, a, b);
  }

  /** A decoder never moves the position backwards nor past the end. */
  ghost predicate Sound<T>(dec: Decoder<T>) {
    forall d: seq<byte>, p: nat :: dec(d, p).Some? ==> p <= dec(d, p).value.next <= |d|
  }

  /** Wherever the encoding of x is stored, dec reads x back and stops
    * right after it. */
  ghost predicate Decodes<T>(dec: Decoder<T>, enc: T -> seq<byte>, x: T) {
    forall d: seq<byte>, p: nat :: At(d, p, enc(x)) ==> dec(d, p) == Some(Read(x, p + |enc(x)|))
  }

  // ---------------------------------------------------------------------
  // Raw bytes, bytes and booleans

  /** ReadBytes: the next count bytes. */
  function DecodeBytes(d: seq<byte>, p: nat, count: nat): (r: Option<Read<seq<byte>>>)
    ensures r.Some? <==> p + count <= |d|
    ensures r.Some? ==> r.value.next == p + count && |r.value.value| == count && At(d, p, r.value.value)
  {
    if p + count <= |d| then Some(Read(d[p..p + count], p + count)) else None
  }

  /** ReadByte: the byte at the position; it advances by one. */
  function DecodeByte(d: seq<byte>, p: nat): (r: Option<Read<byte>>)
    ensures r.Some? <==> p < |d|
    ensures r.Some? ==> r.value.next == p + 1 && At(d, p, [r.value.value])
  {
    if p < |d| then Some(Read(d[p], p + 1)) else None
  }

  /** ReadBool: true exactly when the byte read is not zero. */
  function DecodeBool(d: seq<byte>, p: nat): (r: Option<Read<bool>>)
    ensures r.Some? <==> p < |d|
    ensures r.Some? ==> r.value.next == p + 1 && (r.value.value <==> d[p] != 0)
  {
    var b :- DecodeByte(d, p);
    Some(Read(b.value != 0, b.next))
  }

  /** ReadSByte: the byte reinterpreted as a signed 8-bit number. */
  function DecodeSByte(d: seq<byte>, p: nat): (r: Option<Read<i8>>)
    ensures r.Some? <==> p < |d|
    ensures r.Some? ==> r.value.next == p + 1 && Bits(r.value.value, 1) == d[p]
  {
    NarrowWidths();
    var b :- DecodeByte(d, p);
    BitsSigned(b.value, 1);
    Some(Read(Signed(b.value, 1), b.next))
  }

  function EncodeByte(b: byte): (e: seq<byte>)
    ensures |e| == 1
  {
    [b]
  }

  /** WriteBool: 1 for true, 0 for false. */
  function EncodeBool(b: bool): (e: seq<byte>)
    ensures |e| == 1 && (e[0] == 1 <==> b) && (e[0] == 0 <==> !b)
  {
    [if b then 1 else 0]
  }

  /** WriteSByte: the byte with the same bits. */
  function EncodeSByte(x: i8): (e: seq<byte>)
    ensures |e| == 1 && Signed(e[0], 1) == x
  {
    NarrowWidths();
    SignedBits(x, 1);
    [Bits(x, 1)]
  }

  lemma ByteRoundTrip(b: byte, d: seq<byte>, p: nat)
    requires At(d, p, EncodeByte(b))
    ensures DecodeByte(d, p) == Some(Read(b, p + 1))
  {
    assert d[p] == d[p..p + 1][0];
  }

  lemma BoolRoundTrip(b: bool, d: seq<byte>, p: nat)
    requires At(d, p, EncodeBool(b))
    ensures DecodeBool(d, p) == Some(Read(b, p + 1))
  {
    assert d[p] == d[p..p + 1][0];
  }

  lemma SByteRoundTrip(x: i8, d: seq<byte>, p: nat)
    requires At(d, p, EncodeSByte(x))
    ensures DecodeSByte(d, p) == Some(Read(x, p + 1))
  {
    NarrowWidths();
    assert d[p] == d[p..p + 1][0];
    SignedBits(x, 1);
  }

  // ---------------------------------------------------------------------
  // Multi-byte integers

  /** The n-byte little-endian two's complement number at the position. */
  function DecodeSigned(d: seq<byte>, p: nat, n: nat): (r: Option<Read<int>>)
    requires 1 <= n
    ensures r.Some? <==> p + n <= |d|
    ensures r.Some? ==> r.value.next == p + n && -Half(n) <= r.value.value < Half(n)
  {
    var s :- DecodeBytes(d, p, n);
    Some(Read(Signed(FromLE(s.value), n), s.next))
  }

  /** The number read has the bytes read as its layout. */
  lemma SignedReadIsLE(d: seq<byte>, p: nat, n: nat)
    requires 1 <= n && p + n <= |d|
    ensures LE(Bits(DecodeSigned(d, p, n).value.value, n), n) == d[p..p + n]
  {
    LEOfFromLE(d[p..p + n]);
    BitsSigned(FromLE(d[p..p + n]), n);
  }

  /** The n-byte little-endian two's complement layout of x. */
  function EncodeSigned(x: int, n: nat): (e: seq<byte>)
    requires 1 <= n && -Half(n) <= x < Half(n)
    ensures |e| == n
  {
    LE(Bits(x, n), n)
  }

  lemma {:induction false} SignedRoundTrip(x: int, n: nat, d: seq<byte>, p: nat)
    requires 1 <= n && -Half(n) <= x < Half(n)
    requires At(d, p, EncodeSigned(x, n))
    ensures DecodeSigned(d, p, n) == Some(Read(x, p + n))
  {
    FromLEOfLE(Bits(x, n), n);
    SignedBits(x, n);
  }

  /** ReadInt16, ReadInt32, ReadInt64: the little-endian value of the next
    * 2, 4 or 8 bytes. */
  function DecodeInt16(d: seq<byte>, p: nat): (r: Option<Read<i16>>)
    ensures r.Some? <==> p + 2 <= |d|
    ensures r.Some? ==> r.value.next == p + 2
  {
    NarrowWidths();
    var x :- DecodeSigned(d, p, 2);
    Some(Read(x.value, x.next))
  }

  function DecodeInt32(d: seq<byte>, p: nat): (r: Option<Read<i32>>)
    ensures r.Some? <==> p + 4 <= |d|
    ensures r.Some? ==> r.value.next == p + 4
  {
    NarrowWidths();
    var x :- DecodeSigned(d, p, 4);
    Some(Read(x.value, x.next))
  }

  function DecodeInt64(d: seq<byte>, p: nat): (r: Option<Read<i64>>)
    ensures r.Some? <==> p + 8 <= |d|
    ensures r.Some? ==> r.value.next == p + 8
  {
    NarrowWidths();
    var x :- DecodeSigned(d, p, 8);
    Some(Read(x.value, x.next))
  }

  /** ReadUInt16, ReadUInt32, ReadUInt64: the signed read's bits taken as
    * an unsigned number. */
  function DecodeUInt16(d: seq<byte>, p: nat): (r: Option<Read<u16>>)
    ensures r.Some? <==> p + 2 <= |d|
    ensures r.Some? ==> r.value.next == p + 2
  {
    NarrowWidths();
    var x :- DecodeInt16(d, p);
    Some(Read(Bits(x.value, 2), x.next))
  }

  function DecodeUInt32(d: seq<byte>, p: nat): (r: Option<Read<u32>>)
    ensures r.Some? <==> p + 4 <= |d|
    ensures r.Some? ==> r.value.next == p + 4
  {
    NarrowWidths();
    var x :- DecodeInt32(d, p);
    Some(Read(Bits(x.value, 4), x.next))
  }

  function DecodeUInt64(d: seq<byte>, p: nat): (r: Option<Read<u64>>)
    ensures r.Some? <==> p + 8 <= |d|
    ensures r.Some? ==> r.value.next == p + 8
  {
    NarrowWidths();
    var x :- DecodeInt64(d, p);
    Some(Read(Bits(x.value, 8), x.next))
  }

  /** The unsigned reads return the little-endian value of the bytes. */
  lemma UnsignedReadsAreLE(d: seq<byte>, p: nat)
    ensures p + 2 <= |d| ==> DecodeUInt16(d, p).value.value == FromLE(d[p..p + 2])
    ensures p + 4 <= |d| ==> DecodeUInt32(d, p).value.value == FromLE(d[p..p + 4])
    ensures p + 8 <= |d| ==> DecodeUInt64(d, p).value.value == FromLE(d[p..p + 8])
  {
    NarrowWidths();
    if p + 2 <= |d| {
      SignedReadIsLE(d, p, 2);
      FromLEOfLE(DecodeUInt16(d, p).value.value, 2);
    }
    if p + 4 <= |d| {
      SignedReadIsLE(d, p, 4);
      FromLEOfLE(DecodeUInt32(d, p).value.value, 4);
    }
    if p + 8 <= |d| {
      SignedReadIsLE(d, p, 8);
      FromLEOfLE(DecodeUInt64(d, p).value.value, 8);
    }
  }

  /** The bytes an int64 read consumed are the encoding of the number
    * read: no two layouts read as the same number. */
  lemma Int64ReadIsEncoding(d: seq<byte>, p: nat)
    requires p + 8 <= |d|
    ensures EncodeInt64(DecodeInt64(d, p).value.value) == d[p..p + 8]
  {
    NarrowWidths();
    SignedReadIsLE(d, p, 8);
  }

  /** WriteInt16, WriteInt32, WriteInt64: the little-endian two's
    * complement bytes. */
  function EncodeInt16(x: i16): (e: seq<byte>)
    ensures |e| == 2
  {
    NarrowWidths();
    EncodeSigned(x, 2)
  }

  function EncodeInt32(x: i32): (e: seq<byte>)
    ensures |e| == 4
  {
    NarrowWidths();
    EncodeSigned(x, 4)
  }

  function EncodeInt64(x: i64): (e: seq<byte>)
    ensures |e| == 8
  {
    NarrowWidths();
    EncodeSigned(x, 8)
  }

  /** WriteUInt16, WriteUInt32, WriteUInt64: the signed write of the value
    * cast to the signed type of the same width. */
  function EncodeUInt16(x: u16): (e: seq<byte>)
    ensures |e| == 2
  {
    NarrowWidths();
    EncodeInt16(Signed(x, 2))
  }

  function EncodeUInt32(x: u32): (e: seq<byte>)
    ensures |e| == 4
  {
    NarrowWidths();
    EncodeInt32(Signed(x, 4))
  }

  function EncodeUInt64(x: u64): (e: seq<byte>)
    ensures |e| == 8
  {
    NarrowWidths();
    EncodeInt64(Signed(x, 8))
  }

  /** The cast keeps the bits, so an unsigned value is written as its own
    * little-endian bytes. */
  lemma UnsignedWritesAreLE(a: u16, b: u32, c: u64)
    ensures EncodeUInt16(a) == LE(a, 2)
    ensures EncodeUInt32(b) == LE(b, 4)
    ensures EncodeUInt64(c) == LE(c, 8)
  {
    NarrowWidths();
    BitsSigned(a, 2);
    BitsSigned(b, 4);
    BitsSigned(c, 8);
  }

  lemma Int16RoundTrip(x: i16, d: seq<byte>, p: nat)
    requires At(d, p, EncodeInt16(x))
    ensures DecodeInt16(d, p) == Some(Read(x, p + 2))
  {
    NarrowWidths();
    SignedRoundTrip(x, 2, d, p);
  }

  lemma Int32RoundTrip(x: i32, d: seq<byte>, p: nat)
    requires At(d, p, EncodeInt32(x))
    ensures DecodeInt32(d, p) == Some(Read(x, p + 4))
  {
    NarrowWidths();
    SignedRoundTrip(x, 4, d, p);
  }

  lemma Int64RoundTrip(x: i64, d: seq<byte>, p: nat)
    requires At(d, p, EncodeInt64(x))
    ensures DecodeInt64(d, p) == Some(Read(x, p + 8))
  {
    NarrowWidths();
    SignedRoundTrip(x, 8, d, p);
  }

  lemma UInt16RoundTrip(x: u16, d: seq<byte>, p: nat)
    requires At(d, p, EncodeUInt16(x))
    ensures DecodeUInt16(d, p) == Some(Read(x, p + 2))
  {
    NarrowWidths();
    Int16RoundTrip(Signed(x, 2), d, p);
    BitsSigned(x, 2);
  }

  lemma UInt32RoundTrip(x: u32, d: seq<byte>, p: nat)
    requires At(d, p, EncodeUInt32(x))
    ensures DecodeUInt32(d, p) == Some(Read(x, p + 4))
  {
    NarrowWidths();
    Int32RoundTrip(Signed(x, 4), d, p);
    BitsSigned(x, 4);
  }

  lemma UInt64RoundTrip(x: u64, d: seq<byte>, p: nat)
    requires At(d, p, EncodeUInt64(x))
    ensures DecodeUInt64(d, p) == Some(Read(x, p + 8))
  {
    NarrowWidths();
    Int64RoundTrip(Signed(x, 8), d, p);
    BitsSigned(x, 8);
  }

  // ---------------------------------------------------------------------
  // Counts and strings

  /** The int32 count written before a string's bytes or an array's
    * elements: the low 32 bits of the length. */
  function EncodeCount(n: nat): (e: seq<byte>)
    ensures |e| == 4
  {
    NarrowWidths();
    LE(n % 0x1_0000_0000, 4)
  }

  /** A count below 2^31 is written exactly as WriteInt32 writes it. */
  lemma CountIsInt32(n: nat)
    requires n < 0x8000_0000
    ensures EncodeCount(n) == EncodeInt32(n)
  {
    NarrowWidths();
  }

  lemma CountRoundTrip(n: nat, d: seq<byte>, p: nat)
    requires n < 0x8000_0000
    requires At(d, p, EncodeCount(n))
    ensures DecodeInt32(d, p) == Some(Read(n, p + 4))
  {
    CountIsInt32(n);
    Int32RoundTrip(n, d, p);
  }

  predicate IsAscii(s: string) {
    forall i :: 0 <= i < |s| ==> (s[i] as int) < 0x80
  }

  predicate HasNoNul(s: string) {
    forall i :: 0 <= i < |s| ==> s[i] != '\0'
  }

  /** The characters a NUL-terminated TCHAR buffer holds for `s`: those
    * before its first '\0', as `*Value` hands them to FTCHARToUTF8. */
  function UpToNul(s: string): (t: string)
    ensures |t| <= |s|
    ensures HasNoNul(s) ==> t == s
  {
    if s == [] then []
    else if s[0] == '\0' then []
    else [s[0]] + UpToNul(s[1..])
  }

  /** The text before the first '\0' is a prefix without '\0', cut
    * exactly at the first '\0' when there is one. */
  lemma {:induction false} UpToNulIsPrefix(s: string)
    ensures UpToNul(s) == s[..|UpToNul(s)|]
    ensures HasNoNul(UpToNul(s))
    ensures |UpToNul(s)| < |s| ==> s[|UpToNul(s)|] == '\0'
  {
    if s != [] && s[0] != '\0' {
      UpToNulIsPrefix(s[1..]);
      assert UpToNul(s) == [s[0]] + UpToNul(s[1..]);
    }
  }

  /** The UTF-8 encoding of one character (section 3 of RFC 3629). */
  function Utf8Char(c: char): (e: seq<byte>)
    ensures 1 <= |e| <= 4
    ensures |e| == 1 <==> (c as int) < 0x80
  {
    var v := c as int;
    if v < 0x80 then [v]
    else if v < 0x800 then [0xC0 + v / 0x40, 0x80 + v % 0x40]
    else if v < 0x1_0000 then [0xE0 + v / 0x1000, 0x80 + (v / 0x40) % 0x40, 0x80 + v % 0x40]
    else [0xF0 + v / 0x4_0000, 0x80 + (v / 0x1000) % 0x40, 0x80 + (v / 0x40) % 0x40, 0x80 + v % 0x40]
  }

  /** The UTF-8 encoding of a string: its characters' encodings in order. */
  function Utf8(s: string): (e: seq<byte>)
    ensures |e| >= |s|
  {
    if s == [] then [] else Utf8Char(s[0]) + Utf8(s[1..])
  }

  /** On ASCII text UTF-8 is one byte per character, of the same value. */
  lemma {:induction false} Utf8OfAscii(s: string)
    requires IsAscii(s)
    ensures |Utf8(s)| == |s|
    ensures forall i :: 0 <= i < |s| ==> Utf8(s)[i] == s[i] as int
  {
    if s != [] {
      Utf8OfAscii(s[1..]);
    }
  }

  /** ReadString's conversion: each byte becomes the character with that
    * code, with no UTF-8 decoding, except that a zero byte adds nothing,
    * since FString::AppendChar ignores '\0'. */
  function Widen(bs: seq<byte>): (s: string)
    ensures |s| <= |bs|
  {
    if bs == [] then []
    else
      var last := bs[|bs| - 1];
      Widen(bs[..|bs| - 1]) + if last == 0 then [] else [last as char]
  }

  /** ReadString never yields a '\0', and bytes without a zero are
    * widened one character each. */
  lemma {:induction false} WidenDropsOnlyNul(bs: seq<byte>)
    ensures HasNoNul(Widen(bs))
    ensures (forall i :: 0 <= i < |bs| ==> bs[i] != 0) ==>
      |Widen(bs)| == |bs| && forall i :: 0 <= i < |bs| ==> Widen(bs)[i] as int == bs[i]
  {
    if bs != [] {
      WidenDropsOnlyNul(bs[..|bs| - 1]);
    }
  }

  /** ReadString: an int32 length; a negative one gives the empty string
    * after the four count bytes, otherwise that many bytes follow, each
    * widened to a character. */
  function DecodeString(d: seq<byte>, p: nat): (r: Option<Read<string>>)
  {
    var len :- DecodeInt32(d, p);
    if len.value < 0 then Some(Read("", len.next))
    else
      var bs :- DecodeBytes(d, len.next, len.value);
      Some(Read(Widen(bs.value), bs.next))
  }

  /** What FTCHARToUTF8(*Value) gives WriteString: the UTF-8 encoding of
    * the characters before the first '\0'. */
  function WrittenBytes(s: string): seq<byte> {
    Utf8(UpToNul(s))
  }

  /** WriteString: the int32 count of the converted bytes, then those
    * bytes. */
  function EncodeString(s: string): (e: seq<byte>)
    ensures |e| == 4 + |WrittenBytes(s)|
  {
    var u := WrittenBytes(s);
    EncodeCount(|u|) + u
  }

  /** What ReadString does with a length prefix n. */
  lemma StringReadShape(d: seq<byte>, p: nat)
    requires DecodeInt32(d, p).Some?
    ensures var n := DecodeInt32(d, p).value.value;
      && (n < 0 ==> DecodeString(d, p) == Some(Read("", p + 4)))
      && (n >= 0 ==> (DecodeString(d, p).Some? <==> p + 4 + n <= |d|))
      && (n >= 0 && p + 4 + n <= |d| ==>
            DecodeString(d, p) == Some(Read(Widen(d[p + 4..p + 4 + n]), p + 4 + n)))
  {
  }

  /** ReadString's widening undoes UTF-8 on ASCII text without '\0'. */
  lemma WidenUndoesUtf8(t: string)
    requires IsAscii(t) && HasNoNul(t)
    ensures Widen(Utf8(t)) == t
  {
    var u := Utf8(t);
    Utf8OfAscii(t);
    forall i | 0 <= i < |u|
      ensures u[i] != 0
    {
      assert u[i] == t[i] as int && t[i] != '\0';
    }
    WidenDropsOnlyNul(u);
  }

  lemma UpToNulIsAscii(s: string)
    requires IsAscii(s)
    ensures IsAscii(UpToNul(s))
  {
    UpToNulIsPrefix(s);
    var t := UpToNul(s);
    forall i | 0 <= i < |t|
      ensures (t[i] as int) < 0x80
    {
      assert t[i] == s[i];
    }
  }

  /** WriteString's bytes for an ASCII string: no more than its length,
    * and widened back they give the text before the first '\0'. */
  lemma WrittenAscii(s: string)
    requires IsAscii(s)
    ensures |WrittenBytes(s)| <= |s|
    ensures Widen(WrittenBytes(s)) == UpToNul(s)
  {
    var t := UpToNul(s);
    UpToNulIsAscii(s);
    UpToNulIsPrefix(s);
    WidenUndoesUtf8(t);
    Utf8OfAscii(t);
  }

  /** ReadString after a count n >= 0 followed by the n bytes `bs`. */
  lemma DecodeStringOfBytes(d: seq<byte>, p: nat, bs: seq<byte>)
    requires DecodeInt32(d, p).Some? && DecodeInt32(d, p).value.value as int == |bs|
    requires At(d, p + 4, bs)
    ensures DecodeString(d, p) == Some(Read(Widen(bs), p + 4 + |bs|))
  {
    StringReadShape(d, p);
    assert d[p + 4..p + 4 + |bs|] == bs;
  }

  /** An ASCII string written by WriteString is read back by ReadString
    * up to its first '\0': the writer stops there and the reader ends
    * right after what was written. */
  lemma StringRoundTripUpToNul(s: string, d: seq<byte>, p: nat)
    requires IsAscii(s) && |s| < 0x8000_0000
    requires At(d, p, EncodeString(s))
    ensures DecodeString(d, p) == Some(Read(UpToNul(s), p + |EncodeString(s)|))
  {
    var u := WrittenBytes(s);
    WrittenAscii(s);
    AtConcat(d, p, EncodeCount(|u|), u);
    CountRoundTrip(|u|, d, p);
    DecodeStringOfBytes(d, p, u);
  }

  /** An ASCII string without '\0' survives WriteString and ReadString. */
  lemma StringRoundTrip(s: string, d: seq<byte>, p: nat)
    requires WireString(s)
    requires At(d, p, EncodeString(s))
    ensures DecodeString(d, p) == Some(Read(s, p + |EncodeString(s)|))
  {
    StringRoundTripUpToNul(s, d, p);
  }

  /** A '\0' inside a string cuts it short on writing: WriteString
    * writes only the "a" of "a\0b". */
  lemma WriteStringStopsAtNul()
    ensures EncodeString("a\0b") == [1, 0, 0, 0, 0x61]
  {
    NarrowWidths();
    assert UpToNul("a\0b") == "a";
    assert Utf8("a") == [0x61];
    assert EncodeCount(1) == [1, 0, 0, 0];
  }

  /** A zero byte is skipped on reading: ReadString reads the three
    * payload bytes 61 00 62 as "ab". */
  lemma ReadStringSkipsNul()
    ensures DecodeString([3, 0, 0, 0, 0x61, 0, 0x62], 0) == Some(Read("ab", 7))
  {
    NarrowWidths();
    var d: seq<byte> := [3, 0, 0, 0, 0x61, 0, 0x62];
    assert d[0..4] == EncodeInt32(3);
    Int32RoundTrip(3, d, 0);
    var bs: seq<byte> := [0x61, 0, 0x62];
    assert d[4..7] == bs;
    assert Widen([0x61]) == "a" by {
      assert [0x61 as byte][..0] == [];
    }
    assert bs[..2] == [0x61, 0] && [0x61 as byte, 0][..1] == [0x61];
    assert Widen(bs) == "ab";
    DecodeStringOfBytes(d, 0, bs);
  }

  /** Beyond ASCII the round trip fails: "é" is written as the two bytes
    * C3 A9 and read back as the two characters U+00C3 U+00A9. */
  lemma StringRoundTripFailsBeyondAscii()
    ensures EncodeString("\U{E9}") == [2, 0, 0, 0, 0xC3, 0xA9]
    ensures DecodeString([2, 0, 0, 0, 0xC3, 0xA9], 0) == Some(Read("\U{C3}\U{A9}", 6))
  {
    NarrowWidths();
    var d: seq<byte> := [2, 0, 0, 0, 0xC3, 0xA9];
    assert UpToNul("\U{E9}") == "\U{E9}";
    assert Utf8("\U{E9}") == [0xC3, 0xA9];
    assert EncodeCount(2) == [2, 0, 0, 0];
    assert d[0..4] == EncodeInt32(2);
    Int32RoundTrip(2, d, 0);
    assert d[4..6] == [0xC3, 0xA9];
    assert Widen([0xC3, 0xA9]) == "\U{C3}\U{A9}";
  }

  lemma StringDecodes(s: string)
    requires WireString(s)
    ensures Decodes(DecodeString, EncodeString, s)
  {
    forall d: seq<byte>, p: nat | At(d, p, EncodeString(s))
      ensures DecodeString(d, p) == Some(Read(s, p + |EncodeString(s)|))
    {
      StringRoundTrip(s, d, p);
    }
  }

  // ---------------------------------------------------------------------
  // Optionals

  /** ReadOptional*: a flag byte; the value follows only when the flag is
    * not zero. */
  function DecodeOptional<T>(dec: Decoder<T>, d: seq<byte>, p: nat): (r: Option<Read<Option<T>>>)
  {
    var flag :- DecodeBool(d, p);
    if flag.value then
      var x :- dec(d, flag.next);
      Some(Read(Some(x.value), x.next))
    else Some(Read(None, flag.next))
  }

  /** WriteOptional*: the flag, then the value if there is one. */
  function EncodeOptional<T>(enc: T -> seq<byte>, o: Option<T>): (e: seq<byte>)
    ensures |e| >= 1 && e[0] == (if o.Some? then 1 else 0)
  {
    EncodeBool(o.Some?) + (if o.Some? then enc(o.value) else [])
  }

  /** A zero flag gives no value after exactly one byte; a non-zero flag
    * gives what the value's reader gives one byte further on. */
  lemma OptionalReadShape<T>(dec: Decoder<T>, d: seq<byte>, p: nat)
    requires p < |d|
    ensures d[p] == 0 ==> DecodeOptional(dec, d, p) == Some(Read(None, p + 1))
    ensures d[p] != 0 ==>
      DecodeOptional(dec, d, p) ==
        (if dec(d, p + 1).Some? then Some(Read(Some(dec(d, p + 1).value.value), dec(d, p + 1).value.next)) else None)
  {
  }

  lemma OptionalRoundTrip<T>(dec: Decoder<T>, enc: T -> seq<byte>, o: Option<T>, d: seq<byte>, p: nat)
    requires o.Some? ==> Decodes(dec, enc, o.value)
    requires At(d, p, EncodeOptional(enc, o))
    ensures DecodeOptional(dec, d, p) == Some(Read(o, p + |EncodeOptional(enc, o)|))
  {
    var tail := if o.Some? then enc(o.value) else [];
    AtConcat(d, p, EncodeBool(o.Some?), tail);
    BoolRoundTrip(o.Some?, d, p);
  }

  lemma OptionalDecodes<T>(dec: Decoder<T>, enc: T -> seq<byte>, o: Option<T>)
    requires o.Some? ==> Decodes(dec, enc, o.value)
    ensures Decodes((d, p) => DecodeOptional(dec, d, p), o' => EncodeOptional(enc, o'), o)
  {
    forall d: seq<byte>, p: nat | At(d, p, EncodeOptional(enc, o))
      ensures DecodeOptional(dec, d, p) == Some(Read(o, p + |EncodeOptional(enc, o)|))
    {
      OptionalRoundTrip(dec, enc, o, d, p);
    }
  }

  // ---------------------------------------------------------------------
  // Arrays

  /** n elements read one after the other, each starting where the
    * previous one stopped. */
  function DecodeElems<T>(dec: Decoder<T>, d: seq<byte>, p: nat, n: nat): (r: Option<Read<seq<T>>>)
    decreases n
  {
    if n == 0 then Some(Read([], p))
    else
      var x :- dec(d, p);
      var rest :- DecodeElems(dec, d, x.next, n - 1);
      Some(Read([x.value] + rest.value, rest.next))
  }

  /** ReadArray: an int32 length; a negative one gives the empty array
    * after the four count bytes, otherwise that many elements follow. */
  function DecodeArray<T>(dec: Decoder<T>, d: seq<byte>, p: nat): (r: Option<Read<seq<T>>>)
  {
    var len :- DecodeInt32(d, p);
    if len.value < 0 then Some(Read([], len.next))
    else DecodeElems(dec, d, len.next, len.value)
  }

  /** The elements' encodings one after the other. */
  function EncodeElems<T>(enc: T -> seq<byte>, xs: seq<T>): (e: seq<byte>)
  {
    if xs == [] then [] else enc(xs[0]) + EncodeElems(enc, xs[1..])
  }

  /** WriteArray: the int32 element count, then each element in order. */
  function EncodeArray<T>(enc: T -> seq<byte>, xs: seq<T>): (e: seq<byte>)
    ensures |e| >= 4 && e[..4] == EncodeCount(|xs|)
  {
    EncodeCount(|xs|) + EncodeElems(enc, xs)
  }

  /** An empty array is written as four zero bytes. */
  lemma EmptyArrayIsFourZeros<T>(enc: T -> seq<byte>)
    ensures EncodeArray(enc, []) == [0, 0, 0, 0]
  {
    NarrowWidths();
  }

  lemma {:induction false} ElemsLength<T>(dec: Decoder<T>, d: seq<byte>, p: nat, n: nat)
    requires DecodeElems(dec, d, p, n).Some?
    ensures |DecodeElems(dec, d, p, n).value.value| == n
    decreases n
  {
    if n > 0 {
      ElemsLength(dec, d, dec(d, p).value.next, n - 1);
    }
  }

  /** A sound element reader moves the position forwards only, and never
    * past the end. */
  lemma {:induction false} ElemsAdvance<T>(dec: Decoder<T>, d: seq<byte>, p: nat, n: nat)
    requires Sound(dec) && p <= |d|
    requires DecodeElems(dec, d, p, n).Some?
    ensures p <= DecodeElems(dec, d, p, n).value.next <= |d|
    decreases n
  {
    if n > 0 {
      ElemsAdvance(dec, d, dec(d, p).value.next, n - 1);
    }
  }

  /** Reading n + m elements is reading n, then m more from where the first
    * n stopped: the total advance is the sum of the elements' advances. */
  lemma {:induction false} ElemsSplit<T>(dec: Decoder<T>, d: seq<byte>, p: nat, n: nat, m: nat)
    requires DecodeElems(dec, d, p, n).Some?
    ensures DecodeElems(dec, d, p, n + m) ==
      (var first := DecodeElems(dec, d, p, n).value;
       var rest := DecodeElems(dec, d, first.next, m);
       if rest.Some? then Some(Read(first.value + rest.value.value, rest.value.next)) else None)
    decreases n
  {
    var first := DecodeElems(dec, d, p, n).value;
    var rest := DecodeElems(dec, d, first.next, m);
    if n == 0 {
      if rest.Some? {
        assert first.value + rest.value.value == rest.value.value;
      }
    } else {
      var x := dec(d, p).value;
      var tail := DecodeElems(dec, d, x.next, n - 1).value;
      assert first == Read([x.value] + tail.value, tail.next);
      ElemsSplit(dec, d, x.next, n - 1, m);
      assert n + m - 1 == (n - 1) + m;
      if rest.Some? {
        assert [x.value] + (tail.value + rest.value.value) == ([x.value] + tail.value) + rest.value.value;
      }
    }
  }

  /** One more element: read the first n, then one element. */
  lemma ElemsSnoc<T>(dec: Decoder<T>, d: seq<byte>, p: nat, n: nat)
    requires DecodeElems(dec, d, p, n).Some?
    ensures DecodeElems(dec, d, p, n + 1) ==
      (var first := DecodeElems(dec, d, p, n).value;
       var x := dec(d, first.next);
       if x.Some? then Some(Read(first.value + [x.value.value], x.value.next)) else None)
  {
    ElemsSplit(dec, d, p, n, 1);
    var first := DecodeElems(dec, d, p, n).value;
    var x := dec(d, first.next);
    if x.Some? {
      assert DecodeElems(dec, d, x.value.next, 0) == Some(Read([], x.value.next));
      assert [x.value.value] + [] == [x.value.value];
      assert DecodeElems(dec, d, first.next, 1) == Some(Read([x.value.value], x.value.next));
    }
  }

  /** A negative length prefix gives the empty array after exactly the four
    * prefix bytes; a non-negative one gives exactly that many elements. */
  lemma ArrayReadShape<T>(dec: Decoder<T>, d: seq<byte>, p: nat)
    requires DecodeInt32(d, p).Some?
    ensures var n := DecodeInt32(d, p).value.value;
      && (n < 0 ==> DecodeArray(dec, d, p) == Some(Read([], p + 4)))
      && (n >= 0 ==> DecodeArray(dec, d, p) == DecodeElems(dec, d, p + 4, n))
      && (n >= 0 && DecodeArray(dec, d, p).Some? ==> |DecodeArray(dec, d, p).value.value| == n)
  {
    var n := DecodeInt32(d, p).value.value;
    if n >= 0 && DecodeArray(dec, d, p).Some? {
      ElemsLength(dec, d, p + 4, n);
    }
  }

  lemma {:induction false} ElemsRoundTrip<T>(dec: Decoder<T>, enc: T -> seq<byte>, xs: seq<T>, d: seq<byte>, p: nat)
    requires forall i :: 0 <= i < |xs| ==> Decodes(dec, enc, xs[i])
    requires At(d, p, EncodeElems(enc, xs))
    ensures DecodeElems(dec, d, p, |xs|) == Some(Read(xs, p + |EncodeElems(enc, xs)|))
  {
    if xs != [] {
      var e, rest := enc(xs[0]), EncodeElems(enc, xs[1..]);
      var q := p + |e|;
      AtNext(d, p, e, q, rest);
      assert Decodes(dec, enc, xs[0]);
      assert dec(d, p) == Some(Read(xs[0], q));
      assert forall i :: 0 <= i < |xs[1..]| ==> xs[1..][i] == xs[i + 1];
      ElemsRoundTrip(dec, enc, xs[1..], d, q);
      assert p + |EncodeElems(enc, xs)| == q + |rest|;
      assert [xs[0]] + xs[1..] == xs;
    }
  }

  /** An array whose elements each survive the round trip survives it as a
    * whole. */
  lemma ArrayRoundTrip<T>(dec: Decoder<T>, enc: T -> seq<byte>, xs: seq<T>, d: seq<byte>, p: nat)
    requires |xs| < 0x8000_0000
    requires forall i :: 0 <= i < |xs| ==> Decodes(dec, enc, xs[i])
    requires At(d, p, EncodeArray(enc, xs))
    ensures DecodeArray(dec, d, p) == Some(Read(xs, p + |EncodeArray(enc, xs)|))
  {
    AtConcat(d, p, EncodeCount(|xs|), EncodeElems(enc, xs));
    CountRoundTrip(|xs|, d, p);
    ElemsRoundTrip(dec, enc, xs, d, p + 4);
  }

  /** EncodeElems distributes over concatenation. */
  lemma {:induction false} EncodeElemsAppend<T>(enc: T -> seq<byte>, a: seq<T>, b: seq<T>)
    ensures EncodeElems(enc, a + b) == EncodeElems(enc, a) + EncodeElems(enc, b)
  {
    if a == [] {
      assert a + b == b;
    } else {
      assert (a + b)[0] == a[0] && (a + b)[1..] == a[1..] + b;
      EncodeElemsAppend(enc, a[1..], b);
    }
  }

  /** Where element i starts when the elements of xs are written from p. */
  function ElemStart<T>(enc: T -> seq<byte>, xs: seq<T>, p: nat, i: nat): (s: nat)
    requires i <= |xs|
    ensures s >= p
  {
    p + |EncodeElems(enc, xs[..i])|
  }

  /** Element i occupies the bytes from its start up to the start of
    * element i + 1. */
  lemma ElemAt<T>(enc: T -> seq<byte>, xs: seq<T>, d: seq<byte>, p: nat, i: nat)
    requires 0 <= i < |xs|
    requires At(d, p, EncodeElems(enc, xs))
    ensures ElemStart(enc, xs, p, i + 1) == ElemStart(enc, xs, p, i) + |enc(xs[i])|
    ensures At(d, ElemStart(enc, xs, p, i), enc(xs[i]))
    ensures ElemStart(enc, xs, p, |xs|) == p + |EncodeElems(enc, xs)|
  {
    assert xs[..i + 1] == xs[..i] + [xs[i]];
    assert xs == xs[..i + 1] + xs[i + 1..];
    assert EncodeElems(enc, [xs[i]]) == enc(xs[i]);
    EncodeElemsAppend(enc, xs[..i], [xs[i]]);
    EncodeElemsAppend(enc, xs[..i + 1], xs[i + 1..]);
    assert xs[..|xs|] == xs;
    var a, b := EncodeElems(enc, xs[..i]), enc(xs[i]);
    AtConcat(d, p, a + b, EncodeElems(enc, xs[i + 1..]));
    AtConcat(d, p, a, b);
  }

  /** The first k elements come back when each element, read at its start,
    * comes back and stops where the next one starts. */
  lemma {:induction false} ElemsFromStarts<T>(dec: Decoder<T>, enc: T -> seq<byte>, xs: seq<T>, d: seq<byte>, p: nat, k: nat)
    requires k <= |xs|
    requires forall i :: 0 <= i < |xs| ==>
      dec(d, ElemStart(enc, xs, p, i)) == Some(Read(xs[i], ElemStart(enc, xs, p, i + 1)))
    ensures DecodeElems(dec, d, p, k) == Some(Read(xs[..k], ElemStart(enc, xs, p, k)))
    decreases k
  {
    if k > 0 {
      ElemsFromStarts(dec, enc, xs, d, p, k - 1);
      ElemsSnoc(dec, d, p, k - 1);
      assert xs[..k - 1] + [xs[k - 1]] == xs[..k];
    }
  }

  /** The array round trip from per-element facts: each element, read at the
    * position where it was written, comes back and stops where the next
    * one was written. */
  lemma ArrayRoundTripAt<T>(dec: Decoder<T>, enc: T -> seq<byte>, xs: seq<T>, d: seq<byte>, p: nat, n: nat)
    requires |xs| < 0x8000_0000
    requires At(d, p, EncodeCount(|xs|))
    requires forall i :: 0 <= i < |xs| ==>
      dec(d, ElemStart(enc, xs, p + 4, i)) == Some(Read(xs[i], ElemStart(enc, xs, p + 4, i + 1)))
    requires n == p + |EncodeArray(enc, xs)|
    ensures DecodeArray(dec, d, p) == Some(Read(xs, n))
  {
    CountRoundTrip(|xs|, d, p);
    ElemsFromStarts(dec, enc, xs, d, p + 4, |xs|);
    assert xs[..|xs|] == xs;
  }

  lemma ArrayDecodes<T>(dec: Decoder<T>, enc: T -> seq<byte>, xs: seq<T>)
    requires |xs| < 0x8000_0000
    requires forall i :: 0 <= i < |xs| ==> Decodes(dec, enc, xs[i])
    ensures Decodes((d, p) => DecodeArray(dec, d, p), ys => EncodeArray(enc, ys), xs)
  {
    forall d: seq<byte>, p: nat | At(d, p, EncodeArray(enc, xs))
      ensures DecodeArray(dec, d, p) == Some(Read(xs, p + |EncodeArray(enc, xs)|))
    {
      ArrayRoundTrip(dec, enc, xs, d, p);
    }
  }

  // ---------------------------------------------------------------------
  // Byte arrays, the most common array on the wire

  function DecodeByteArray(d: seq<byte>, p: nat): (r: Option<Read<seq<byte>>>)
  {
    DecodeArray(DecodeByte, d, p)
  }

  function EncodeByteArray(bs: seq<byte>): (e: seq<byte>)
  {
    EncodeArray(EncodeByte, bs)
  }

  /** Reading n bytes one ReadByte at a time is taking the next n bytes. */
  lemma {:induction false} ByteElemsAreSlice(d: seq<byte>, p: nat, n: nat)
    requires p <= |d|
    ensures DecodeElems(DecodeByte, d, p, n) == DecodeBytes(d, p, n)
    decreases n
  {
    if n == 0 {
      assert d[p..p] == [];
    } else if p < |d| {
      ByteElemsAreSlice(d, p + 1, n - 1);
      assert DecodeByte(d, p) == Some(Read(d[p], p + 1));
      if p + n <= |d| {
        assert d[p..p + n] == [d[p]] + d[p + 1..p + n];
      }
    }
  }

  /** A byte array is written as its count and then the bytes unchanged. */
  lemma {:induction false} ByteElemsAreBytes(bs: seq<byte>)
    ensures EncodeElems(EncodeByte, bs) == bs
  {
    if bs != [] {
      ByteElemsAreBytes(bs[1..]);
      assert bs == [bs[0]] + bs[1..];
    }
  }

  lemma ByteArrayRoundTrip(bs: seq<byte>, d: seq<byte>, p: nat)
    requires |bs| < 0x8000_0000
    requires At(d, p, EncodeByteArray(bs))
    ensures EncodeByteArray(bs) == EncodeCount(|bs|) + bs
    ensures DecodeByteArray(d, p) == Some(Read(bs, p + |EncodeByteArray(bs)|))
  {
    ByteElemsAreBytes(bs);
    AtConcat(d, p, EncodeCount(|bs|), bs);
    CountRoundTrip(|bs|, d, p);
    ByteElemsAreSlice(d, p + 4, |bs|);
  }

  lemma ByteArrayDecodes(bs: seq<byte>)
    requires |bs| < 0x8000_0000
    ensures Decodes(DecodeByteArray, EncodeByteArray, bs)
  {
    forall d: seq<byte>, p: nat | At(d, p, EncodeByteArray(bs))
      ensures DecodeByteArray(d, p) == Some(Read(bs, p + |EncodeByteArray(bs)|))
    {
      ByteArrayRoundTrip(bs, d, p);
    }
  }

  // ---------------------------------------------------------------------
  // Strings and string arrays that survive the wire

  /** A string that reads back as written: ASCII, without '\0', and
    * short enough for the int32 count. */
  predicate WireString(s: string) {
    IsAscii(s) && HasNoNul(s) && |s| < 0x8000_0000
  }

  predicate WireStrings(ss: seq<string>) {
    |ss| < 0x8000_0000 && forall i :: 0 <= i < |ss| ==> WireString(ss[i])
  }

  /** Such a string's UTF-8 count fits WriteString's int32 length. */
  lemma WireStringFits(s: string)
    requires WireString(s)
    ensures |WrittenBytes(s)| == |s| < 0x8000_0000
  {
    Utf8OfAscii(s);
  }

  lemma StringArrayRoundTrip(ss: seq<string>, d: seq<byte>, p: nat)
    requires WireStrings(ss)
    requires At(d, p, EncodeArray(EncodeString, ss))
    ensures DecodeArray(DecodeString, d, p) == Some(Read(ss, p + |EncodeArray(EncodeString, ss)|))
  {
    forall i | 0 <= i < |ss|
      ensures Decodes(DecodeString, EncodeString, ss[i])
    {
      StringDecodes(ss[i]);
    }
    ArrayRoundTrip(DecodeString, EncodeString, ss, d, p);
  }

  lemma UInt32Decodes(x: u32)
    ensures Decodes(DecodeUInt32, EncodeUInt32, x)
  {
    forall d: seq<byte>, p: nat | At(d, p, EncodeUInt32(x))
      ensures DecodeUInt32(d, p) == Some(Read(x, p + |EncodeUInt32(x)|))
    {
      UInt32RoundTrip(x, d, p);
    }
  }

  lemma UInt64Decodes(x: u64)
    ensures Decodes(DecodeUInt64, EncodeUInt64, x)
  {
    forall d: seq<byte>, p: nat | At(d, p, EncodeUInt64(x))
      ensures DecodeUInt64(d, p) == Some(Read(x, p + |EncodeUInt64(x)|))
    {
      UInt64RoundTrip(x, d, p);
    }
  }

  // ---------------------------------------------------------------------
  // Soundness of the readers

  lemma PrimitivesAreSound()
    ensures Sound(DecodeByte) && Sound(DecodeBool) && Sound(DecodeSByte)
    ensures Sound(DecodeInt16) && Sound(DecodeInt32) && Sound(DecodeInt64)
    ensures Sound(DecodeUInt16) && Sound(DecodeUInt32) && Sound(DecodeUInt64)
  {
  }

  lemma StringIsSound()
    ensures Sound(DecodeString)
  {
  }

  lemma OptionalIsSound<T>(dec: Decoder<T>)
    requires Sound(dec)
    ensures Sound((d, p) => DecodeOptional(dec, d, p))
  {
  }

  /** ReadArray over a sound element reader moves forwards only, and never
    * past the end. */
  lemma ArrayAdvances<T>(dec: Decoder<T>)
    requires Sound(dec)
    ensures forall d: seq<byte>, p: nat :: DecodeArray(dec, d, p).Some? ==> p <= DecodeArray(dec, d, p).value.next <= |d|
  {
    forall d: seq<byte>, p: nat | DecodeArray(dec, d, p).Some?
      ensures p <= DecodeArray(dec, d, p).value.next <= |d|
    {
      var len := DecodeInt32(d, p).value;
      if len.value >= 0 {
        ElemsAdvance(dec, d, p + 4, len.value);
      }
    }
  }

  lemma ArrayIsSound<T>(dec: Decoder<T>)
    requires Sound(dec)
    ensures Sound((d, p) => DecodeArray(dec, d, p))
  {
    ArrayAdvances(dec);
  }
}
