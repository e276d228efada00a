/** The wire format of the wide integers and of the types built on them.
  *
  * FBinaryReader and FBinaryWriter store a 128-bit value as two uint64
  * words, the upper word first, each least significant byte first; a
  * 256-bit value is its upper 128-bit half followed by its lower half. A
  * timestamp and a duration are their int64 microsecond counts, a
  * connection id its 128-bit value and an identity its 256-bit value. */
module WideCodec {
  import opened Wrappers
  import opened Bytes
  import opened Codec
  import UInt128
  import Int128
  import UInt256
  import Int256
  import Timestamps
  import TimeDurations
  import ConnectionIds
  import Identities

  type U128 = UInt128.U128
  type I128 = Int128.I128
  type U256 = UInt256.U256
  type I256 = Int256.I256

  /** ReadU128: with sixteen bytes left, the upper word, then the lower. */
  function DecodeU128(d: seq<byte>, p: nat): (r: Option<Read<U128>>)
    ensures r.Some? <==> p + 16 <= |d|
    ensures r.Some? ==> r.value.next == p + 16
  {
    if p + 16 <= |d| then
      var upper := DecodeUInt64(d, p).value;
      var lower := DecodeUInt64(d, upper.next).value;
      Some(Read(UInt128.U128(upper.value, lower.value), lower.next))
    else None
  }

  /** WriteU128: the upper word, then the lower. */
  function EncodeU128(v: U128): (e: seq<byte>)
    ensures |e| == 16
  {
    EncodeUInt64(v.upper) + EncodeUInt64(v.lower)
  }

  /** ReadI128: the same two words, the upper one holding the sign. */
  function DecodeI128(d: seq<byte>, p: nat): (r: Option<Read<I128>>)
    ensures r.Some? <==> p + 16 <= |d|
    ensures r.Some? ==> r.value.next == p + 16
  {
    if p + 16 <= |d| then
      var upper := DecodeUInt64(d, p).value;
      var lower := DecodeUInt64(d, upper.next).value;
      Some(Read(Int128.I128(upper.value, lower.value), lower.next))
    else None
  }

  function EncodeI128(v: I128): (e: seq<byte>)
    ensures |e| == 16
  {
    EncodeUInt64(v.upper) + EncodeUInt64(v.lower)
  }

  /** ReadU256: with 32 bytes left, the upper half, then the lower. */
  function DecodeU256(d: seq<byte>, p: nat): (r: Option<Read<U256>>)
    ensures r.Some? <==> p + 32 <= |d|
    ensures r.Some? ==> r.value.next == p + 32
  {
    if p + 32 <= |d| then
      var upper := DecodeU128(d, p).value;
      var lower := DecodeU128(d, upper.next).value;
      Some(Read(UInt256.U256(upper.value, lower.value), lower.next))
    else None
  }

  function EncodeU256(v: U256): (e: seq<byte>)
    ensures |e| == 32
  {
    EncodeU128(v.upper) + EncodeU128(v.lower)
  }

  /** ReadI256: the upper signed half, then the lower. */
  function DecodeI256(d: seq<byte>, p: nat): (r: Option<Read<I256>>)
    ensures r.Some? <==> p + 32 <= |d|
    ensures r.Some? ==> r.value.next == p + 32
  {
    if p + 32 <= |d| then
      var upper := DecodeI128(d, p).value;
      var lower := DecodeI128(d, upper.next).value;
      Some(Read(Int256.I256(upper.value, lower.value), lower.next))
    else None
  }

  function EncodeI256(v: I256): (e: seq<byte>)
    ensures |e| == 32
  {
    EncodeI128(v.upper) + EncodeI128(v.lower)
  }

  /** ReadTimestamp and ReadTimeDuration: the int64 microsecond count. */
  function DecodeTimestamp(d: seq<byte>, p: nat): (r: Option<Read<Timestamps.Timestamp>>)
    ensures r.Some? <==> p + 8 <= |d|
    ensures r.Some? ==> r.value.next == p + 8
  {
    NarrowWidths();
    var x :- DecodeInt64(d, p);
    Some(Read(Timestamps.Timestamp(x.value), x.next))
  }

  function EncodeTimestamp(t: Timestamps.Timestamp): (e: seq<byte>)
    ensures |e| == 8
  {
    EncodeInt64(t.micros)
  }

  function DecodeTimeDuration(d: seq<byte>, p: nat): (r: Option<Read<TimeDurations.TimeDuration>>)
    ensures r.Some? <==> p + 8 <= |d|
    ensures r.Some? ==> r.value.next == p + 8
  {
    NarrowWidths();
    var x :- DecodeInt64(d, p);
    Some(Read(TimeDurations.TimeDuration(x.value), x.next))
  }

  function EncodeTimeDuration(t: TimeDurations.TimeDuration): (e: seq<byte>)
    ensures |e| == 8
  {
    EncodeInt64(t.micros)
  }

  /** ReadConnectionId: the 128-bit value, with no check that it is not
    * zero (unlike the id's own byte parsers). */
  function DecodeConnectionId(d: seq<byte>, p: nat): (r: Option<Read<ConnectionIds.ConnectionId>>)
    ensures r.Some? <==> p + 16 <= |d|
    ensures r.Some? ==> r.value.next == p + 16
  {
    var v :- DecodeU128(d, p);
    Some(Read(ConnectionIds.ConnectionId(v.value), v.next))
  }

  function EncodeConnectionId(c: ConnectionIds.ConnectionId): (e: seq<byte>)
    ensures |e| == 16
  {
    EncodeU128(c.value)
  }

  /** ReadIdentity: the 256-bit value. */
  function DecodeIdentity(d: seq<byte>, p: nat): (r: Option<Read<Identities.Identity>>)
    ensures r.Some? <==> p + 32 <= |d|
    ensures r.Some? ==> r.value.next == p + 32
  {
    var v :- DecodeU256(d, p);
    Some(Read(Identities.Identity(v.value), v.next))
  }

  function EncodeIdentity(i: Identities.Identity): (e: seq<byte>)
    ensures |e| == 32
  {
    EncodeU256(i.value)
  }

  // ---------------------------------------------------------------------
  // Round trips

  lemma U128RoundTrip(v: U128, d: seq<byte>, p: nat)
    requires At(d, p, EncodeU128(v))
    ensures DecodeU128(d, p) == Some(Read(v, p + 16))
  {
    var q := p + 8;
    AtNext(d, p, EncodeUInt64(v.upper), q, EncodeUInt64(v.lower));
    UInt64RoundTrip(v.upper, d, p);
    UInt64RoundTrip(v.lower, d, q);
  }

  lemma U128Decodes(v: U128)
    ensures Decodes(DecodeU128, EncodeU128, v)
  {
    forall d: seq<byte>, p: nat | At(d, p, EncodeU128(v))
      ensures DecodeU128(d, p) == Some(Read(v, p + |EncodeU128(v)|))
    {
      U128RoundTrip(v, d, p);
    }
  }

  lemma I128RoundTrip(v: I128, d: seq<byte>, p: nat)
    requires At(d, p, EncodeI128(v))
    ensures DecodeI128(d, p) == Some(Read(v, p + 16))
  {
    var q := p + 8;
    AtNext(d, p, EncodeUInt64(v.upper), q, EncodeUInt64(v.lower));
    UInt64RoundTrip(v.upper, d, p);
    UInt64RoundTrip(v.lower, d, q);
  }

  lemma I128Decodes(v: I128)
    ensures Decodes(DecodeI128, EncodeI128, v)
  {
    forall d: seq<byte>, p: nat | At(d, p, EncodeI128(v))
      ensures DecodeI128(d, p) == Some(Read(v, p + |EncodeI128(v)|))
    {
      I128RoundTrip(v, d, p);
    }
  }

  lemma U256RoundTrip(v: U256, d: seq<byte>, p: nat)
    requires At(d, p, EncodeU256(v))
    ensures DecodeU256(d, p) == Some(Read(v, p + 32))
  {
    var q := p + 16;
    AtNext(d, p, EncodeU128(v.upper), q, EncodeU128(v.lower));
    U128RoundTrip(v.upper, d, p);
    U128RoundTrip(v.lower, d, q);
  }

  lemma U256Decodes(v: U256)
    ensures Decodes(DecodeU256, EncodeU256, v)
  {
    forall d: seq<byte>, p: nat | At(d, p, EncodeU256(v))
      ensures DecodeU256(d, p) == Some(Read(v, p + |EncodeU256(v)|))
    {
      U256RoundTrip(v, d, p);
    }
  }

  lemma I256RoundTrip(v: I256, d: seq<byte>, p: nat)
    requires At(d, p, EncodeI256(v))
    ensures DecodeI256(d, p) == Some(Read(v, p + 32))
  {
    var q := p + 16;
    AtNext(d, p, EncodeI128(v.upper), q, EncodeI128(v.lower));
    I128RoundTrip(v.upper, d, p);
    I128RoundTrip(v.lower, d, q);
  }

  lemma I256Decodes(v: I256)
    ensures Decodes(DecodeI256, EncodeI256, v)
  {
    forall d: seq<byte>, p: nat | At(d, p, EncodeI256(v))
      ensures DecodeI256(d, p) == Some(Read(v, p + |EncodeI256(v)|))
    {
      I256RoundTrip(v, d, p);
    }
  }

  lemma TimestampRoundTrip(t: Timestamps.Timestamp, d: seq<byte>, p: nat)
    requires At(d, p, EncodeTimestamp(t))
    ensures DecodeTimestamp(d, p) == Some(Read(t, p + 8))
  {
    Int64RoundTrip(t.micros, d, p);
  }

  lemma TimestampDecodes(t: Timestamps.Timestamp)
    ensures Decodes(DecodeTimestamp, EncodeTimestamp, t)
  {
    forall d: seq<byte>, p: nat | At(d, p, EncodeTimestamp(t))
      ensures DecodeTimestamp(d, p) == Some(Read(t, p + |EncodeTimestamp(t)|))
    {
      TimestampRoundTrip(t, d, p);
    }
  }

  lemma TimeDurationRoundTrip(t: TimeDurations.TimeDuration, d: seq<byte>, p: nat)
    requires At(d, p, EncodeTimeDuration(t))
    ensures DecodeTimeDuration(d, p) == Some(Read(t, p + 8))
  {
    Int64RoundTrip(t.micros, d, p);
  }

  lemma TimeDurationDecodes(t: TimeDurations.TimeDuration)
    ensures Decodes(DecodeTimeDuration, EncodeTimeDuration, t)
  {
    forall d: seq<byte>, p: nat | At(d, p, EncodeTimeDuration(t))
      ensures DecodeTimeDuration(d, p) == Some(Read(t, p + |EncodeTimeDuration(t)|))
    {
      TimeDurationRoundTrip(t, d, p);
    }
  }

  /** Every connection id, the zero one included, survives the wire. */
  lemma ConnectionIdRoundTrip(c: ConnectionIds.ConnectionId, d: seq<byte>, p: nat)
    requires At(d, p, EncodeConnectionId(c))
    ensures DecodeConnectionId(d, p) == Some(Read(c, p + 16))
  {
    U128RoundTrip(c.value, d, p);
  }

  lemma ConnectionIdDecodes(c: ConnectionIds.ConnectionId)
    ensures Decodes(DecodeConnectionId, EncodeConnectionId, c)
  {
    forall d: seq<byte>, p: nat | At(d, p, EncodeConnectionId(c))
      ensures DecodeConnectionId(d, p) == Some(Read(c, p + |EncodeConnectionId(c)|))
    {
      ConnectionIdRoundTrip(c, d, p);
    }
  }

  lemma IdentityRoundTrip(i: Identities.Identity, d: seq<byte>, p: nat)
    requires At(d, p, EncodeIdentity(i))
    ensures DecodeIdentity(d, p) == Some(Read(i, p + 32))
  {
    U256RoundTrip(i.value, d, p);
  }

  lemma IdentityDecodes(i: Identities.Identity)
    ensures Decodes(DecodeIdentity, EncodeIdentity, i)
  {
    forall d: seq<byte>, p: nat | At(d, p, EncodeIdentity(i))
      ensures DecodeIdentity(d, p) == Some(Read(i, p + |EncodeIdentity(i)|))
    {
      IdentityRoundTrip(i, d, p);
    }
  }

  // ---------------------------------------------------------------------
  // The wire layout against the in-memory layouts

  /** On the wire a 128-bit value is its in-memory (little-endian) layout
    * with the two words swapped. */
  lemma U128WireSwapsWords(v: U128)
    ensures EncodeU128(v) == UInt128.ToBytesLE(UInt128.U128(v.lower, v.upper))
  {
    UnsignedWritesAreLE(0, 0, v.upper);
    UnsignedWritesAreLE(0, 0, v.lower);
  }

  /** So the wire layout is neither ToBytesLE nor ToBytesBE: the value 1 is
    * written with its only set byte at offset 8. */
  lemma U128WireIsNeitherByteOrder()
    ensures EncodeU128(UInt128.U128(0, 1)) != UInt128.ToBytesLE(UInt128.U128(0, 1))
    ensures EncodeU128(UInt128.U128(0, 1)) != UInt128.ToBytesBE(UInt128.U128(0, 1))
    ensures EncodeU128(UInt128.U128(0, 1))[8] == 1
  {
    var one := UInt128.U128(0, 1);
    U128WireSwapsWords(one);
    assert EncodeU128(one)[0] == LE(0, 8)[0] == 0;
    assert EncodeU128(one)[8] == LE(1, 8)[0] == 1;
    assert UInt128.ToBytesLE(one)[0] == LE(1, 8)[0];
    assert UInt128.ToBytesBE(one)[8] == ShiftRightBytes(1, 7) % 256;
    assert ShiftRightBytes(1, 7) == ShiftRightBytes(0, 6);
  }

  // ---------------------------------------------------------------------
  // Soundness

  lemma WideAreSound()
    ensures Sound(DecodeU128) && Sound(DecodeI128) && Sound(DecodeU256) && Sound(DecodeI256)
    ensures Sound(DecodeTimestamp) && Sound(DecodeTimeDuration)
    ensures Sound(DecodeConnectionId) && Sound(DecodeIdentity)
  {
  }
}
