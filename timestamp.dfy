/** FTimestamp: microseconds since the Unix epoch, and its conversion to and
  * from the engine's date-time ticks (100 ns since 0001-01-01). */
module Timestamps {
  import opened Bytes

  datatype Timestamp = Timestamp(micros: i64)

  /** An engine date-time: a count of 100-nanosecond ticks. */
  datatype DateTime = DateTime(ticks: i64)

  /** The default constructor: the epoch itself. */
  const Epoch: Timestamp := Timestamp(0)

  /** Ticks from 0001-01-01 to 1970-01-01. */
  const UnixEpochTicks: int := 621_355_968_000_000_000

  const TicksPerMicro: int := 10

  /** C++ integer division, which truncates toward zero. */
  function TruncDiv(a: int, b: int): (q: int)
    requires b > 0
    ensures a >= 0 ==> q == a / b
    ensures a < 0 ==> q == -((-a) / b)
  {
    if a >= 0 then a / b else -((-a) / b)
  }

  /** operator< and its companions compare the microsecond counts. */
  predicate Less(a: Timestamp, b: Timestamp) {
    a.micros < b.micros
  }

  predicate Greater(a: Timestamp, b: Timestamp) {
    a.micros > b.micros
  }

  predicate LessOrEqual(a: Timestamp, b: Timestamp) {
    a.micros <= b.micros
  }

  predicate GreaterOrEqual(a: Timestamp, b: Timestamp) {
    a.micros >= b.micros
  }

  /** The companions are the converse and the non-strict forms of
    * operator<, and equality is equality of the counts. */
  lemma ComparisonsAgree(a: Timestamp, b: Timestamp)
    ensures Greater(a, b) <==> Less(b, a)
    ensures LessOrEqual(a, b) <==> Less(a, b) || a == b
    ensures GreaterOrEqual(a, b) <==> !Less(a, b)
    ensures a == b <==> a.micros == b.micros
  {
  }

  /** ToDateTime needs no 64-bit overflow, neither in micros * 10 nor in
    * adding the epoch ticks. */
  predicate FitsDateTime(t: Timestamp) {
    && -0x8000_0000_0000_0000 <= t.micros * TicksPerMicro < 0x8000_0000_0000_0000
    && -0x8000_0000_0000_0000 <= t.micros * TicksPerMicro + UnixEpochTicks < 0x8000_0000_0000_0000
  }

  /** ToDateTime: ten ticks per microsecond, counted from the epoch. */
  function ToDateTime(t: Timestamp): (d: DateTime)
    requires FitsDateTime(t)
    ensures d.ticks - UnixEpochTicks == TicksPerMicro * t.micros
  {
    DateTime(t.micros * TicksPerMicro + UnixEpochTicks)
  }

  /** FromDateTime needs no 64-bit overflow in ticks - epoch ticks. */
  predicate FitsTimestamp(d: DateTime) {
    -0x8000_0000_0000_0000 <= d.ticks - UnixEpochTicks
  }

  /** FromDateTime: ticks since the epoch, divided by ten with C++
    * truncation, so the leftover ticks are dropped toward the epoch. */
  function FromDateTime(d: DateTime): (t: Timestamp)
    requires FitsTimestamp(d)
    ensures d.ticks >= UnixEpochTicks ==> 0 <= (d.ticks - UnixEpochTicks) - TicksPerMicro * t.micros < TicksPerMicro
    ensures d.ticks < UnixEpochTicks ==> 0 <= TicksPerMicro * t.micros - (d.ticks - UnixEpochTicks) < TicksPerMicro
  {
    Timestamp(TruncDiv(d.ticks - UnixEpochTicks, TicksPerMicro))
  }

  /** Every timestamp that fits a date-time survives the round trip. */
  lemma DateTimeRoundTrip(t: Timestamp)
    requires FitsDateTime(t)
    ensures FitsTimestamp(ToDateTime(t))
    ensures FromDateTime(ToDateTime(t)) == t
  {
    var d := ToDateTime(t);
    var r := FromDateTime(d);
    assert r.micros == t.micros;
  }

  /** A date-time goes back to itself only when it is a whole number of
    * microseconds after or before the epoch. */
  lemma DateTimeBackAndForth(d: DateTime)
    requires FitsTimestamp(d)
    ensures FitsDateTime(FromDateTime(d))
    ensures ToDateTime(FromDateTime(d)) == d <==> (d.ticks - UnixEpochTicks) % TicksPerMicro == 0
  {
  }

  /** ToDateTime keeps the order of timestamps. */
  lemma ToDateTimeMonotonic(a: Timestamp, b: Timestamp)
    requires FitsDateTime(a) && FitsDateTime(b)
    ensures Less(a, b) <==> ToDateTime(a).ticks < ToDateTime(b).ticks
  {
  }

  /** FromDateTime never reverses the order of date-times. */
  lemma FromDateTimeMonotonic(d: DateTime, e: DateTime)
    requires FitsTimestamp(d) && FitsTimestamp(e) && d.ticks <= e.ticks
    ensures LessOrEqual(FromDateTime(d), FromDateTime(e))
  {
  }
}
