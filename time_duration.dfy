/** FTimeDuration: a signed duration in microseconds. */
module TimeDurations {
  import opened Bytes

  datatype TimeDuration = TimeDuration(micros: i64)

  /** The default constructor: no time at all. */
  const Zero: TimeDuration := TimeDuration(0)

  predicate InRange(x: int) {
    -0x8000_0000_0000_0000 <= x < 0x8000_0000_0000_0000
  }

  /** operator+: the sum must not overflow 64 bits. */
  function Add(a: TimeDuration, b: TimeDuration): (r: TimeDuration)
    requires InRange(a.micros + b.micros)
    ensures r.micros - b.micros == a.micros
  {
    TimeDuration(a.micros + b.micros)
  }

  /** operator-: the difference must not overflow 64 bits. */
  function Sub(a: TimeDuration, b: TimeDuration): (r: TimeDuration)
    requires InRange(a.micros - b.micros)
    ensures r.micros + b.micros == a.micros
  {
    TimeDuration(a.micros - b.micros)
  }

  /** Subtracting what was added gives the first operand back. */
  lemma SubUndoesAdd(a: TimeDuration, b: TimeDuration)
    requires InRange(a.micros + b.micros)
    ensures Sub(Add(a, b), b) == a
  {
  }

  /** Adding back what was subtracted gives the first operand back. */
  lemma AddUndoesSub(a: TimeDuration, b: TimeDuration)
    requires InRange(a.micros - b.micros)
    ensures Add(Sub(a, b), b) == a
  {
  }

  lemma AddCommutes(a: TimeDuration, b: TimeDuration)
    requires InRange(a.micros + b.micros)
    ensures Add(a, b) == Add(b, a)
  {
  }

  /** The zero duration is neutral. */
  lemma ZeroIsNeutral(a: TimeDuration)
    ensures Add(a, Zero) == a && Sub(a, Zero) == a && Sub(a, a) == Zero
  {
  }
}
