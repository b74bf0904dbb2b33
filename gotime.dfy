/**
 * The parts of Go's `time` package that the AP-REQ checks rely on.
 * An instant is a count of nanoseconds (Go's `time.Time` has a wider range
 * than a `Duration`, so instants are unbounded here); a `Duration` is a
 * signed 64-bit count of nanoseconds, as `time.Duration` is.
 */
module GoTime {

  const MinInt64: int := -0x8000_0000_0000_0000
  const MaxInt64: int := 0x7FFF_FFFF_FFFF_FFFF

  type int64 = x: int | MinInt64 <= x <= MaxInt64

  /** `time.Duration`: nanoseconds, 64 bits, signed. */
  type Duration = int64

  /** `time.Time`, as nanoseconds since an arbitrary epoch. */
  type Time = int

  const Microsecond: Duration := 1000
  const Minute: Duration := 60_000_000_000

  /** Two's-complement reduction of an integer to 64 bits: what Go's int64 arithmetic yields. */
  function Wrap64(x: int): (r: int64)
    ensures (r - x) % 0x1_0000_0000_0000_0000 == 0
    ensures MinInt64 <= x <= MaxInt64 ==> r == x
  {
    var m := (x - MinInt64) % 0x1_0000_0000_0000_0000;
    m + MinInt64
  }

  /** Go's `*` on two Durations: the product, wrapped to 64 bits. */
  function MulDuration(a: int64, b: int64): (r: Duration)
    ensures MinInt64 <= a * b <= MaxInt64 ==> r == a * b
  {
    Wrap64(a * b)
  }

  /** `t.Add(d)`: the instant `d` nanoseconds after `t`. */
  function Add(t: Time, d: Duration): Time
  {
    t + d
  }

  /**
   * `t.Sub(u)`: the duration `t - u`; Go saturates it to the smallest or
   * largest Duration when the difference does not fit in 64 bits.
   */
  function Sub(t: Time, u: Time): (r: Duration)
    ensures MinInt64 <= t - u <= MaxInt64 ==> r == t - u
    ensures t - u > MaxInt64 ==> r == MaxInt64
    ensures t - u < MinInt64 ==> r == MinInt64
  {
    if t - u > MaxInt64 then MaxInt64
    else if t - u < MinInt64 then MinInt64
    else t - u
  }

  /**
   * Saturation never changes the outcome of comparing a difference with a
   * Duration below the largest one: `t.Sub(u) > d` holds exactly when the
   * true difference exceeds `d`.
   */
  lemma SubExceedsExactly(t: Time, u: Time, d: Duration)
    requires d < MaxInt64
    ensures Sub(t, u) > d <==> t - u > d
  {
  }
}
