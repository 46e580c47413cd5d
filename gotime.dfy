/** A model of Go's `time.Time` and `time.Duration`: instants are nanoseconds counted from
    the zero `time.Time`, so the zero instant is 0; durations are signed 64-bit nanoseconds. */
module GoTime {

  const MinDuration: int := -0x8000_0000_0000_0000
  const MaxDuration: int := 0x7fff_ffff_ffff_ffff

  type Time = int
  type Duration = d: int | MinDuration <= d <= MaxDuration

  const Nanosecond: Duration := 1
  const Millisecond: Duration := 1_000_000
  const Second: Duration := 1_000_000_000
  const Minute: Duration := 60 * Second

  predicate IsZero(t: Time) { t == 0 }

  /** `t.Sub(u)`: the duration t - u, saturated to the range of a Duration. */
  function Sub(t: Time, u: Time): (d: Duration)
    ensures MinDuration <= t - u <= MaxDuration ==> d == t - u
    ensures t - u > MaxDuration ==> d == MaxDuration
    ensures t - u < MinDuration ==> d == MinDuration
    ensures d < 0 <==> t < u
  {
    if t - u > MaxDuration then MaxDuration
    else if t - u < MinDuration then MinDuration
    else t - u
  }
}
