/** The decomposition of a millisecond count into hours, minutes and seconds that
    the bot shows in every status message ("<h>h <m>m <s>s"). */
module Duration {

  /** The three numbers formatDuration interpolates into its text. */
  datatype Hms = Hms(hours: int, minutes: int, seconds: int)

  /** The milliseconds a triple stands for. */
  function Millis(t: Hms): int {
    t.hours * 3600000 + t.minutes * 60000 + t.seconds * 1000
  }

  /** JavaScript's `%` operator: the remainder takes the sign of the dividend
      (Dafny's `%` is Euclidean and never negative). */
  function JsRem(a: int, b: int): (r: int)
    requires b > 0
    ensures a >= 0 ==> 0 <= r < b
    ensures a < 0 ==> -b < r <= 0
    ensures (a - r) % b == 0
  {
    if a >= 0 then
      assert a - a % b == (a / b) * b;
      MultipleRem(a / b, b);
      a % b
    else
      assert -a == ((-a) / b) * b + (-a) % b;
      assert a + (-a) % b == (-((-a) / b)) * b;
      MultipleRem(-((-a) / b), b);
      -((-a) % b)
  }

  /** A multiple of a positive divisor leaves no remainder. */
  lemma MultipleRem(q: int, b: int)
    requires b > 0
    ensures (q * b) % b == 0
  {
    var x := q * b;
    var k := q - x / b;
    assert x == b * (x / b) + x % b;
    assert x % b == k * b;
  }

  /** formatDuration. `Math.floor(x / k)` for a positive constant k is Dafny's
      `x / k` (floor division when the divisor is positive); the two inner
      remainders are JavaScript remainders. For a non-negative duration the
      triple is an exact hours/minutes/seconds reading of it, truncated to the
      second; for a negative one every component is non-positive, the
      minutes and seconds going down to -60. */
  function FormatDuration(ms: int): (r: Hms)
    ensures 0 <= ms ==> 0 <= r.hours && 0 <= r.minutes < 60 && 0 <= r.seconds < 60
    ensures 0 <= ms ==> Millis(r) <= ms < Millis(r) + 1000
    ensures ms < 0 ==> r.hours < 0 && -60 <= r.minutes <= 0 && -60 <= r.seconds <= 0
  {
    var r := Hms(ms / 3600000, JsRem(ms, 3600000) / 60000, JsRem(ms, 60000) / 1000);
    if 0 <= ms then
      SplitMinute(ms);
      r
    else
      r
  }

  /** Below an hour boundary the remainder modulo a minute is the same whether
      it is taken of the whole count or of the part below the hour. */
  lemma SplitMinute(ms: int)
    requires 0 <= ms
    ensures ms == (ms / 3600000) * 3600000 + ((ms % 3600000) / 60000) * 60000 + ms % 60000
  {
    var h, r1 := ms / 3600000, ms % 3600000;
    var m, r2 := r1 / 60000, r1 % 60000;
    assert r1 == m * 60000 + r2;
    MinuteRem(ms, h * 60 + m, r2);
  }

  /** Division by a minute is determined by quotient and remainder bounds. */
  lemma MinuteRem(x: int, q: int, r: int)
    requires x == q * 60000 + r && 0 <= r < 60000
    ensures x % 60000 == r
  {
    var k := x / 60000;
    assert (q - k) * 60000 == x % 60000 - r;
    assert -1 < q - k < 1;
  }

  /** The triple is the only reading of a non-negative duration with minutes and
      seconds in range that is exact to the second, so formatDuration is
      determined by those bounds. */
  lemma FormatDurationUnique(ms: int, t: Hms)
    requires 0 <= ms
    requires 0 <= t.minutes < 60 && 0 <= t.seconds < 60
    requires Millis(t) <= ms < Millis(t) + 1000
    ensures FormatDuration(ms) == t
  {
  }

  /** With a negative count the truncating remainder makes minutes and seconds
      negative on top of the floored hours: one millisecond below zero reads
      as minus one hour, minus one minute and minus one second. */
  lemma FormatDurationNegative()
    ensures FormatDuration(-1) == Hms(-1, -1, -1)
    ensures FormatDuration(-3599999) == Hms(-1, -60, -60)
    ensures Millis(FormatDuration(-1)) == -3661000
  {
  }
}
