/**
 The remaining-time estimate reported by the `progress` action: the time per
 finished row times the rows still to go, split into hours, minutes and seconds.
 */
module Eta {

  datatype Hms = Hms(hours: int, minutes: int, seconds: int)

  function Seconds(t: Hms): int
  {
    t.hours * 3600 + t.minutes * 60 + t.seconds
  }

  /** `Float#to_i` of the exact quotient `a / b`: rounds toward zero. */
  function TruncDiv(a: int, b: int): (q: int)
    requires b > 0
    ensures a >= 0 ==> 0 <= q && q * b <= a < q * b + b
    ensures a < 0 ==> q * b - b < a <= q * b
  {
    if a >= 0 then a / b else -((-a) / b)
  }

  /** `{hours: r / 3600, minutes: (r % 3600) / 60, seconds: r % 60}`. Ruby's integer `/` and `%`
      round toward negative infinity, which for a positive divisor is Dafny's `/` and `%`. */
  function Split(r: int): (t: Hms)
    ensures Seconds(t) == r
    ensures 0 <= t.minutes < 60 && 0 <= t.seconds < 60
    ensures r >= 0 ==> t.hours >= 0
  {
    var t := Hms(r / 3600, (r % 3600) / 60, r % 60);
    SplitSeconds(r);
    t
  }

  lemma SplitSeconds(r: int)
    ensures (r / 3600) * 3600 + ((r % 3600) / 60) * 60 + r % 60 == r
  {
    var q := r / 3600;
    var m := r % 3600;
    assert r == q * 3600 + m && 0 <= m < 3600;
    assert m == (m / 60) * 60 + m % 60;
    assert r == (q * 60) * 60 + m;
    assert r % 60 == m % 60;
  }

  /** The estimate: zero unless `0 < current < total`, otherwise the exact
      `elapsed * (total - current) / current` seconds, truncated. */
  function RemainingTime(elapsed: int, current: int, total: int): (t: Hms)
    ensures !(0 < current < total) ==> t == Hms(0, 0, 0)
    ensures 0 < current < total ==> Seconds(t) == TruncDiv(elapsed * (total - current), current)
    ensures 0 <= t.minutes < 60 && 0 <= t.seconds < 60
  {
    if 0 < current && current < total then Split(TruncDiv(elapsed * (total - current), current))
    else Hms(0, 0, 0)
  }

  /** With a non-negative elapsed time the estimate is non-negative and no larger than
      the elapsed time scaled by the remaining-to-done ratio. */
  lemma RemainingTimeBounds(elapsed: int, current: int, total: int)
    requires elapsed >= 0 && 0 < current < total
    ensures 0 <= Seconds(RemainingTime(elapsed, current, total))
    ensures Seconds(RemainingTime(elapsed, current, total)) * current <= elapsed * (total - current)
    ensures elapsed * (total - current) < (Seconds(RemainingTime(elapsed, current, total)) + 1) * current
  {
    var x := elapsed * (total - current);
    assert x >= 0;
    var q := TruncDiv(x, current);
    assert 0 <= q && q * current <= x < q * current + current;
  }

  /** Five of ten rows done in 50 seconds leaves 50 seconds. */
  lemma HalfwayExample()
    ensures RemainingTime(50, 5, 10) == Hms(0, 0, 50)
  {
  }
}
