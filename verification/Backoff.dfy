/** pkg/lru/backoff.go. The multiplier is a real number and each product is cut towards zero to a whole
    number of ticks, as the conversion to time.Duration does; rounding inside float64 is not modelled. */
module Backoff {
  import opened Arithmetic

  /** time.Duration(x): the fraction is dropped. */
  function Truncate(x: real): (r: int)
    ensures x >= 0.0 ==> r as real <= x < r as real + 1.0
    ensures x <= 0.0 ==> x <= r as real < x + 1.0
  {
    if x >= 0.0 then x.Floor else -(-x).Floor
  }

  function Scale(d: int, multiplier: real): (r: int)
    ensures d >= 0 && multiplier >= 1.0 ==> d <= r
    ensures d as real * multiplier >= 0.0 ==> r as real <= d as real * multiplier < r as real + 1.0
    ensures d as real * multiplier <= 0.0 ==> d as real * multiplier <= r as real < d as real * multiplier + 1.0
  {
    assert d >= 0 && multiplier >= 1.0 ==> d as real * multiplier >= d as real;
    Truncate(d as real * multiplier)
  }

  /** The initial interval, scaled n times and never capped. */
  function Scaled(initial: int, multiplier: real, n: nat): int {
    if n == 0 then initial else Scale(Scaled(initial, multiplier, n - 1), multiplier)
  }

  /** Some interval on the way to the n-th, the first one aside, exceeds the ceiling. */
  predicate Exceeds(initial: int, max: int, multiplier: real, n: nat) {
    exists k: nat :: 1 <= k <= n && Scaled(initial, multiplier, k) > max
  }

  /** The interval before attempt n, for any multiplier and any sign. */
  function Interval(initial: int, max: int, multiplier: real, n: nat): int {
    if Exceeds(initial, max, multiplier, n) then max else Scaled(initial, multiplier, n)
  }

  class ExponentialBackoff {
    const InitialInterval: int
    const MaxInterval: int
    const Multiplier: real

    constructor (initial: int, max: int, multiplier: real)
      ensures InitialInterval == initial && MaxInterval == max && Multiplier == multiplier
    {
      InitialInterval, MaxInterval, Multiplier := initial, max, multiplier;
    }

    method Next(attempt: int) returns (d: int)
      ensures d == Interval(InitialInterval, MaxInterval, Multiplier, if attempt < 0 then 0 else attempt)
      ensures attempt <= 0 ==> d == InitialInterval
    {
      var n := if attempt < 0 then 0 else attempt;
      d := InitialInterval;
      for i := 0 to n
        invariant d == Scaled(InitialInterval, Multiplier, i)
        invariant !Exceeds(InitialInterval, MaxInterval, Multiplier, i)
      {
        d := Scale(d, Multiplier);
        assert d == Scaled(InitialInterval, Multiplier, i + 1);
        if d > MaxInterval {
          return MaxInterval;
        }
      }
    }
  }

  /** Once over the ceiling, the code stays there, even where a multiplier below 1 would bring the scaled
      interval down again. */
  lemma CeilingIsSticky(initial: int, max: int, multiplier: real, m: nat, n: nat)
    requires Exceeds(initial, max, multiplier, m) && m <= n
    ensures Interval(initial, max, multiplier, n) == max
  {
    var k: nat :| 1 <= k <= m && Scaled(initial, multiplier, k) > max;
    assert 1 <= k <= n;
  }

  /** One more attempt, for any multiplier: the first interval is what was configured, each later one the
      scaled one before it, or the ceiling from the first time that one would exceed it. */
  lemma IntervalStep(initial: int, max: int, multiplier: real, n: nat)
    ensures Interval(initial, max, multiplier, 0) == initial
    ensures Exceeds(initial, max, multiplier, n) ==> Interval(initial, max, multiplier, n + 1) == max
    ensures !Exceeds(initial, max, multiplier, n) ==>
              var next := Scale(Interval(initial, max, multiplier, n), multiplier);
              && Interval(initial, max, multiplier, n + 1) == (if next > max then max else next)
              && (Exceeds(initial, max, multiplier, n + 1) <==> next > max)
    ensures !Exceeds(initial, max, multiplier, 0)
  {
    hide Scale;
    if Exceeds(initial, max, multiplier, n) {
      CeilingIsSticky(initial, max, multiplier, n, n + 1);
    } else if Exceeds(initial, max, multiplier, n + 1) {
      var k: nat :| 1 <= k <= n + 1 && Scaled(initial, multiplier, k) > max;
      assert k == n + 1;
    }
  }

  lemma {:induction false} ScaledGrows(initial: nat, multiplier: real, m: nat, n: nat)
    requires multiplier >= 1.0 && m <= n
    ensures 0 <= Scaled(initial, multiplier, m) <= Scaled(initial, multiplier, n)
  {
    if m < n {
      ScaledGrows(initial, multiplier, m, n - 1);
    } else if n > 0 {
      ScaledGrows(initial, multiplier, n - 1, n - 1);
    }
  }

  /** With a multiplier of at least 1 the early return at the ceiling gives what scaling and capping all
      the way would. */
  lemma CappedAllTheWay(initial: nat, max: nat, multiplier: real, n: nat)
    requires multiplier >= 1.0 && n > 0
    ensures Interval(initial, max, multiplier, n)
            == Min(Scale(Interval(initial, max, multiplier, n - 1), multiplier), max)
  {
    ScaledGrows(initial, multiplier, n - 1, n);
    if Exceeds(initial, max, multiplier, n - 1) {
      CeilingIsSticky(initial, max, multiplier, n - 1, n);
    } else if Exceeds(initial, max, multiplier, n) {
      var k: nat :| 1 <= k <= n && Scaled(initial, multiplier, k) > max;
      assert k == n;
    }
  }

  /** Later attempts never wait less, unless the very first interval already exceeds the ceiling. */
  lemma IntervalsGrow(initial: nat, max: nat, multiplier: real, m: nat, n: nat)
    requires multiplier >= 1.0 && m <= n
    ensures 0 < m || initial <= max ==> Interval(initial, max, multiplier, m) <= Interval(initial, max, multiplier, n)
    ensures 0 < n || initial <= max ==> Interval(initial, max, multiplier, n) <= max
  {
    ScaledGrows(initial, multiplier, m, n);
    if Exceeds(initial, max, multiplier, m) {
      CeilingIsSticky(initial, max, multiplier, m, n);
    } else if m > 0 {
      assert Scaled(initial, multiplier, m) <= max;
    }
  }

  function Power(b: nat, n: nat): nat {
    if n == 0 then 1 else b * Power(b, n - 1)
  }

  lemma ScaleByWhole(d: nat, b: nat)
    requires b >= 1
    ensures Scale(d, b as real) == d * b
  {
    assert d as real * b as real == (d * b) as real;
  }

  lemma Regroup(x: nat, y: nat, b: nat)
    ensures x * (b * y) == (x * y) * b
  {
  }

  lemma {:induction false} ScaledByWhole(initial: nat, b: nat, n: nat)
    requires b >= 1
    ensures Scaled(initial, b as real, n) == initial * Power(b, n)
  {
    hide Scale;
    if n > 0 {
      ScaledByWhole(initial, b, n - 1);
      ScaleByWhole(initial * Power(b, n - 1), b);
      Regroup(initial, Power(b, n - 1), b);
    }
  }

  /** With a whole multiplier the loop is initial * multiplier^n, capped. */
  lemma ClosedForm(initial: nat, max: nat, b: nat, n: nat)
    requires b >= 1 && n > 0
    ensures Interval(initial, max, b as real, n) == Min(initial * Power(b, n), max)
  {
    ScaledByWhole(initial, b, n);
    if Exceeds(initial, max, b as real, n) {
      var k: nat :| 1 <= k <= n && Scaled(initial, b as real, k) > max;
      ScaledGrows(initial, b as real, k, n);
    }
  }

  /** The client configures its layers with retryTimeout, twice and four times that, but promotions take
      the default backoff: the configured TTLs are the ones in force exactly when retryTimeout is the
      backoff's own 100 ms. */
  lemma ConfiguredLayersMatch(retryTimeout: int)
    ensures (Interval(100, 5000, 2.0, 1) == 2 * retryTimeout && Interval(100, 5000, 2.0, 2) == 4 * retryTimeout)
            <==> retryTimeout == 100
  {
    ClosedForm(100, 5000, 2, 1);
    ClosedForm(100, 5000, 2, 2);
    assert Power(2, 1) == 2 && Power(2, 2) == 4;
  }
}
