/**
 The reconnect schedule: capped exponential growth with a symmetric jitter, in exact reals.
 Durations are whole nanoseconds.
 */
module Backoff {
  const DefaultBase: int := 500000000
  const DefaultMax: int := 30000000000
  const DefaultFactor: real := 2.0
  const DefaultJitter: real := 0.2
  const JitterCeiling: real := 0.999

  datatype Config = Config(base: int, max: int, factor: real, jitter: real)

  /** A schedule with every field resolved. */
  predicate Resolved(b: Config)
  {
    b.base > 0 && b.max > 0 && b.factor > 1.0 && 0.0 < b.jitter < 1.0
  }

  /** Resolution always succeeds, keeps every usable field and is idempotent. */
  method WithDefaults(b: Config) returns (out: Config)
    ensures Resolved(out)
    ensures Resolved(b) ==> out == b
    ensures b.base > 0 ==> out.base == b.base
    ensures b.max > 0 ==> out.max == b.max
    ensures b.factor > 1.0 ==> out.factor == b.factor
    ensures b.base <= 0 ==> out.base == DefaultBase
    ensures b.max <= 0 ==> out.max == DefaultMax
    ensures b.factor <= 1.0 ==> out.factor == DefaultFactor
    ensures b.jitter <= 0.0 ==> out.jitter == DefaultJitter
    ensures b.jitter >= 1.0 ==> out.jitter == JitterCeiling
  {
    out := b;
    if out.base <= 0 {
      out := out.(base := DefaultBase);
    }
    if out.max <= 0 {
      out := out.(max := DefaultMax);
    }
    if out.factor <= 1.0 {
      out := out.(factor := DefaultFactor);
    }
    if out.jitter <= 0.0 {
      out := out.(jitter := DefaultJitter);
    } else if out.jitter >= 1.0 {
      out := out.(jitter := JitterCeiling);
    }
  }

  /** Multiplication under a name, so that proofs can keep products closed. */
  function Times(x: real, y: real): real
  {
    x * y
  }

  /** The uncapped delay after `n` consecutive multiplications. */
  function Grown(b: Config, n: nat): real
  {
    if n == 0 then b.base as real else Times(Grown(b, n - 1), b.factor)
  }

  lemma {:induction false} GrownIncreases(b: Config, m: nat, n: nat)
    requires Resolved(b) && m <= n
    ensures 0.0 < Grown(b, m) <= Grown(b, n)
  {
    hide Times;
    if n == 0 {
    } else if m == n {
      GrownIncreases(b, m - 1, n - 1);
      TimesAbove(Grown(b, n - 1), b.factor);
    } else {
      GrownIncreases(b, m, n - 1);
      TimesAbove(Grown(b, n - 1), b.factor);
    }
  }

  lemma TimesAbove(x: real, f: real)
    requires x > 0.0 && f > 1.0
    ensures Times(x, f) > x
  {
    hide Times;
    TimesPositive(x, f - 1.0);
    TimesSum(x, f - 1.0, 1.0);
  }

  /** The delay of attempt `n` before jitter: exponential growth up to the ceiling. */
  function Capped(b: Config, attempt: int): real
  {
    var g := Grown(b, if attempt < 1 then 0 else attempt - 1);
    if g > b.max as real then b.max as real else g
  }

  /** `d` moved by the fraction `j` of itself, `r` in [0, 1) choosing where in the band. */
  function Spread(d: real, j: real, r: real): real
  {
    d + Times(Times(d, j), 2.0 * r - 1.0)
  }

  /** The delay of attempt `n` as a real, ceiling included. */
  function Jittered(b: Config, attempt: int, r: real): real
  {
    var s := Spread(Capped(b, attempt), b.jitter, r);
    if s > b.max as real then b.max as real else s
  }

  lemma TimesPositive(x: real, y: real)
    requires x > 0.0 && y > 0.0
    ensures Times(x, y) > 0.0
  {
  }

  lemma TimesSum(x: real, y: real, z: real)
    ensures Times(x, y + z) == Times(x, y) + Times(x, z)
    ensures Times(x, 1.0) == x && Times(x, -1.0) == -x && Times(x, 0.0) == 0.0
  {
  }

  lemma TimesBelow(x: real, y: real)
    requires x > 0.0 && 0.0 < y < 1.0
    ensures 0.0 < Times(x, y) < x
  {
    hide Times;
    TimesPositive(x, y);
    TimesPositive(x, 1.0 - y);
    TimesSum(x, y, 1.0 - y);
  }

  lemma TimesWithin(x: real, w: real)
    requires x > 0.0 && -1.0 <= w < 1.0
    ensures -x <= Times(x, w) < x
    ensures w == 0.0 ==> Times(x, w) == 0.0
  {
    hide Times;
    TimesSum(x, w, 1.0 - w);
    TimesPositive(x, 1.0 - w);
    TimesSum(x, w + 1.0, -1.0);
    if w > -1.0 {
      TimesPositive(x, w + 1.0);
    }
  }

  /** The band of the jitter: never below the fraction `1 - j`, never up to the fraction `1 + j`. */
  lemma SpreadBand(d: real, j: real, r: real)
    requires d > 0.0 && 0.0 < j < 1.0 && 0.0 <= r < 1.0
    ensures 0.0 < d - Times(d, j) <= Spread(d, j, r) < d + Times(d, j)
    ensures r == 0.5 ==> Spread(d, j, r) == d
  {
    hide Times;
    TimesBelow(d, j);
    TimesWithin(Times(d, j), 2.0 * r - 1.0);
  }

  /**
   The delay stays in (0, Max]; a draw of one half gives exactly the capped value, and no draw
   goes below the fraction `1 - jitter` of it.
   */
  lemma JitteredRange(b: Config, attempt: int, r: real)
    requires Resolved(b) && 0.0 <= r < 1.0
    ensures 0.0 < Jittered(b, attempt, r) <= b.max as real
    ensures Jittered(b, attempt, r) >= Capped(b, attempt) - Times(Capped(b, attempt), b.jitter)
    ensures r == 0.5 ==> Jittered(b, attempt, r) == Capped(b, attempt)
  {
    hide Spread, Times, Grown;
    var d := Capped(b, attempt);
    GrownIncreases(b, 0, if attempt < 1 then 0 else attempt - 1);
    SpreadBand(d, b.jitter, r);
    TimesBelow(d, b.jitter);
  }

  /** The undisturbed schedule never shrinks, and stays at the ceiling once there. */
  lemma CappedMonotone(b: Config, m: int, n: int)
    requires Resolved(b) && m <= n
    ensures Capped(b, m) <= Capped(b, n) <= b.max as real
    ensures Capped(b, m) == b.max as real ==> Capped(b, n) == b.max as real
  {
    GrownIncreases(b, if m < 1 then 0 else m - 1, if n < 1 then 0 else n - 1);
  }

  /** The growth loop, which stops multiplying as soon as the ceiling is reached. */
  method Grow(b: Config, attempt: int) returns (d: real)
    requires Resolved(b)
    ensures d == Capped(b, attempt)
  {
    hide Times;
    var n := if attempt < 1 then 1 else attempt;
    var max := b.max as real;
    d := b.base as real;
    var i := 1;
    while i < n
      invariant 1 <= i <= n
      invariant d == Grown(b, i - 1) && (i > 1 ==> d < max)
    {
      d := Times(d, b.factor);
      if d >= max {
        GrownIncreases(b, i, n - 1);
        d := max;
        break;
      }
      i := i + 1;
    }
    if d > max {
      d := max;
    }
  }

  /** The delay in whole nanoseconds, between zero and the ceiling. */
  method Delay(b: Config, attempt: int, r: real) returns (ns: int)
    requires Resolved(b) && 0.0 <= r < 1.0
    ensures ns == Jittered(b, attempt, r).Floor
    ensures 0 <= ns <= b.max
  {
    var max := b.max as real;
    var d := Grow(b, attempt);
    hide Capped, Times;
    JitteredRange(b, attempt, r);
    if b.jitter > 0.0 {
      d := Spread(d, b.jitter, r);
    }
    if d > max {
      d := max;
    }
    if d < 0.0 {
      d := 0.0;
    }
    ns := d.Floor;
  }
}
