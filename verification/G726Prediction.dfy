/**
 The predictor: what the histories hold after a run, and how closely the sums of the internal
 floating-point products follow the exact ones.
 */
module G726Prediction {
  import opened Bits
  import opened G726
  import opened G726Decoder
  import opened G726Reference
  import opened G726Laws

  // ---- histories -----------------------------------------------------------

  lemma NewestSign(r: Rate, s: State, code: int32)
    requires InRange(s) && IsCode(r, code)
    ensures var dq := Step(r, s, code).dq;
            && |dq| == |s.dq| == 6 && dq[1..] == s.dq[..5]
            && dq[0].sign == (if Downwards(r, code) then 1 else 0)
            && dq[0].(sign := 0) == I2F(Difference(r, s, code)).(sign := 0)
  {
    hide Step, Difference, I2F, InverseQuant, Downwards, SignBit;
    StepFields(r, s, code);
    SignOf(r, code);
    hide AdaptedA, AdaptedB, Polarity, Reconstructed, ScaledSpeed, AdaptAp, FastScale, SlowScale, MixedScale;
    hide ZeroSum, PoleSum;
  }

  /** The signs in the history are those of the last six codewords, the newest first. */
  lemma {:induction false} HistorySigns(r: Rate, s: State, codes: seq<int32>, i: nat)
    requires InRange(s) && AreCodes(r, codes) && i < 6 && i < |codes|
    ensures |Run(r, s, codes).dq| == 6
    ensures Run(r, s, codes).dq[i].sign == if Downwards(r, codes[|codes| - 1 - i]) then 1 else 0
    decreases |codes|
  {
    hide InRange, IsCode, Step, Run, Samples, Downwards, Reconstructed, Pcm;
    var k := |codes| - 1;
    assert codes[..k + 1] == codes;
    RunSnoc(r, s, codes, k);
    var mid := Run(r, s, codes[..k]);
    NewestSign(r, mid, codes[k]);
    if i > 0 {
      HistorySigns(r, s, codes[..k], i - 1);
      assert Step(r, mid, codes[k]).dq[1..][i - 1] == mid.dq[..5][i - 1];
    }
  }

  lemma Wrapped(x: int32)
    ensures (Wrap16(x) as int - x as int) % 65536 == 0
    ensures -32768 <= x <= 32767 ==> Wrap16(x) == x
  {
  }

  lemma NewestSignal(r: Rate, s: State, code: int32)
    requires InRange(s) && IsCode(r, code)
    ensures |s.sr| == 2 && Step(r, s, code).sr == [I2F(Reconstructed(r, s, code)), s.sr[0]]
  {
    hide Step, Difference, I2F, Reconstructed;
    StepFields(r, s, code);
    hide AdaptedA, AdaptedB, Polarity, ShiftedDq, ScaledSpeed, AdaptAp, FastScale, SlowScale, MixedScale;
    hide ZeroSum, PoleSum;
  }

  /** The reconstructed signal is the estimate plus the difference, unless that leaves 16 bits. */
  lemma SignalMeans(r: Rate, s: State, code: int32)
    requires InRange(s) && IsCode(r, code)
    ensures var x := Reconstructed(r, s, code) as int;
            var sum := s.se as int + Difference(r, s, code) as int;
            && (x - sum) % 65536 == 0
            && (-32768 <= sum <= 32767 ==> x == sum)
            && |s.sr| == 2 && Step(r, s, code).sr == [I2F(Reconstructed(r, s, code)), s.sr[0]]
  {
    hide Step, Difference, Reconstructed, InRange, IsCode;
    NewestSignal(r, s, code);
    SignalIs(r, s, code);
  }

  lemma SignalIs(r: Rate, s: State, code: int32)
    requires InRange(s) && IsCode(r, code)
    ensures var x := Reconstructed(r, s, code) as int;
            var sum := s.se as int + Difference(r, s, code) as int;
            (x - sum) % 65536 == 0 && (-32768 <= sum <= 32767 ==> x == sum)
  {
    hide Difference, Wrap16, PredictorInRange, HistoryInRange, IsCode;
    Wrapped(s.se + Difference(r, s, code));
    assert (s.se + Difference(r, s, code)) as int == s.se as int + Difference(r, s, code) as int;
  }

  // ---- products ------------------------------------------------------------

  /** The exact product of two magnitudes, in the units of the sums: 2048ths. */
  function Product(f1: Float11, f2: Float11): (p: real)
    requires FloatOk(f1, 14) && FloatOk(f2, 16)
    ensures p > 0.0
  {
    ProductBounds(f1.mant as int, f2.mant as int);
    var m, p := f1.mant as int * f2.mant as int, Pow2((f1.exp + f2.exp) as int);
    Positive(m, p);
    (m * p) as real / 8388608.0
  }

  lemma Positive(m: int, p: int)
    requires m > 0 && p > 0
    ensures m * p > 0
  {
  }

  lemma {:induction false} ShrIs(v: int, n: nat)
    ensures Shr(v, n) * Pow2(n) <= v < (Shr(v, n) + 1) * Pow2(n)
    decreases n
  {
    if n > 0 {
      ShrIs(v / 2, n - 1);
      Doubled(v, Shr(v / 2, n - 1), Pow2(n - 1));
    }
  }

  lemma Doubled(v: int, q: int, p: int)
    requires q * p <= v / 2 < (q + 1) * p
    ensures q * (2 * p) <= v < (q + 1) * (2 * p)
  {
    var a, b := q * p, (q + 1) * p;
    assert q * (2 * p) == 2 * a && (q + 1) * (2 * p) == 2 * b;
  }

  lemma {:induction false} Pow2Sum(a: nat, b: nat)
    ensures Pow2(a + b) == Pow2(a) * Pow2(b)
  {
    if b > 0 {
      Pow2Sum(a, b - 1);
    }
  }

  lemma PowNineteen()
    ensures Pow2(19) == 524288
  {
    assert Pow2(5) == 32 && Pow2(10) == 32 * Pow2(5) && Pow2(15) == 32 * Pow2(10) && Pow2(19) == 16 * Pow2(15);
  }

  /** The aligned product is the mantissas' product scaled by the exponents, rounded down below one. */
  lemma AlignedIs(m: int32, e: int32)
    requires 0 <= m <= 251 && 0 <= e <= 30
    ensures var v := AlignedProduct(m, e) as int;
            524288 * v <= m as int * Pow2(e as int) < 524288 * (v + 1)
  {
    PowNineteen();
    var v, x := AlignedProduct(m, e) as int, m as int;
    if e > 19 {
      var n := (e - 19) as int;
      ShlIs(x, n);
      Pow2Sum(n, 19);
      assert v == x * Pow2(n);
      Regroup(x, Pow2(n), 524288);
    } else {
      var n := (19 - e) as int;
      ShrIs(x, n);
      Pow2Sum(n, e as int);
      var p, q := Pow2(n), Pow2(e as int);
      assert v * p <= x < (v + 1) * p && p * q == 524288;
      Scale(v * p, x, (v + 1) * p, q);
      Regroup(v, p, q);
      Regroup(v + 1, p, q);
    }
  }

  lemma Regroup(a: int, b: int, c: int)
    ensures a * b * c == a * (b * c)
  {
  }

  lemma Scale(a: int, b: int, c: int, q: int)
    requires a <= b < c && q > 0
    ensures a * q <= b * q < c * q
  {
  }

  /** The rounded mantissa product, sixteenfold, is at most 48 above the exact one and not below it. */
  lemma MantissaMeans(m1: int32, m2: int32)
    requires 32 <= m1 <= 63 && 32 <= m2 <= 63
    ensures var m, w := MantProduct(m1, m2) as int, m1 as int * m2 as int;
            w <= 16 * m <= w + 48 && 64 * 48 <= 3 * w
  {
    ProductBounds(m1 as int, m2 as int);
  }

  /** Scaling the rounded mantissa product keeps it within three 64ths above the exact one. */
  lemma ScaledBracket(w: int, m: int, q: int, v: int)
    requires w <= 16 * m <= w + 48 && 64 * 48 <= 3 * w && q > 0
    requires 524288 * v <= m * q < 524288 * (v + 1)
    ensures 64 * 8388608 * v <= 67 * (w * q) && w * q < 8388608 * (v + 1)
  {
    Brackets(w, 16 * m, w + 48, q);
    Brackets(64 * 48, 64 * 48, 3 * w, q);
    var x, y := w * q, m * q;
    assert 16 * m * q == 16 * y && (w + 48) * q == x + 48 * q && 3 * w * q == 3 * x && 64 * 48 * q == 64 * (48 * q);
  }

  lemma Brackets(a: int, b: int, c: int, q: int)
    requires a <= b <= c && q > 0
    ensures a * q <= b * q <= c * q
  {
  }

  lemma AlignedMeans(f1: Float11, f2: Float11)
    requires FloatOk(f1, 14) && FloatOk(f2, 16)
    ensures var v, p := AlignedProduct(MantProduct(f1.mant, f2.mant), f1.exp + f2.exp) as int, Product(f1, f2);
            0 <= v && p - 1.0 < v as real <= p * 67.0 / 64.0
  {
    var e := f1.exp + f2.exp;
    var m, w, q := MantProduct(f1.mant, f2.mant), f1.mant as int * f2.mant as int, Pow2(e as int);
    var v := AlignedProduct(m, e) as int;
    MantissaMeans(f1.mant, f2.mant);
    AlignedIs(m, e);
    hide MantProduct, AlignedProduct;
    ScaledBracket(w, m as int, q, v);
    assert Product(f1, f2) == (w * q) as real / 8388608.0;
    hide Product;
    InUnits(w * q, v);
  }

  lemma InUnits(x: int, v: int)
    requires 64 * 8388608 * v <= 67 * x && x < 8388608 * (v + 1)
    ensures var p := x as real / 8388608.0; p - 1.0 < v as real <= p * 67.0 / 64.0
  {
  }

  /**
   A product of the predictor: of the sign of its factors' signs, at most one below the exact magnitude
   and at most three 64ths above it, as long as it fits 16 bits.
   */
  lemma MultMeans(f1: Float11, f2: Float11)
    requires FloatOk(f1, 14) && FloatOk(f2, 16) && Product(f1, f2) <= 31000.0
    ensures var v, p := Mult(f1, f2) as int, Product(f1, f2);
            if f1.sign == f2.sign then 0 <= v && p - 1.0 < v as real <= p * 67.0 / 64.0
            else v <= 0 && p - 1.0 < -(v as real) <= p * 67.0 / 64.0
  {
    AlignedMeans(f1, f2);
    hide Product, AlignedProduct, MantProduct, Wrap16;
    var res := AlignedProduct(MantProduct(f1.mant, f2.mant), f1.exp + f2.exp);
    assert res <= 32767;
    Wrapped(if f1.sign != f2.sign then -res else res);
  }

  // ---- the estimate --------------------------------------------------------

  /** The exact product with its sign. */
  function Signed(f1: Float11, f2: Float11): real
    requires FloatOk(f1, 14) && FloatOk(f2, 16)
  {
    if f1.sign == f2.sign then Product(f1, f2) else -Product(f1, f2)
  }

  /** What rounding may add to or take from a product. */
  function Slack(f1: Float11, f2: Float11): real
    requires FloatOk(f1, 14) && FloatOk(f2, 16)
  {
    Product(f1, f2) * 3.0 / 64.0 + 1.0
  }

  /** A coefficient as the multiplier takes it. */
  function Coefficient(c: int32): (f: Float11)
    requires -32768 <= c <= 32768
    ensures FloatOk(f, 14)
  {
    PowFourteen();
    I2FExponent(c / 4, 14);
    I2F(c / 4)
  }

  /** The exact sum of the first `n` products and the slack of its rounding. */
  function Exact(cs: seq<int32>, fs: seq<Float11>, n: nat): (r: (real, real))
    requires n <= |cs| == |fs| && forall i :: 0 <= i < |cs| ==> -32768 <= cs[i] <= 32768 && FloatOk(fs[i], 16)
    ensures r.1 >= 0.0
  {
    if n == 0 then (0.0, 0.0) else
      var (x, slack) := Exact(cs, fs, n - 1);
      (x + Signed(Coefficient(cs[n - 1]), fs[n - 1]), slack + Slack(Coefficient(cs[n - 1]), fs[n - 1]))
  }

  /** No product of a predictor sum leaves 16 bits. */
  predicate Modest(cs: seq<int32>, fs: seq<Float11>)
    requires |cs| == |fs| && forall i :: 0 <= i < |cs| ==> -32768 <= cs[i] <= 32768 && FloatOk(fs[i], 16)
  {
    forall i :: 0 <= i < |cs| ==> Product(Coefficient(cs[i]), fs[i]) <= 31000.0
  }

  lemma OneProduct(c: int32, f: Float11)
    requires -32768 <= c <= 32768 && FloatOk(f, 16) && Product(Coefficient(c), f) <= 31000.0
    ensures Near(RealOf(Mult(Coefficient(c), f)), Signed(Coefficient(c), f), Slack(Coefficient(c), f))
  {
    hide Mult, Coefficient, Product;
    MultMeans(Coefficient(c), f);
  }

  lemma {:induction false} ZeroSumMeans(b: seq<int32>, dq: seq<Float11>, n: nat)
    requires |b| == |dq| == 6 && n <= 6
    requires forall i :: 0 <= i < 6 ==> -32768 <= b[i] <= 32768 && FloatOk(dq[i], 15) && FloatOk(dq[i], 16)
    requires Modest(b, dq)
    ensures Near(RealOf(ZeroSum(b, dq, n)), Exact(b, dq, n).0, Exact(b, dq, n).1)
  {
    hide Mult, I2F, Product, Signed, Slack;
    if n > 0 {
      ZeroSumMeans(b, dq, n - 1);
      OneProduct(b[n - 1], dq[n - 1]);
    }
  }

  lemma {:induction false} PoleSumMeans(a: seq<int32>, sr: seq<Float11>, n: nat)
    requires |a| == |sr| == 2 && n <= 2
    requires forall i :: 0 <= i < 2 ==> -27648 <= a[i] <= 27648 && FloatOk(sr[i], 16)
    requires Modest(a, sr)
    ensures Near(RealOf(PoleSum(a, sr, n)), Exact(a, sr, n).0, Exact(a, sr, n).1)
  {
    hide Mult, I2F, Product, Signed, Slack;
    if n > 0 {
      PoleSumMeans(a, sr, n - 1);
      OneProduct(a[n - 1], sr[n - 1]);
    }
  }

  /**
   The estimate of the next sample is half the sum of the exact products of coefficients and histories,
   the zeros' part alone being the partial estimate: each product within three 64ths and one, and the
   halves rounded down.
   */
  lemma EstimateMeans(r: Rate, s: State, code: int32)
    requires InRange(s) && IsCode(r, code)
    ensures var t := Step(r, s, code);
            && |t.b| == |t.dq| == 6 && |t.a| == |t.sr| == 2
            && (forall i :: 0 <= i < 6 ==> -32768 <= t.b[i] <= 32768 && FloatOk(t.dq[i], 16))
            && (forall i :: 0 <= i < 2 ==> -32768 <= t.a[i] <= 32768 && FloatOk(t.sr[i], 16))
            && (Modest(t.b, t.dq) ==>
                  var (x, slack) := Exact(t.b, t.dq, 6);
                  Near(2.0 * RealOf(t.sez), x, slack + 1.0))
            && (Modest(t.b, t.dq) && Modest(t.a, t.sr) ==>
                  var (x, slack) := Exact(t.b, t.dq, 6);
                  var (x', slack') := Exact(t.a, t.sr, 2);
                  Near(2.0 * RealOf(t.se), x + x', slack + slack' + 1.0))
  {
    hide Step, Difference, I2F, Exact, Modest, ZeroSum, PoleSum;
    EstimateIs(r, s, code);
    var t := Step(r, s, code);
    hide InRange, IsCode;
    if Modest(t.b, t.dq) {
      ZeroSumMeans(t.b, t.dq, 6);
      if Modest(t.a, t.sr) {
        PoleSumMeans(t.a, t.sr, 2);
      }
    }
  }

  lemma EstimateIs(r: Rate, s: State, code: int32)
    requires InRange(s) && IsCode(r, code)
    ensures var t := Step(r, s, code);
            && |t.b| == |t.dq| == 6 && |t.a| == |t.sr| == 2
            && (forall i :: 0 <= i < 6 ==> -32768 <= t.b[i] <= 32768 && FloatOk(t.dq[i], 15))
            && (forall i :: 0 <= i < 2 ==> -27648 <= t.a[i] <= 27648 && FloatOk(t.sr[i], 16))
            && t.sez == ZeroSum(t.b, t.dq, 6) / 2
            && t.se == (ZeroSum(t.b, t.dq, 6) + PoleSum(t.a, t.sr, 2)) / 2
  {
    hide Step, Difference, I2F, ZeroSum, PoleSum;
    StepFields(r, s, code);
    hide AdaptedA, AdaptedB, Polarity, ShiftedDq, ScaledSpeed, AdaptAp, FastScale, SlowScale, MixedScale;
    hide Reconstructed;
  }
}
