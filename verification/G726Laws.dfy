/**
 What one decoding step owes the recommendation: signs, magnitudes and the direction and amount of
 every adaptation, within the rounding of the integer form.
 */
module G726Laws {
  import opened Bits
  import opened G726
  import opened G726Decoder
  import opened G726Reference

  // ---- signs ---------------------------------------------------------------

  lemma SignOf(r: Rate, code: int32)
    requires IsCode(r, code)
    ensures SignBit(r, code) == if Downwards(r, code) then 1 else 0
  {
    assert Pow2(Table(r).bits) == 2 * Pow2(Table(r).bits - 1);
  }

  /** Codewords of one level carry the same magnitude. */
  lemma SameMagnitude(r: Rate, y: int32, c1: int32, c2: int32)
    requires IsCode(r, c1) && IsCode(r, c2) && Level(r, c1) == Level(r, c2) && 544 <= y <= 5120
    ensures InverseQuant(r, y, c1) == InverseQuant(r, y, c2)
  {
    hide Antilog, Table;
    SameEntry(r, c1, c2);
  }

  lemma SameEntry(r: Rate, c1: int32, c2: int32)
    requires IsCode(r, c1) && IsCode(r, c2) && Level(r, c1) == Level(r, c2)
    ensures Table(r).iquant[c1] == Table(r).iquant[c2]
  {
    Rows(r, Level(r, c1));
    hide Table;
  }

  /**
   Codewords below half reconstruct a difference that is not negative, the others one that is not
   positive, and the two codewords of a level opposite ones.
   */
  lemma Signs(r: Rate, s: State, code: int32)
    requires ScaleInRange(s) && IsCode(r, code)
    ensures !Downwards(r, code) ==> Difference(r, s, code) == InverseQuant(r, s.y, code) >= 0
    ensures Downwards(r, code) ==> Difference(r, s, code) == -InverseQuant(r, s.y, code) <= 0
    ensures Difference(r, s, Mirror(r, code)) == -Difference(r, s, code)
  {
    hide InverseQuant, SignBit, Downwards, Level, Mirror;
    SignOf(r, code);
    SignOf(r, Mirror(r, code));
    SameMagnitude(r, s.y, code, Mirror(r, code));
  }

  // ---- magnitudes ----------------------------------------------------------

  /** The levels of a quantiser rise. */
  lemma LevelsRise(r: Rate, l: nat)
    requires l + 1 < Half(r)
    ensures Table(r).iquant[l] <= Table(r).iquant[l + 1]
  {
    Rows(r, l);
    Rows(r, l + 1);
    LogsRise(r, l);
    hide Table, Quantiser, Multipliers, Speeds, Half, NoLevel, Folded;
  }

  lemma LogsRise(r: Rate, l: nat)
    requires l + 1 < Half(r)
    ensures !NoLevel(r, l + 1)
    ensures !NoLevel(r, l) ==> 128 * Quantiser(r)[l] + 1400 <= 128 * Quantiser(r)[l + 1]
    ensures -520 <= Quantiser(r)[l + 1]
  {
  }

  lemma {:induction false} EntriesRise(r: Rate, l1: nat, l2: nat)
    requires l1 <= l2 < Half(r)
    ensures Table(r).iquant[l1] <= Table(r).iquant[l2]
    decreases l2
  {
    hide Table;
    if l1 < l2 {
      EntriesRise(r, l1, l2 - 1);
      LevelsRise(r, l2 - 1);
    }
  }

  /** The antilogarithm of a log difference that is not negative. */
  function Antilogged(dql: int): int
    requires 0 <= dql <= 1846
  {
    Antilog(128 + dql % 128, dql / 128)
  }

  lemma AntilogRises(a: int, b: int)
    requires 0 <= a <= b <= 1846
    ensures Antilogged(a) <= Antilogged(b)
  {
    var e1, e2 := a / 128, b / 128;
    if e1 == e2 {
      ShlMonotone(128 + a % 128, 128 + b % 128, e1);
    } else {
      ShlMonotone(128 + a % 128, 256, e1);
      assert Shl(128, 1) == 2 * Shl(128, 0) == 256;
      ShlShl(128, 1, e1);
      ShlWider(128, e1 + 1, e2);
      ShlMonotone(128, 128 + b % 128, e2);
    }
  }

  lemma InverseQuantIs(r: Rate, y: int32, code: int32)
    requires IsCode(r, code) && 544 <= y <= 5120
    ensures var dql := LogDifference(r, y, code) as int;
            InverseQuant(r, y, code) as int == if dql < 0 then 0 else Antilogged(dql)
  {
    hide Table, LogDifference, Antilog, IsCode;
    var dql := LogDifference(r, y, code) as int;
    assert dql >= 0 ==> (dql / 128) % 16 == dql / 128;
  }

  /** The magnitude rises with the quantiser level. */
  lemma MagnitudeRises(r: Rate, y: int32, c1: int32, c2: int32)
    requires IsCode(r, c1) && IsCode(r, c2) && Level(r, c1) <= Level(r, c2) && 544 <= y <= 5120
    ensures InverseQuant(r, y, c1) <= InverseQuant(r, y, c2)
  {
    EntriesRise(r, Level(r, c1), Level(r, c2));
    EntryByLevel(r, c1);
    EntryByLevel(r, c2);
    var a, b := LogDifference(r, y, c1) as int, LogDifference(r, y, c2) as int;
    assert a <= b;
    InverseQuantIs(r, y, c1);
    InverseQuantIs(r, y, c2);
    hide Table, InverseQuant, Antilogged, LogDifference, IsCode, Level;
    if 0 <= a {
      AntilogRises(a, b);
    }
  }

  lemma EntryByLevel(r: Rate, code: int32)
    requires IsCode(r, code)
    ensures Table(r).iquant[code] == Table(r).iquant[Level(r, code)]
  {
    Rows(r, Level(r, code));
    hide Table;
  }

  /**
   The magnitude: none at the level that is minus infinity; else the logarithm of the level plus that of
   the scale factor, in 128ths and rounded, and of it the antilogarithm that is linear between powers of
   two, rounded down; below one it is zero.
   */
  lemma MagnitudeMeans(r: Rate, y: int32, code: int32)
    requires IsCode(r, code) && 544 <= y <= 5120
    ensures var l := Level(r, code);
            var dql := LogDifference(r, y, code) as int;
            var v := InverseQuant(r, y, code) as int;
            && (NoLevel(r, l) ==> v == 0)
            && (!NoLevel(r, l) ==> -1700 <= 1000 * dql - (128 * Quantiser(r)[l] + 250 * (y as int)) <= 700)
            && (dql < 0 ==> v == 0)
            && (dql >= 0 ==> 128 * v <= (128 + dql % 128) * Pow2(dql / 128) < 128 * (v + 1))
  {
    LogMeans(r, y, code);
    InverseQuantIs(r, y, code);
    hide Table, Quantiser, Level, LogDifference, InverseQuant, IsCode;
    var dql := LogDifference(r, y, code) as int;
    if dql >= 0 {
      ShlIs(128 + dql % 128, dql / 128);
    }
  }

  lemma LogMeans(r: Rate, y: int32, code: int32)
    requires IsCode(r, code) && 544 <= y <= 5120
    ensures var l, dql := Level(r, code), LogDifference(r, y, code) as int;
            && (NoLevel(r, l) ==> dql < 0)
            && (!NoLevel(r, l) ==> -1700 <= 1000 * dql - (128 * Quantiser(r)[l] + 250 * (y as int)) <= 700)
  {
    TablesArePublished(r, code);
    hide Table, Quantiser, Level;
  }

  lemma {:induction false} ShlIs(m: int, e: nat)
    ensures Shl(m, e) == m * Pow2(e)
  {
    if e > 0 {
      ShlIs(m, e - 1);
    }
  }

  /** The first sample out of a reset decoder is four times the difference, of the codeword's sign. */
  lemma FirstSample(r: Rate, code: int32)
    requires IsCode(r, code)
    ensures InRange(Initial)
    ensures var d := Difference(r, Initial, code);
            && Samples(r, Initial, [code]) == [4 * d]
            && (Downwards(r, code) ==> d <= 0) && (!Downwards(r, code) ==> d >= 0)
            && -63 <= d <= 63
  {
    hide InRange, Difference, Samples, Reconstructed, Pcm, Downwards, InverseQuant, IsCode;
    InitialInRange();
    InitialScale();
    Signs(r, Initial, code);
    SmallAtFirst(r, code);
    RunOne(r, Initial, code);
    SmallPcm(r, code);
  }

  lemma InitialScale()
    ensures ScaleInRange(Initial) && Initial.y == 544 && Initial.se == 0
  {
  }

  lemma SmallPcm(r: Rate, code: int32)
    requires IsCode(r, code) && InRange(Initial) && -63 <= Difference(r, Initial, code) <= 63
    ensures Pcm(Reconstructed(r, Initial, code)) == 4 * Difference(r, Initial, code)
  {
    hide InRange, Difference, IsCode;
    InitialScale();
    hide Initial;
  }

  lemma SmallAtFirst(r: Rate, code: int32)
    requires IsCode(r, code)
    ensures InverseQuant(r, 544, code) <= 63
  {
    var dql := LogDifference(r, 544, code) as int;
    assert dql <= 702;
    InverseQuantIs(r, 544, code);
    hide Table, LogDifference, InverseQuant, Antilogged, IsCode;
    if dql >= 0 {
      AntilogRises(dql, 702);
      LargestFirst();
    }
  }

  lemma LargestFirst()
    ensures Antilogged(702) <= 63
  {
    ShlIs(128 + 702 % 128, 702 / 128);
    assert Pow2(5) == 32;
  }

  // ---- the predictor coefficients ------------------------------------------

  function Limit(x: real, lo: real, hi: real): real
    requires lo <= hi
  {
    if x < lo then lo else if x > hi then hi else x
  }

  /** The sign of a codeword in the history. */
  function Way(sign: int32): int { if sign == 0 then 1 else -1 }

  function Sign(v: int32): int { if v > 0 then 1 else if v < 0 then -1 else 0 }

  /** Is the step a transition, which clears the predictor? */
  predicate Transits(r: Rate, s: State, code: int32)
    requires ScaleInRange(s) && IsCode(r, code)
  {
    Transition(s, InverseQuant(r, s.y, code))
  }

  lemma AdaptBIs(b: int32, d: int32, sign: int32)
    requires -32768 <= b <= 32768 && (sign == 0 || sign == 1)
    ensures AdaptB(b, SgnOrZero(d), sign) as int == b as int - b as int / 256 + 128 * (Sign(d) * Way(sign))
  {
  }

  lemma LeakMeans(b: int, push: int)
    requires -128 <= push <= 128
    ensures var leak := b - b / 256;
            && (b >= 0 ==> 0 <= leak <= b) && (b <= 0 ==> b <= leak <= 0)
            && Near((leak + push) as real, b as real * 255.0 / 256.0 + push as real, 1.0)
  {
  }

  lemma AdaptBMeans(b: int32, d: int32, sign: int32)
    requires -32768 <= b <= 32768 && (sign == 0 || sign == 1)
    ensures var b' := AdaptB(b, SgnOrZero(d), sign) as int;
            var leak := b as int - b as int / 256;
            && b' == leak + 128 * (Sign(d) * Way(sign))
            && (b >= 0 ==> 0 <= leak <= b as int) && (b <= 0 ==> b as int <= leak <= 0)
            && Near(b' as real, RealOf(b) * 255.0 / 256.0 + 128.0 * (Sign(d) * Way(sign)) as real, 1.0)
  {
    AdaptBIs(b, d, sign);
    hide AdaptB, SgnOrZero, Near;
    var push := 128 * (Sign(d) * Way(sign));
    LeakMeans(b as int, push);
    assert push as real == 128.0 * (Sign(d) * Way(sign)) as real;
  }

  /**
   A zero coefficient leaks towards zero and then moves by 128, up exactly when the new difference has
   the sign of its entry in the history and down exactly when it has the other; a zero difference moves
   nothing.  It is the recommendation's coefficient within one unit.
   */
  lemma ZeroMoves(r: Rate, s: State, code: int32, i: nat)
    requires InRange(s) && IsCode(r, code) && i < 6 && !Transits(r, s, code)
    ensures var d, b, b' := Difference(r, s, code), s.b[i] as int, Step(r, s, code).b[i] as int;
            var leak := b - b / 256;
            && (b' == leak + 128 <==> (d > 0 && s.dq[i].sign == 0) || (d < 0 && s.dq[i].sign == 1))
            && (b' == leak - 128 <==> (d > 0 && s.dq[i].sign == 1) || (d < 0 && s.dq[i].sign == 0))
            && (b' == leak <==> d == 0)
            && (b >= 0 ==> 0 <= leak <= b) && (b <= 0 ==> b <= leak <= 0)
            && Near(b' as real, b as real * 255.0 / 256.0 + 128.0 * (Sign(d) * Way(s.dq[i].sign)) as real, 1.0)
  {
    hide Step, Difference, InverseQuant, Transition, AdaptB, I2F, SgnOrZero;
    StepFields(r, s, code);
    AdaptBMeans(s.b[i], Difference(r, s, code), s.dq[i].sign);
    hide AdaptedA, Polarity, Reconstructed, ShiftedDq, ScaledSpeed, AdaptAp, FastScale, SlowScale, MixedScale;
    hide ZeroSum, PoleSum;
  }

  /** Polarity of the partial reconstruction: the estimate of the zeros plus the difference. */
  function NewPolarity(r: Rate, s: State, code: int32): int
    requires InRange(s) && IsCode(r, code)
  {
    Sign(s.sez + Difference(r, s, code))
  }

  lemma PolarityIs(r: Rate, s: State, code: int32)
    requires InRange(s) && IsCode(r, code)
    ensures Polarity(r, s, code) as int == NewPolarity(r, s, code)
  {
    hide Difference;
  }

  lemma AdaptA0Means(a0: int32, a1: int32, pk0: int32, q: int32)
    requires -12288 <= a1 <= 12288 && -27648 <= a0 <= 27648
    requires (pk0 == 1 || pk0 == -1) && (q == -1 || q == 0 || q == 1)
    ensures var lim := RealOf(15360 - a1);
            var exact := RealOf(a0) * 255.0 / 256.0 + 192.0 * (q as int * pk0 as int) as real;
            Near(RealOf(AdaptA0(a0, a1, pk0, q)), Limit(exact, -lim, lim), 1.0)
  {
  }

  /** The cross term of the second pole: the first one in 32nds, held to 256, with the signs' product. */
  function Cross(a0: int32, pq: int): real
  {
    Limit(RealOf(a0) / 32.0, -256.0, 256.0) * pq as real
  }

  lemma AdaptA1Means(a0: int32, a1: int32, pk0: int32, pk1: int32, q: int32)
    requires -12288 <= a1 <= 12288 && -27648 <= a0 <= 27648
    requires (pk0 == 1 || pk0 == -1) && (pk1 == 1 || pk1 == -1) && (q == -1 || q == 0 || q == 1)
    ensures var exact := RealOf(a1) * 127.0 / 128.0 + 128.0 * (q as int * pk1 as int) as real
                         - Cross(a0, q as int * pk0 as int);
            Near(RealOf(AdaptA1(a0, a1, pk0, pk1, q)), Limit(exact, -12288.0, 12288.0), 3.0)
  {
    var fa1 := Clip(SignedCoefficient(a0, pk0, q) / 32, -256, 255);
    CrossMeans(a0, pk0, q);
    hide SignedCoefficient, Cross, Limit;
    var inc := 128 * q * pk1;
    assert inc as int == 128 * (q as int * pk1 as int);
    SecondPole(a1, inc, fa1, -Cross(a0, q as int * pk0 as int));
  }

  lemma SecondPole(a1: int32, inc: int32, fa1: int32, cross: real)
    requires -12288 <= a1 <= 12288 && -128 <= inc <= 128 && -256 <= fa1 <= 255 && Near(RealOf(fa1), cross, 1.0)
    ensures var exact := RealOf(a1) * 127.0 / 128.0 + RealOf(inc) + cross;
            Near(RealOf(Clip(a1 + (inc + fa1 - a1 / 128), -12288, 12288)), Limit(exact, -12288.0, 12288.0), 3.0)
  {
    var v := a1 + (inc + fa1 - a1 / 128);
    assert Near(RealOf(v), RealOf(a1) * 127.0 / 128.0 + RealOf(inc) + cross, 3.0);
    ClipNear(v, RealOf(a1) * 127.0 / 128.0 + RealOf(inc) + cross);
  }

  lemma ClipNear(v: int32, exact: real)
    requires Near(RealOf(v), exact, 3.0)
    ensures Near(RealOf(Clip(v, -12288, 12288)), Limit(exact, -12288.0, 12288.0), 3.0)
  {
  }

  lemma CrossMeans(a0: int32, p: int32, q: int32)
    requires -27648 <= a0 <= 27648 && (p == 1 || p == -1) && (q == -1 || q == 0 || q == 1)
    ensures var fa1 := Clip(SignedCoefficient(a0, p, q) / 32, -256, 255);
            Near(RealOf(fa1), -Cross(a0, q as int * p as int), 1.0)
  {
    var pq := q as int * p as int;
    assert SignedCoefficient(a0, p, q) as int == -(a0 as int) * pq by {
      if p == 1 { } else { }
    }
    hide SignedCoefficient;
    if pq == 0 {
    } else if pq == 1 {
    } else {
    }
  }

  /**
   The poles: each leaks and is pulled towards the product of the new polarity with the one before, or
   the one before that; the second also against the first, within the stability limits.  Both are the
   recommendation's coefficients within a few units.
   */
  lemma PolesMove(r: Rate, s: State, code: int32)
    requires InRange(s) && IsCode(r, code) && !Transits(r, s, code)
    ensures var a, p := Step(r, s, code).a, NewPolarity(r, s, code);
            var second := RealOf(s.a[1]) * 127.0 / 128.0 + 128.0 * (p * s.pk[1] as int) as real
                          - Cross(s.a[0], p * s.pk[0] as int);
            var first := RealOf(s.a[0]) * 255.0 / 256.0 + 192.0 * (p * s.pk[0] as int) as real;
            var lim := RealOf(15360 - a[1]);
            && Near(RealOf(a[1]), Limit(second, -12288.0, 12288.0), 3.0)
            && 0.0 <= lim && Near(RealOf(a[0]), Limit(first, -lim, lim), 1.0)
  {
    hide InRange, Step, Difference, InverseQuant, Transition, AdaptA0, AdaptA1, Cross, NewPolarity, Polarity, Limit;
    PolarityIs(r, s, code);
    PolesAre(r, s, code);
    hide IsCode, Transits;
    var q := Polarity(r, s, code);
    AdaptA1Means(s.a[0], s.a[1], s.pk[0], s.pk[1], q);
    AdaptA0Means(s.a[0], Step(r, s, code).a[1], s.pk[0], q);
  }

  lemma PolesAre(r: Rate, s: State, code: int32)
    requires InRange(s) && IsCode(r, code) && !Transits(r, s, code)
    ensures |s.a| == |s.pk| == 2 && -12288 <= s.a[1] <= 12288 && -27648 <= s.a[0] <= 27648
    ensures (s.pk[0] == 1 || s.pk[0] == -1) && (s.pk[1] == 1 || s.pk[1] == -1)
    ensures var a, q := Step(r, s, code).a, Polarity(r, s, code);
            && |a| == 2 && -12288 <= a[1] <= 12288
            && a[1] == AdaptA1(s.a[0], s.a[1], s.pk[0], s.pk[1], q) && a[0] == AdaptA0(s.a[0], a[1], s.pk[0], q)
  {
    hide Step, Difference, InverseQuant, Transition, AdaptA0, AdaptA1, I2F, Polarity;
    StepFields(r, s, code);
    hide Reconstructed, ShiftedDq, ScaledSpeed, AdaptAp, FastScale, SlowScale, MixedScale, AdaptedB;
    hide ZeroSum, PoleSum;
  }

  /**
   A transition is a tone latched before and a magnitude above three quarters of the threshold: the
   antilogarithm of the slow scale factor, linear between powers of two and held above two to the tenth.
   */
  lemma TransitionMeans(r: Rate, s: State, code: int32)
    requires ScaleInRange(s) && IsCode(r, code)
    ensures var n, t := s.yl as int / 32768, Threshold(s.yl) as int;
            && (Transits(r, s, code) <==> s.td == 1 && 4 * (InverseQuant(r, s.y, code) as int) > 3 * t)
            && (n > 9 ==> t == 31744)
            && (n <= 9 ==> 1024 * t <= Pow2(n) * (s.yl as int % 32768 + 32768) < 1024 * (t + Pow2(n)))
  {
    ThresholdMeans(s.yl);
    hide InverseQuant, IsCode, Threshold;
  }

  lemma ThresholdMeans(yl: int32)
    requires 34816 <= yl <= 327680
    ensures var n, t := yl as int / 32768, Threshold(yl) as int;
            && (n > 9 ==> t == 31744)
            && (n <= 9 ==> 1024 * t <= Pow2(n) * (yl as int % 32768 + 32768) < 1024 * (t + Pow2(n)))
  {
    var y := yl as int;
    var n, x := y / 32768, (y / 1024) % 32;
    if n <= 9 {
      ShlIs(32 + x, n);
      assert Threshold(yl) as int == (32 + x) * Pow2(n);
      hide Threshold;
      Fraction(y);
      LinearIn(Pow2(n), 32 + x, y % 1024);
    }
  }

  lemma Fraction(y: nat)
    ensures y % 32768 == 1024 * ((y / 1024) % 32) + y % 1024
  {
  }

  lemma LinearIn(p: int, m: int, f: int)
    requires p > 0 && 0 <= f < 1024
    ensures 1024 * (m * p) <= p * (1024 * m + f) < 1024 * (m * p + p)
  {
    assert p * (1024 * m + f) == 1024 * (m * p) + p * f;
    assert 0 <= p * f < p * 1024;
  }

  /** A transition clears the predictor and opens the speed control; it needs a tone latched before. */
  lemma TransitionClears(r: Rate, s: State, code: int32)
    requires InRange(s) && IsCode(r, code)
    ensures Transits(r, s, code) ==>
              s.td == 1 && Step(r, s, code).a == [0, 0] && Step(r, s, code).b == [0, 0, 0, 0, 0, 0]
              && Step(r, s, code).ap == 256
    ensures Step(r, s, code).td == 1 <==> Step(r, s, code).a[1] < -11776
  {
    hide Step, Difference, InverseQuant, Threshold, I2F, Polarity;
    StepFields(r, s, code);
    hide Reconstructed, ShiftedDq, ScaledSpeed, FastScale, SlowScale, MixedScale, ZeroSum, PoleSum;
  }

  // ---- the scale factors ---------------------------------------------------

  lemma ScalesAre(r: Rate, s: State, code: int32)
    requires InRange(s) && IsCode(r, code)
    ensures ScaleInRange(s) && 544 <= Step(r, s, code).yu <= 5120
    ensures var t := Step(r, s, code);
            && t.yu == FastScale(r, s.y, code) && t.yl == SlowScale(s.yl, t.yu)
            && t.dms == ScaledSpeed(r, s.dms, code, 32) && t.dml == ScaledSpeed(r, s.dml, code, 128)
  {
    hide Step, Difference, InverseQuant, I2F, Polarity;
    StepFields(r, s, code);
    hide Reconstructed, ShiftedDq, MixedScale, ZeroSum, PoleSum, AdaptedA, AdaptedB, AdaptAp, Transition;
    hide ScaledSpeed, SlowScale;
  }

  lemma FastMeans(r: Rate, y: int32, code: int32)
    requires IsCode(r, code) && 544 <= y <= 5120
    ensures var w := Multipliers(r)[Level(r, code)] as real / 100.0;
            Near(RealOf(FastScale(r, y, code)), Limit(RealOf(y) * 31.0 / 32.0 + 16.0 * w, 544.0, 5120.0), 1.1)
  {
    TablesArePublished(r, code);
    hide Table, Multipliers, Speeds, Quantiser, Level;
  }

  lemma SpeedsMean(r: Rate, d: int32, code: int32, k: int32)
    requires IsCode(r, code) && ((k == 32 && 0 <= d <= 3584) || (k == 128 && 0 <= d <= 14336))
    ensures var f := Speeds(r)[Level(r, code)] as real;
            && (k == 32 ==> Near(RealOf(ScaledSpeed(r, d, code, k)), RealOf(d) * 31.0 / 32.0 + 16.0 * f, 1.0))
            && (k == 128 ==> Near(RealOf(ScaledSpeed(r, d, code, k)), RealOf(d) * 127.0 / 128.0 + 16.0 * f, 1.0))
  {
    TablesArePublished(r, code);
    hide Table, Multipliers, Speeds, Quantiser, Level;
  }

  /**
   The scale factors and the averages behind the speed control: each leaks by its share and is fed by
   the tables, the fast one within its limits.
   */
  lemma ScalesMove(r: Rate, s: State, code: int32)
    requires InRange(s) && IsCode(r, code)
    ensures var t, l := Step(r, s, code), Level(r, code);
            var w, f := Multipliers(r)[l] as real / 100.0, Speeds(r)[l] as real;
            && Near(RealOf(t.yu), Limit(RealOf(s.y) * 31.0 / 32.0 + 16.0 * w, 544.0, 5120.0), 1.1)
            && Near(RealOf(t.yl), RealOf(s.yl) * 63.0 / 64.0 + RealOf(t.yu), 1.0)
            && Near(RealOf(t.dms), RealOf(s.dms) * 31.0 / 32.0 + 16.0 * f, 1.0)
            && Near(RealOf(t.dml), RealOf(s.dml) * 127.0 / 128.0 + 16.0 * f, 1.0)
  {
    hide InRange, IsCode, Step, Limit, Multipliers, Speeds, Level, FastScale, ScaledSpeed;
    ScalesAre(r, s, code);
    FastMeans(r, s.y, code);
    SpeedsMean(r, s.dms, code, 32);
    SpeedsMean(r, s.dml, code, 128);
  }

  /** The speed: it leaks by a sixteenth, and is pushed when the signal is small, changes fast or is a tone. */
  lemma SpeedMoves(r: Rate, s: State, code: int32)
    requires InRange(s) && IsCode(r, code) && !Transits(r, s, code)
    ensures var t := Step(r, s, code);
            var fast := s.y < 1536 || t.td == 1 || Abs32(4 * t.dms - t.dml) >= t.dml / 8;
            Near(RealOf(t.ap), RealOf(s.ap) * 15.0 / 16.0 + (if fast then 32.0 else 0.0), 1.0)
  {
    hide Step, Difference, InverseQuant, I2F, Polarity, Transition;
    StepFields(r, s, code);
    hide Reconstructed, ShiftedDq, MixedScale, ZeroSum, PoleSum, AdaptedA, AdaptedB, ScaledSpeed, FastScale, SlowScale;
  }

  /** The share of the fast scale factor in the mixture, in 64ths. */
  function Share(ap: int32): int
  {
    if ap >= 256 then 64 else ap as int / 4
  }

  /** The mixture of two scale factors with `share` 64ths of the first. */
  function Mixed(share: int, fast: real, slow: real): real
  {
    share as real / 64.0 * fast + (1.0 - share as real / 64.0) * slow
  }

  lemma MixtureMeans(yu: int32, yl: int32, al: int32, share: int)
    requires 544 <= yu <= 5120 && 34816 <= yl <= 327680 && 0 <= al <= 64 && al as int == share
    ensures Near(RealOf(MixedScale(yu, yl, al)), Mixed(share, RealOf(yu), RealOf(yl) / 64.0), 2.0)
  {
    MixBounds(yu as int, yl as int, al as int);
    var q := yl as int / 64;
    var x := (yu as int - q) * share;
    var y := (yl as int + x) / 64;
    assert MixedScale(yu, yl, al) as int == y;
    var k, f := share as real / 64.0, yl as int as real / 64.0 - q as real;
    assert 0.0 <= f < 1.0;
    assert x as real == (RealOf(yu) - q as real) * share as real;
    assert x as real / 64.0 == k * (RealOf(yu) - q as real);
    Spread(k, RealOf(yu), q as real, f);
  }

  lemma Spread(k: real, a: real, q: real, f: real)
    requires 0.0 <= k <= 1.0 && 0.0 <= f < 1.0
    ensures k * (a - q) == k * a - k * (q + f) + k * f
    ensures 0.0 <= k * f <= 1.0
  {
    if k > 0.0 {
      assert k * f <= k * 1.0;
    }
  }

  lemma MixtureMoves(r: Rate, s: State, code: int32)
    requires InRange(s) && IsCode(r, code)
    ensures var t := Step(r, s, code);
            Near(RealOf(t.y), Mixed(Share(t.ap), RealOf(t.yu), RealOf(t.yl) / 64.0), 2.0)
  {
    hide InRange, IsCode, Step, MixedScale, SpeedFactor, Share, Mixed;
    MixtureIs(r, s, code);
    var t := Step(r, s, code);
    MixtureMeans(t.yu, t.yl, SpeedFactor(t.ap), Share(t.ap));
  }

  lemma MixtureIs(r: Rate, s: State, code: int32)
    requires InRange(s) && IsCode(r, code)
    ensures var t := Step(r, s, code);
            && 544 <= t.yu <= 5120 && 34816 <= t.yl <= 327680 && 0 <= t.ap <= 512
            && SpeedFactor(t.ap) as int == Share(t.ap)
            && t.y == MixedScale(t.yu, t.yl, SpeedFactor(t.ap))
  {
    hide Step, Difference, InverseQuant, I2F, Polarity, Transition, MixedScale;
    StepFields(r, s, code);
    hide Reconstructed, ShiftedDq, ZeroSum, PoleSum, AdaptedA, AdaptedB, ScaledSpeed, FastScale, SlowScale, AdaptAp;
  }
}
