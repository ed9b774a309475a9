/**
 The ITU-T G.726 ADPCM decoder.  All state and every intermediate value is an
 `int32`, so verifying the step function is the proof that the decoder's 32-bit
 arithmetic never overflows; the two deliberate truncations to 16 bits are `Wrap16`.
 An arithmetic shift right by k is division by 2^k (rounding towards minus infinity).
 */
module G726 {
  import opened Bits

  newtype int32 = x: int | -0x8000_0000 <= x < 0x8000_0000

  type int16 = x: int32 | -32768 <= x <= 32767

  /** Conversion to a 16-bit integer: two's-complement wrap-around, not saturation. */
  function Wrap16(x: int32): (r: int16)
    ensures (x as int - r as int) % 65536 == 0
  {
    (((x as int + 32768) % 65536) - 32768) as int32
  }

  function Clip(v: int32, lo: int32, hi: int32): (r: int32)
    requires lo <= hi
    ensures lo <= r <= hi
    ensures lo <= v <= hi ==> r == v
  {
    if v < lo then lo else if v > hi then hi else v
  }

  function Sgn(v: int32): int32 { if v < 0 then -1 else 1 }

  function Abs32(v: int32): int32
    requires v != -0x8000_0000
  {
    if v < 0 then -v else v
  }

  // ---- rate tables ---------------------------------------------------------

  datatype Rate = Rate16 | Rate24 | Rate32 | Rate40

  datatype RateTable = RateTable(bits: nat, iquant: seq<int32>, w: seq<int32>, f: seq<int32>)

  const ZeroLevel: int32 := -32768

  predicate TableOk(t: RateTable)
  {
    && 2 <= t.bits <= 5
    && |t.iquant| == |t.w| == |t.f| == Pow2(t.bits)
    && (forall c :: 0 <= c < |t.iquant| ==> -32768 <= t.iquant[c] <= 566)
    && (forall c :: 0 <= c < |t.w| ==> -22 <= t.w[c] <= 1122)
    && (forall c :: 0 <= c < |t.f| ==> 0 <= t.f[c] <= 7)
  }

  const Table16 := RateTable(2, [116, 365, 365, 116], [-22, 439, 439, -22], [0, 7, 7, 0])

  const Table24 := RateTable(
                     3,
                     [ZeroLevel, 135, 273, 373, 373, 273, 135, ZeroLevel],
                     [-4, 30, 137, 582, 582, 137, 30, -4],
                     [0, 1, 2, 7, 7, 2, 1, 0])

  const Table32 := RateTable(
                     4,
                     [ZeroLevel, 4, 135, 213, 273, 323, 373, 425, 425, 373, 323, 273, 213, 135, 4, ZeroLevel],
                     [-12, 18, 41, 64, 112, 198, 355, 1122, 1122, 355, 198, 112, 64, 41, 18, -12],
                     [0, 0, 0, 1, 1, 1, 3, 7, 7, 3, 1, 1, 1, 0, 0, 0])

  const Iquant40: seq<int32> :=
    [ZeroLevel, -66, 28, 104, 169, 224, 274, 318, 358, 395, 429, 459, 488, 514, 539, 566]
    + [566, 539, 514, 488, 459, 429, 395, 358, 318, 274, 224, 169, 104, 28, -66, ZeroLevel]

  const W40: seq<int32> :=
    [14, 14, 24, 39, 40, 41, 58, 100, 141, 179, 219, 280, 358, 440, 529, 696]
    + [696, 529, 440, 358, 280, 219, 179, 141, 100, 58, 41, 40, 39, 24, 14, 14]

  const F40: seq<int32> :=
    [0, 0, 0, 0, 0, 1, 1, 1, 1, 1, 2, 3, 4, 5, 6, 6]
    + [6, 6, 5, 4, 3, 2, 1, 1, 1, 1, 1, 0, 0, 0, 0, 0]

  const Table40 := RateTable(5, Iquant40, W40, F40)

  lemma Table16Ok()
    ensures TableOk(Table16)
  {
    Pow2Values();
  }

  lemma Table24Ok()
    ensures TableOk(Table24)
  {
    Pow2Values();
  }

  lemma Table32Ok()
    ensures TableOk(Table32)
  {
    Pow2Values();
  }

  lemma Iquant40Ok()
    ensures forall c :: 0 <= c < |Iquant40| ==> -32768 <= Iquant40[c] <= 566
  {
  }

  lemma W40Ok()
    ensures forall c :: 0 <= c < |W40| ==> -22 <= W40[c] <= 1122
  {
  }

  lemma F40Ok()
    ensures forall c :: 0 <= c < |F40| ==> 0 <= F40[c] <= 7
  {
  }

  lemma Table40Ok()
    ensures TableOk(Table40)
  {
    Iquant40Ok();
    W40Ok();
    F40Ok();
    Pow2Values();
  }

  function Table(r: Rate): (t: RateTable)
    ensures TableOk(t)
  {
    match r
    case Rate16 => Table16Ok(); Table16
    case Rate24 => Table24Ok(); Table24
    case Rate32 => Table32Ok(); Table32
    case Rate40 => Table40Ok(); Table40
  }

  predicate IsCode(r: Rate, code: int32)
  {
    0 <= code as int < Pow2(Table(r).bits)
  }

  // ---- the internal floating-point form ------------------------------------

  datatype Float11 = Float11(sign: int32, exp: int32, mant: int32)

  /** A float whose exponent is at most `e`; the mantissa is always normalised. */
  predicate FloatOk(f: Float11, e: int32)
  {
    (f.sign == 0 || f.sign == 1) && 0 <= f.exp <= e && 32 <= f.mant <= 63
  }

  /** Number of significant bits. */
  function Len32(v: nat): (n: nat)
    ensures v < Pow2(n)
    ensures 0 < v ==> 0 < n && Pow2(n - 1) <= v
  {
    if v == 0 then 0 else 1 + Len32(v / 2)
  }

  lemma {:induction false} Len32Bound(v: nat, e: nat)
    requires v < Pow2(e)
    ensures Len32(v) <= e
  {
    if 0 < v {
      Len32Bound(v / 2, e - 1);
    }
  }

  /** The normalised mantissa of a positive value with `e` significant bits. */
  function Mantissa(v: int32, e: nat): (m: int32)
    requires 0 < v <= 32768 && 0 < e && Pow2(e - 1) <= v as int < Pow2(e)
    ensures 32 <= m <= 63
    ensures Shl(m as int, e) <= Shl(v as int, 6) < Shl(m as int + 1, e)
  {
    MantissaBounds(v as int, e);
    Shr(Shl(v as int, 6), e) as int32
  }

  lemma ShlSix(v: int)
    ensures Shl(v, 6) == 64 * v
  {
    assert Shl(v, 1) == 2 * Shl(v, 0) && Shl(v, 2) == 2 * Shl(v, 1) && Shl(v, 3) == 2 * Shl(v, 2);
    assert Shl(v, 4) == 2 * Shl(v, 3) && Shl(v, 5) == 2 * Shl(v, 4);
  }

  lemma MantissaBounds(v: nat, e: nat)
    requires 0 < e && Pow2(e - 1) <= v < Pow2(e)
    ensures var m := Shr(Shl(v, 6), e); 32 <= m <= 63 && Shl(m, e) <= Shl(v, 6) < Shl(m + 1, e)
  {
    ShlSix(v);
    ShlOne(e);
    ShlShl(1, e, 6);
    ShlShl(1, 5, e);
    ShlShl(1, 6, e);
    assert Shl(1, 5) == 32 && Shl(1, 6) == 64;
    ShlSix(Pow2(e));
    assert Shl(32, e) == Shl(1, e + 5) && Shl(64, e) == 64 * Pow2(e) == 2 * Shl(32, e);
    ShrBetween(32, 64 * v, 64, e);
  }

  /** A right shift brackets its argument, and lies between bounds that are themselves shifted. */
  lemma {:induction false} ShrBetween(lo: int, x: int, hi: int, n: nat)
    requires Shl(lo, n) <= x < Shl(hi, n)
    ensures lo <= Shr(x, n) < hi
    ensures Shl(Shr(x, n), n) <= x < Shl(Shr(x, n) + 1, n)
    decreases n
  {
    if 0 < n {
      ShrBetween(lo, x / 2, hi, n - 1);
    }
  }

  function I2F(i: int32): (f: Float11)
    requires -32768 <= i <= 32768
    ensures FloatOk(f, 16)
  {
    if i == 0 then Float11(0, 0, 32) else
      var v := Abs32(i);
      var e := Len32(v as int);
      Pow2Values();
      Len32Bound(v as int, 16);
      Float11(if i < 0 then 1 else 0, e as int32, Mantissa(v, e))
  }

  /** The conversion keeps the sign and the leading six bits of the magnitude, normalised. */
  lemma I2FNormalised(i: int32)
    requires -32768 <= i <= 32768
    ensures var f, v := I2F(i), Abs32(i) as int;
            if i == 0 then f == Float11(0, 0, 32) else
              && f.sign == (if i < 0 then 1 else 0)
              && 0 < f.exp
              && Pow2(f.exp as int - 1) <= v < Pow2(f.exp as int)
              && Shl(f.mant as int, f.exp as int) <= Shl(v, 6) < Shl(f.mant as int + 1, f.exp as int)
  {
    hide Mantissa, Pow2, Shl;
  }

  lemma I2FExponent(i: int32, e: nat)
    requires -32768 <= i <= 32768 && Abs32(i) as int < Pow2(e)
    ensures I2F(i).exp as int <= e
  {
    Len32Bound(Abs32(i) as int, e);
  }

  /** The exponent really reaches 16, for the most negative 16-bit signal. */
  lemma ExponentSixteen()
    ensures I2F(-32768).exp == 16
  {
    hide Len32, Mantissa;
    Pow2Values();
    Len32Is(32768, 16);
  }

  lemma {:induction false} Len32Is(v: nat, n: nat)
    requires 0 < n && Pow2(n - 1) <= v < Pow2(n)
    ensures Len32(v) == n
  {
    if 1 < n {
      Len32Is(v / 2, n - 1);
    }
  }

  /** Mantissa product of the predictor multiply, before alignment. */
  function MantProduct(m1: int32, m2: int32): (r: int32)
    requires 32 <= m1 <= 63 && 32 <= m2 <= 63
    ensures 67 <= r <= 251
  {
    ProductBounds(m1 as int, m2 as int);
    (m1 * m2 + 0x30) / 16
  }

  lemma ProductBounds(x: int, y: int)
    requires 32 <= x <= 63 && 32 <= y <= 63
    ensures 1024 <= x * y <= 3969
  {
    assert 32 * y <= x * y <= 63 * y;
  }

  /** The product aligned by the exponent sum: a left shift above 19, a right shift below. */
  function AlignedProduct(r: int32, exp: int32): (v: int32)
    requires 0 <= r <= 251 && 0 <= exp <= 30
    ensures 0 <= v <= 251 * 2048
  {
    if exp > 19 then
      ShlWider(r as int, (exp - 19) as int, 11);
      ShlEleven(r as int);
      Shl(r as int, (exp - 19) as int) as int32
    else
      Shr(r as int, (19 - exp) as int) as int32
  }

  lemma ShlEleven(v: int)
    ensures Shl(v, 11) == 2048 * v
  {
    ShlSix(v);
    ShlShl(v, 6, 5);
    var w := Shl(v, 6);
    assert Shl(w, 1) == 2 * w && Shl(w, 2) == 2 * Shl(w, 1) && Shl(w, 3) == 2 * Shl(w, 2);
    assert Shl(w, 4) == 2 * Shl(w, 3) && Shl(w, 5) == 2 * Shl(w, 4);
  }

  function Mult(f1: Float11, f2: Float11): int16
    requires FloatOk(f1, 14) && FloatOk(f2, 16)
  {
    var res := AlignedProduct(MantProduct(f1.mant, f2.mant), f1.exp + f2.exp);
    Wrap16(if f1.sign != f2.sign then -res else res)
  }

  // ---- decoder state -------------------------------------------------------

  datatype State = State(
    sr: seq<Float11>, dq: seq<Float11>, a: seq<int32>, b: seq<int32>, pk: seq<int32>,
    ap: int32, yu: int32, yl: int32, dms: int32, dml: int32, td: int32,
    se: int32, sez: int32, y: int32)

  const ZeroFloat := Float11(0, 0, 32)

  const Initial := State(
                     [ZeroFloat, ZeroFloat],
                     [ZeroFloat, ZeroFloat, ZeroFloat, ZeroFloat, ZeroFloat, ZeroFloat],
                     [0, 0], [0, 0, 0, 0, 0, 0], [1, 1],
                     0, 544, 34816, 0, 0, 0, 0, 0, 544)

  predicate PredictorInRange(a: seq<int32>, b: seq<int32>)
  {
    && |a| == 2 && |b| == 6
    && -12288 <= a[1] <= 12288
    && -(15360 - a[1]) <= a[0] <= 15360 - a[1]
    && forall i :: 0 <= i < 6 ==> -32768 <= b[i] <= 32768
  }

  predicate HistoryInRange(sr: seq<Float11>, dq: seq<Float11>, pk: seq<int32>)
  {
    && |sr| == 2 && |dq| == 6 && |pk| == 2
    && (forall i :: 0 <= i < 2 ==> FloatOk(sr[i], 16))
    && (forall i :: 0 <= i < 6 ==> FloatOk(dq[i], 15))
    && (pk[0] == 1 || pk[0] == -1) && (pk[1] == 1 || pk[1] == -1)
  }

  predicate ScaleInRange(s: State)
  {
    && 0 <= s.ap <= 512
    && 544 <= s.yu <= 5120 && 34816 <= s.yl <= 327680 && 544 <= s.y <= 5120
    && 0 <= s.dms <= 3584 && 0 <= s.dml <= 14336
    && (s.td == 0 || s.td == 1)
    && -131072 <= s.se <= 131072 && -98304 <= s.sez <= 98304
  }

  /** The range invariant that makes every 32-bit operation of a step safe. */
  predicate InRange(s: State)
  {
    PredictorInRange(s.a, s.b) && HistoryInRange(s.sr, s.dq, s.pk) && ScaleInRange(s)
  }

  // ---- one decoding step ---------------------------------------------------

  /** Index into the inverse quantiser plus the log scale, before the antilog. */
  function LogDifference(r: Rate, y: int32, code: int32): (v: int32)
    requires IsCode(r, code) && 544 <= y <= 5120
    ensures v <= 1846
  {
    Table(r).iquant[code as int] + y / 4
  }

  /** (m << e) >> 7 for a 7-bit mantissa with its hidden one. */
  function Antilog(m: int, e: nat): (v: int)
    requires 128 <= m <= 255 && e <= 14
    ensures 0 <= v <= 32640
  {
    ShlWider(m, e, 14);
    ShlEleven(m);
    ShlShl(m, 11, 3);
    assert Shl(Shl(m, 11), 3) == 8 * Shl(m, 11) by {
      var w := Shl(m, 11);
      assert Shl(w, 1) == 2 * w && Shl(w, 2) == 2 * Shl(w, 1);
    }
    Shl(m, e) / 128
  }

  /** Magnitude of the reconstructed difference. */
  function InverseQuant(r: Rate, y: int32, code: int32): (dq: int32)
    requires IsCode(r, code) && 544 <= y <= 5120
    ensures 0 <= dq <= 32640
  {
    var dql := LogDifference(r, y, code) as int;
    if dql < 0 then 0 else Antilog(128 + dql % 128, (dql / 128) % 16) as int32
  }

  /** The 4-bit exponent mask of the inverse quantiser never discards a bit. */
  lemma ExponentMaskIsIdentity(r: Rate, y: int32, code: int32)
    requires IsCode(r, code) && 544 <= y <= 5120
    ensures var dql := LogDifference(r, y, code);
            0 <= dql ==> (dql / 128) % 16 == dql / 128 <= 14
  {
  }

  function Threshold(yl: int32): (t: int32)
    requires 34816 <= yl <= 327680
    ensures 0 <= t <= 129024
  {
    var ylint := yl / 32768;
    var ylfrac := (yl / 1024) % 32;
    if ylint > 9 then 31 * 1024 else
      ShlWider(32 + ylfrac as int, ylint as int, 11);
      ShlEleven(32 + ylfrac as int);
      Shl(32 + ylfrac as int, ylint as int) as int32
  }

  function Transition(s: State, mag: int32): bool
    requires ScaleInRange(s) && 0 <= mag <= 32640
  {
    s.td == 1 && mag > (3 * Threshold(s.yl)) / 4
  }

  function SignBit(r: Rate, code: int32): (b: int32)
    requires IsCode(r, code)
    ensures b == 0 || b == 1
  {
    assert Pow2(Table(r).bits) == 2 * Pow2(Table(r).bits - 1);
    if (code as int) < Pow2(Table(r).bits - 1) then 0 else 1
  }

  /** The signed difference of a codeword. */
  function Difference(r: Rate, s: State, code: int32): (dq: int32)
    requires ScaleInRange(s) && IsCode(r, code)
    ensures -32640 <= dq <= 32640
  {
    var mag := InverseQuant(r, s.y, code);
    if SignBit(r, code) != 0 then -mag else mag
  }

  function SgnOrZero(v: int32): (r: int32)
    ensures r == -1 || r == 0 || r == 1
  {
    if v != 0 then Sgn(v) else 0
  }

  /** -a * p * q for sign factors p and q. */
  function SignedCoefficient(a: int32, p: int32, q: int32): (r: int32)
    requires -27648 <= a <= 27648 && (p == 1 || p == -1) && (q == -1 || q == 0 || q == 1)
    ensures -27648 <= r <= 27648
  {
    -a * p * q
  }

  function AdaptA1(a0: int32, a1: int32, pk0: int32, pk1: int32, q: int32): (r: int32)
    requires -12288 <= a1 <= 12288 && -27648 <= a0 <= 27648
    requires (pk0 == 1 || pk0 == -1) && (pk1 == 1 || pk1 == -1) && (q == -1 || q == 0 || q == 1)
    ensures -12288 <= r <= 12288
  {
    var fa1 := Clip(SignedCoefficient(a0, pk0, q) / 32, -256, 255);
    var inc := 128 * q * pk1;
    assert -128 <= inc <= 128;
    Clip(a1 + (inc + fa1 - a1 / 128), -12288, 12288)
  }

  function AdaptA0(a0: int32, a1: int32, pk0: int32, q: int32): (r: int32)
    requires -12288 <= a1 <= 12288 && -27648 <= a0 <= 27648
    requires (pk0 == 1 || pk0 == -1) && (q == -1 || q == 0 || q == 1)
    ensures -(15360 - a1) <= r <= 15360 - a1
  {
    var inc := 64 * 3 * q * pk0;
    assert -192 <= inc <= 192;
    var lim := 15360 - a1;
    Clip(a0 + (inc - a0 / 256), -lim, lim)
  }

  function AdaptB(b: int32, dq0: int32, dqSign: int32): (r: int32)
    requires -32768 <= b <= 32768 && (dq0 == -1 || dq0 == 0 || dq0 == 1) && (dqSign == 0 || dqSign == 1)
    ensures -32768 <= r <= 32768
  {
    b + (128 * dq0 * Sgn(-dqSign) - b / 256)
  }

  function AdaptedA(s: State, pk0: int32, tr: bool): (a: seq<int32>)
    requires InRange(s) && (pk0 == -1 || pk0 == 0 || pk0 == 1)
    ensures |a| == 2 && -12288 <= a[1] <= 12288 && -(15360 - a[1]) <= a[0] <= 15360 - a[1]
  {
    if tr then [0, 0] else
      var a1 := AdaptA1(s.a[0], s.a[1], s.pk[0], s.pk[1], pk0);
      [AdaptA0(s.a[0], a1, s.pk[0], pk0), a1]
  }

  function AdaptedB(s: State, dq0: int32, tr: bool): (b: seq<int32>)
    requires InRange(s) && (dq0 == -1 || dq0 == 0 || dq0 == 1)
    ensures |b| == 6 && forall i :: 0 <= i < 6 ==> -32768 <= b[i] <= 32768
  {
    if tr then [0, 0, 0, 0, 0, 0] else
      seq(6, i requires 0 <= i < 6 => AdaptB(s.b[i], dq0, s.dq[i].sign))
  }

  function AdaptAp(ap: int32, y: int32, dms: int32, dml: int32, td: int32, tr: bool): (ap': int32)
    requires 0 <= ap <= 512 && 0 <= dms <= 3584 && 0 <= dml <= 14336
    ensures 0 <= ap' <= 512
  {
    if tr then 256 else
      var leaked := ap + (-ap) / 16;
      if y <= 1535 || td != 0 || Abs32(dms * 4 - dml) >= dml / 8 then leaked + 0x20 else leaked
  }

  function SpeedFactor(ap: int32): (al: int32)
    requires 0 <= ap <= 512
    ensures 0 <= al <= 64
  {
    if ap >= 256 then 64 else ap / 4
  }

  /** The mixed scale factor: a convex combination of the fast and the slow one. */
  function MixedScale(yu: int32, yl: int32, al: int32): (y: int32)
    requires 544 <= yu <= 5120 && 34816 <= yl <= 327680 && 0 <= al <= 64
    ensures 544 <= y <= 5120
  {
    var q := yl / 64;
    assert 544 <= q <= 5120;
    MixBounds(yu as int, yl as int, al as int);
    (yl + (yu - q) * al) / 64
  }

  lemma ScaledBounds(lo: int, x: int, hi: int, k: int)
    requires lo <= x <= hi && 0 <= k
    ensures lo * k <= x * k <= hi * k
  {
  }

  lemma MixBounds(yu: int, yl: int, al: int)
    requires 544 <= yu <= 5120 && 34816 <= yl <= 327680 && 0 <= al <= 64
    ensures -4576 * 64 <= (yu - yl / 64) * al <= 4576 * 64
    ensures 544 * 64 <= yl + (yu - yl / 64) * al < 5121 * 64
  {
    var q := yl / 64;
    var r := yl - 64 * q;
    assert 0 <= r < 64;
    ScaledBounds(-4576, yu - q, 4576, al);
    ScaledBounds(544, yu, 5120, al);
    ScaledBounds(544, q, if q == 5120 then 5120 else 5119, 64 - al);
    assert (yu - q) * al == yu * al - q * al;
    assert q * (64 - al) == 64 * q - q * al;
  }

  lemma PowFourteen()
    ensures Pow2(14) == 16384
  {
    assert Pow2(8) == 256;
    assert Pow2(11) == 8 * Pow2(8) && Pow2(14) == 8 * Pow2(11);
  }

  /** Sum of the first `n` zero-predictor products. */
  function ZeroSum(b: seq<int32>, dq: seq<Float11>, n: nat): (r: int32)
    requires |b| == |dq| == 6 && n <= 6
    requires forall i :: 0 <= i < 6 ==> -32768 <= b[i] <= 32768 && FloatOk(dq[i], 15)
    ensures -32768 * n as int32 <= r <= 32768 * n as int32
  {
    if n == 0 then 0 else
      PowFourteen();
      I2FExponent(b[n - 1] / 4, 14);
      ZeroSum(b, dq, n - 1) + Mult(I2F(b[n - 1] / 4), dq[n - 1])
  }

  /** Sum of the first `n` pole-predictor products. */
  function PoleSum(a: seq<int32>, sr: seq<Float11>, n: nat): (r: int32)
    requires |a| == |sr| == 2 && n <= 2
    requires forall i :: 0 <= i < 2 ==> -27648 <= a[i] <= 27648 && FloatOk(sr[i], 16)
    ensures -32768 * n as int32 <= r <= 32768 * n as int32
  {
    if n == 0 then 0 else
      PowFourteen();
      I2FExponent(a[n - 1] / 4, 14);
      PoleSum(a, sr, n - 1) + Mult(I2F(a[n - 1] / 4), sr[n - 1])
  }

  /** The 16-bit sample output for a reconstructed signal. */
  function Pcm(reSignal: int16): int16
  {
    Wrap16(Clip(reSignal * 4, -0xFFFF, 0xFFFF))
  }

  function Reconstructed(r: Rate, s: State, code: int32): int16
    requires InRange(s) && IsCode(r, code)
  {
    Wrap16(s.se + Difference(r, s, code))
  }

  /** Polarity of the partial reconstruction, 0 when it is exactly zero. */
  function Polarity(r: Rate, s: State, code: int32): (v: int32)
    requires InRange(s) && IsCode(r, code)
    ensures v == -1 || v == 0 || v == 1
  {
    SgnOrZero(s.sez + Difference(r, s, code))
  }

  function ScaledSpeed(r: Rate, d: int32, code: int32, k: int32): (d': int32)
    requires IsCode(r, code)
    requires (k == 32 && 0 <= d <= 3584) || (k == 128 && 0 <= d <= 14336)
    ensures k == 32 ==> 0 <= d' <= 3584
    ensures k == 128 ==> 0 <= d' <= 14336
  {
    d + (Table(r).f[code as int] * 16 + (-d) / k)
  }

  function FastScale(r: Rate, y: int32, code: int32): (yu: int32)
    requires IsCode(r, code) && 544 <= y <= 5120
    ensures 544 <= yu <= 5120
  {
    Clip(y + Table(r).w[code as int] + (-y) / 32, 544, 5120)
  }

  function SlowScale(yl: int32, yu: int32): (yl': int32)
    requires 544 <= yu <= 5120 && 34816 <= yl <= 327680
    ensures 34816 <= yl' <= 327680
  {
    yl + (yu + (-yl) / 64)
  }

  function ShiftedDq(r: Rate, s: State, code: int32): (dq: seq<Float11>)
    requires InRange(s) && IsCode(r, code)
    ensures |dq| == 6 && forall i :: 0 <= i < 6 ==> FloatOk(dq[i], 15)
  {
    var d := Difference(r, s, code);
    Pow2Values();
    I2FExponent(d, 15);
    [I2F(d).(sign := SignBit(r, code))] + s.dq[..5]
  }

  /** The predictor and quantiser of the next sample, from one codeword. */
  function Step(r: Rate, s: State, code: int32): (s': State)
    requires InRange(s) && IsCode(r, code)
    ensures InRange(s')
  {
    var tr := Transition(s, InverseQuant(r, s.y, code));
    var pk0 := Polarity(r, s, code);
    var a := AdaptedA(s, pk0, tr);
    var b := AdaptedB(s, SgnOrZero(Difference(r, s, code)), tr);
    var sr := [I2F(Reconstructed(r, s, code)), s.sr[0]];
    var dq := ShiftedDq(r, s, code);
    var pk := [if pk0 != 0 then pk0 else 1, s.pk[0]];
    var td := if a[1] < -11776 then 1 else 0;
    var dms := ScaledSpeed(r, s.dms, code, 32);
    var dml := ScaledSpeed(r, s.dml, code, 128);
    var ap := AdaptAp(s.ap, s.y, dms, dml, td, tr);
    var yu := FastScale(r, s.y, code);
    var yl := SlowScale(s.yl, yu);
    var y := MixedScale(yu, yl, SpeedFactor(ap));
    var sez := ZeroSum(b, dq, 6);
    var se := sez + PoleSum(a, sr, 2);
    assert PredictorInRange(a, b) && HistoryInRange(sr, dq, pk);
    State(sr, dq, a, b, pk, ap, yu, yl, dms, dml, td, se / 2, sez / 2, y)
  }
}
