/**
 The decoder against ITU-T Recommendation G.726: the formulas of its section on the decoder, over real
 numbers and with its tables as published, and how closely the integer step follows them.
 Units: coefficients in 16384ths, scale factors in 512ths (the slow one in 32768ths), the speed control
 in 256ths, its averages in 512ths and 2048ths.
 */
module G726Reference {
  import opened Bits
  import opened G726
  import opened G726Decoder

  // ---- codewords -----------------------------------------------------------

  /** Half the codewords: those below reconstruct upwards, the others downwards. */
  function Half(r: Rate): (h: nat)
    ensures 2 * h == Pow2(Table(r).bits)
    ensures h == match r case Rate16 => 2 case Rate24 => 4 case Rate32 => 8 case Rate40 => 16
  {
    Pow2Values();
    match r case Rate16 => 2 case Rate24 => 4 case Rate32 => 8 case Rate40 => 16
  }

  predicate Downwards(r: Rate, code: int32) requires IsCode(r, code) { code as int >= Half(r) }

  /** The quantiser level, counted from the middle. */
  function Level(r: Rate, code: int32): (l: nat)
    requires IsCode(r, code)
    ensures l < Half(r)
  {
    if Downwards(r, code) then 2 * Half(r) - 1 - code as int else code as int
  }

  /** The codeword of the same level on the other side. */
  function Mirror(r: Rate, code: int32): (c: int32)
    requires IsCode(r, code)
    ensures IsCode(r, c) && Level(r, c) == Level(r, code) && (Downwards(r, c) <==> !Downwards(r, code))
  {
    (2 * Half(r) - 1 - code as int) as int32
  }

  // ---- the published tables ------------------------------------------------

  /**
   Tables of the recommendation by level: log2 of the quantiser level above the scale factor in
   thousandths, the multipliers W in hundredths, the weights F.  Level 0 of the three wider quantisers
   is no level at all: its logarithm is minus infinity.
   */
  const Log16: seq<int> := [910, 2850]
  const Log24: seq<int> := [0, 1050, 2130, 2910]
  const Log32: seq<int> := [0, 31, 1050, 1660, 2130, 2520, 2910, 3320]
  const Log40: seq<int> :=
    [0, -520, 220, 810, 1320, 1750, 2140, 2480, 2800, 3090, 3350, 3590, 3810, 4020, 4210, 4420]

  const Multiplier16: seq<int> := [-138, 2744]
  const Multiplier24: seq<int> := [-25, 188, 856, 3638]
  const Multiplier32: seq<int> := [-75, 113, 256, 400, 700, 1238, 2219, 7013]
  const Multiplier40: seq<int> :=
    [88, 88, 150, 244, 250, 256, 363, 625, 881, 1119, 1369, 1750, 2238, 2750, 3306, 4350]

  const Speed16: seq<int> := [0, 7]
  const Speed24: seq<int> := [0, 1, 2, 7]
  const Speed32: seq<int> := [0, 0, 0, 1, 1, 1, 3, 7]
  const Speed40: seq<int> := [0, 0, 0, 0, 0, 1, 1, 1, 1, 1, 2, 3, 4, 5, 6, 6]

  function Quantiser(r: Rate): (t: seq<int>)
    ensures |t| == Half(r)
  {
    match r case Rate16 => Log16 case Rate24 => Log24 case Rate32 => Log32 case Rate40 => Log40
  }

  function Multipliers(r: Rate): (t: seq<int>)
    ensures |t| == Half(r)
  {
    match r
    case Rate16 => Multiplier16
    case Rate24 => Multiplier24
    case Rate32 => Multiplier32
    case Rate40 => Multiplier40
  }

  function Speeds(r: Rate): (t: seq<int>)
    ensures |t| == Half(r)
  {
    match r case Rate16 => Speed16 case Rate24 => Speed24 case Rate32 => Speed32 case Rate40 => Speed40
  }

  predicate NoLevel(r: Rate, l: nat) { l == 0 && r != Rate16 }

  /** A table of both signs, read from the outside in, is one by level. */
  predicate Folded(table: seq<int32>, l: nat)
  {
    2 * l < |table| && table[l] == table[|table| - 1 - l]
  }

  predicate RowIs(r: Rate, iquant: seq<int32>, w: seq<int32>, f: seq<int32>, l: nat)
  {
    && l < Half(r) && |iquant| == |w| == |f| == 2 * Half(r)
    && Folded(iquant, l) && Folded(w, l) && Folded(f, l)
    && (if NoLevel(r, l) then iquant[l] == ZeroLevel
        else -700 <= 1000 * (iquant[l] as int) - 128 * Quantiser(r)[l] <= 700)
    && -10 <= 100 * (w[l] as int) - 16 * Multipliers(r)[l] <= 10
    && f[l] as int == Speeds(r)[l]
  }

  lemma Row16(l: nat)
    requires l < 2
    ensures RowIs(Rate16, Table16.iquant, Table16.w, Table16.f, l)
  {
  }

  lemma Row24(l: nat)
    requires l < 4
    ensures RowIs(Rate24, Table24.iquant, Table24.w, Table24.f, l)
  {
  }

  lemma Quantiser32(l: nat)
    requires l < 8
    ensures |Table32.iquant| == 16 && Folded(Table32.iquant, l)
    ensures if l == 0 then Table32.iquant[l] == ZeroLevel
            else -700 <= 1000 * (Table32.iquant[l] as int) - 128 * Log32[l] <= 700
  {
  }

  lemma Multiplier32Is(l: nat)
    requires l < 8
    ensures |Table32.w| == 16 && Folded(Table32.w, l)
    ensures -10 <= 100 * (Table32.w[l] as int) - 16 * Multiplier32[l] <= 10
  {
  }

  lemma Speed32Is(l: nat)
    requires l < 8
    ensures |Table32.f| == 16 && Folded(Table32.f, l) && Table32.f[l] as int == Speed32[l]
  {
  }

  lemma Row32(l: nat)
    requires l < 8
    ensures RowIs(Rate32, Table32.iquant, Table32.w, Table32.f, l)
  {
    hide Folded, Log32, Multiplier32, Speed32;
    Quantiser32(l);
    Multiplier32Is(l);
    Speed32Is(l);
  }

  lemma Quantiser40(l: nat)
    requires l < 16
    ensures |Iquant40| == 32 && Folded(Iquant40, l)
    ensures if l == 0 then Iquant40[l] == ZeroLevel else -700 <= 1000 * (Iquant40[l] as int) - 128 * Log40[l] <= 700
  {
  }

  lemma Multiplier40Is(l: nat)
    requires l < 16
    ensures |W40| == 32 && Folded(W40, l)
    ensures -10 <= 100 * (W40[l] as int) - 16 * Multiplier40[l] <= 10
  {
  }

  lemma Speed40Is(l: nat)
    requires l < 16
    ensures |F40| == 32 && Folded(F40, l) && F40[l] as int == Speed40[l]
  {
  }

  lemma Row40(l: nat)
    requires l < 16
    ensures RowIs(Rate40, Iquant40, W40, F40, l)
  {
    hide Folded, Iquant40, W40, F40, Log40, Multiplier40, Speed40;
    Quantiser40(l);
    Multiplier40Is(l);
    Speed40Is(l);
  }

  function RealOf(x: int32): real { x as int as real }

  predicate Near(x: real, exact: real, err: real) { -err <= x - exact <= err }

  /** What the decoder's tables hold for a codeword: the published values of its level, rounded. */
  predicate AsPublished(r: Rate, code: int32)
    requires IsCode(r, code)
  {
    var l := Level(r, code);
    && (if NoLevel(r, l) then Table(r).iquant[code] == ZeroLevel
        else -700 <= 1000 * (Table(r).iquant[code] as int) - 128 * Quantiser(r)[l] <= 700)
    && -10 <= 100 * (Table(r).w[code] as int) - 16 * Multipliers(r)[l] <= 10
    && Table(r).f[code] as int == Speeds(r)[l]
  }

  lemma RowPublished(r: Rate, code: int32)
    requires IsCode(r, code) && RowIs(r, Table(r).iquant, Table(r).w, Table(r).f, Level(r, code))
    ensures AsPublished(r, code)
  {
    hide Table, Quantiser, Multipliers, Speeds;
  }

  /** The decoder's tables hold the published rows, for both signs. */
  lemma Rows(r: Rate, l: nat)
    requires l < Half(r)
    ensures RowIs(r, Table(r).iquant, Table(r).w, Table(r).f, l)
  {
    hide RowIs;
    match r
    case Rate16 => Row16(l);
    case Rate24 => Row24(l);
    case Rate32 => Row32(l);
    case Rate40 => Row40(l);
  }

  /** So every codeword has the entries of its level. */
  lemma TablesArePublished(r: Rate, code: int32)
    requires IsCode(r, code)
    ensures AsPublished(r, code)
  {
    hide Table, Quantiser, Multipliers, Speeds, Half;
    Rows(r, Level(r, code));
    RowPublished(r, code);
  }
}
