/**
 The G.726 decoder object: payload unpacking, the sample loop and the in-place state
 update, proved against `G726.Step`; and the properties of whole runs.
 */
module G726Decoder {
  import opened Bits
  import opened G726
  import opened G726Packing

  datatype Option<+T> = None | Some(value: T)

  datatype Error = UnknownBitRate | UnknownPacking | ShortBuffer | IncompletePayload

  // ---- runs of codewords ---------------------------------------------------

  predicate AreCodes(r: Rate, codes: seq<int32>)
  {
    forall i :: 0 <= i < |codes| ==> IsCode(r, codes[i])
  }

  /** The state after a run of codewords; `InRange` is its inductive invariant. */
  function Run(r: Rate, s: State, codes: seq<int32>): (s': State)
    requires InRange(s) && AreCodes(r, codes)
    ensures InRange(s')
    decreases |codes|
  {
    hide Step, InRange, IsCode;
    if codes == [] then s else Run(r, Step(r, s, codes[0]), codes[1..])
  }

  /** The samples of a run of codewords. */
  function Samples(r: Rate, s: State, codes: seq<int32>): (p: seq<int16>)
    requires InRange(s) && AreCodes(r, codes)
    ensures |p| == |codes|
    decreases |codes|
  {
    hide Step, Pcm, Reconstructed, InRange, IsCode;
    if codes == [] then [] else
      [Pcm(Reconstructed(r, s, codes[0]))] + Samples(r, Step(r, s, codes[0]), codes[1..])
  }

  /** Every state reachable from reset, at any bit rate and over any codewords, is in range. */
  lemma ReachableInRange(r: Rate, codes: seq<int32>)
    requires AreCodes(r, codes)
    ensures InRange(Initial) && InRange(Run(r, Initial, codes))
  {
  }

  /** Decoding is a stream function: a run split anywhere gives the same samples and state. */
  lemma {:induction false} RunSplit(r: Rate, s: State, c1: seq<int32>, c2: seq<int32>)
    requires InRange(s) && AreCodes(r, c1) && AreCodes(r, c2)
    ensures AreCodes(r, c1 + c2)
    ensures Run(r, s, c1 + c2) == Run(r, Run(r, s, c1), c2)
    ensures Samples(r, s, c1 + c2) == Samples(r, s, c1) + Samples(r, Run(r, s, c1), c2)
    decreases |c1|
  {
    hide Step, Pcm, Reconstructed, InRange, IsCode;
    if c1 == [] {
      assert c1 + c2 == c2;
    } else {
      assert (c1 + c2)[1..] == c1[1..] + c2;
      RunSplit(r, Step(r, s, c1[0]), c1[1..], c2);
    }
  }

  /** The output saturates nowhere: it equals four times the signal exactly when that fits. */
  lemma PcmExactWhen(reSignal: int16)
    ensures Pcm(reSignal) == 4 * reSignal <==> -8192 <= reSignal <= 8191
    ensures 16384 <= reSignal ==> Pcm(reSignal) == -1
    ensures reSignal <= -16384 ==> Pcm(reSignal) == 1
  {
  }

  // ---- payloads ------------------------------------------------------------

  predicate WholeCodewords(r: Rate, payload: seq<byte>)
  {
    (8 * |payload|) % Table(r).bits == 0
  }

  /** The codewords of a payload, in order. */
  function PayloadCodes(r: Rate, p: Packing, payload: seq<byte>): (codes: seq<int32>)
    ensures |codes| == (8 * |payload|) / Table(r).bits
    ensures AreCodes(r, codes)
  {
    hide Table, WireBits;
    var w := Table(r).bits;
    var raw := CodesIn(p, w, WireBits(p, payload));
    CodesInLength(p, w, WireBits(p, payload));
    Pow2Monotone(w, 5);
    Pow2Values();
    seq(|raw|, i requires 0 <= i < |raw| => raw[i] as int32)
  }

  function Le16(v: int16): (r: seq<byte>)
    ensures |r| == 2
  {
    var u := v as int % 65536;
    [u % 256, u / 256]
  }

  function PcmBytes(samples: seq<int16>): (r: seq<byte>)
    ensures |r| == 2 * |samples|
  {
    if samples == [] then [] else Le16(samples[0]) + PcmBytes(samples[1..])
  }

  lemma {:induction false} PcmBytesConcat(a: seq<int16>, b: seq<int16>)
    ensures PcmBytes(a + b) == PcmBytes(a) + PcmBytes(b)
  {
    if a == [] {
      assert a + b == b;
    } else {
      assert (a + b)[1..] == a[1..] + b;
      PcmBytesConcat(a[1..], b);
    }
  }

  /** The PCM of a payload decoded from state `s`. */
  function Decoded(r: Rate, p: Packing, s: State, payload: seq<byte>): (pcm: seq<byte>)
    requires InRange(s)
    ensures |pcm| == 2 * ((8 * |payload|) / Table(r).bits)
  {
    PcmBytes(Samples(r, s, PayloadCodes(r, p, payload)))
  }

  function StateAfter(r: Rate, p: Packing, s: State, payload: seq<byte>): (s': State)
    requires InRange(s)
    ensures InRange(s')
  {
    Run(r, s, PayloadCodes(r, p, payload))
  }

  /** Two whole-codeword payloads decoded in turn give the PCM and state of their concatenation. */
  lemma DecodeIsStreamFunction(r: Rate, p: Packing, s: State, p1: seq<byte>, p2: seq<byte>)
    requires InRange(s) && WholeCodewords(r, p1)
    ensures Decoded(r, p, s, p1 + p2) == Decoded(r, p, s, p1) + Decoded(r, p, StateAfter(r, p, s, p1), p2)
    ensures StateAfter(r, p, s, p1 + p2) == StateAfter(r, p, StateAfter(r, p, s, p1), p2)
  {
    hide Step, Table, CodesIn, WireBits, InRange, IsCode, Run, Samples, PcmBytes;
    var c1, c2 := PayloadCodes(r, p, p1), PayloadCodes(r, p, p2);
    WireBitsConcat(p, p1, p2);
    CodesInConcat(p, Table(r).bits, WireBits(p, p1), WireBits(p, p2));
    assert PayloadCodes(r, p, p1 + p2) == c1 + c2;
    hide PayloadCodes;
    RunSplit(r, s, c1, c2);
    PcmBytesConcat(Samples(r, s, c1), Samples(r, Run(r, s, c1), c2));
  }

  /** The packing is only a wire order: one codeword list packed either way decodes alike. */
  lemma PackingsAgree(r: Rate, s: State, codes: seq<nat>)
    requires InRange(s) && (Table(r).bits * |codes|) % 8 == 0
    requires forall i :: 0 <= i < |codes| ==> codes[i] < Pow2(Table(r).bits)
    ensures var w := Table(r).bits;
            && |WireOf(Rfc3551, w, codes)| == |WireOf(Aal2, w, codes)| == w * |codes|
            && var lsb, msb := PackPayload(Rfc3551, w, codes), PackPayload(Aal2, w, codes);
            && Decoded(r, Rfc3551, s, lsb) == Decoded(r, Aal2, s, msb)
            && StateAfter(r, Rfc3551, s, lsb) == StateAfter(r, Aal2, s, msb)
  {
    hide Step, Table, CodesIn, WireBits, PackPayload, InRange, IsCode, Run, Samples, PcmBytes;
    var w := Table(r).bits;
    WireLength(Rfc3551, w, codes);
    WireLength(Aal2, w, codes);
    var lsb, msb := PackPayload(Rfc3551, w, codes), PackPayload(Aal2, w, codes);
    assert PayloadCodes(r, Rfc3551, lsb) == PayloadCodes(r, Aal2, msb);
  }

  lemma InitialInRange()
    ensures InRange(Initial)
  {
  }

  /** The fields of a step, in the order the decoder updates them. */
  lemma StepFields(r: Rate, s: State, code: int32)
    requires InRange(s) && IsCode(r, code)
    ensures var s' := Step(r, s, code);
            var tr := Transition(s, InverseQuant(r, s.y, code));
            var pk0 := Polarity(r, s, code);
            && s'.a == AdaptedA(s, pk0, tr)
            && s'.b == AdaptedB(s, SgnOrZero(Difference(r, s, code)), tr)
            && s'.sr == [I2F(Reconstructed(r, s, code)), s.sr[0]]
            && s'.dq == ShiftedDq(r, s, code)
            && s'.pk == [if pk0 != 0 then pk0 else 1, s.pk[0]]
            && s'.td == (if s'.a[1] < -11776 then 1 else 0)
            && s'.dms == ScaledSpeed(r, s.dms, code, 32)
            && s'.dml == ScaledSpeed(r, s.dml, code, 128)
            && s'.ap == AdaptAp(s.ap, s.y, s'.dms, s'.dml, s'.td, tr)
            && s'.yu == FastScale(r, s.y, code)
            && s'.yl == SlowScale(s.yl, s'.yu)
            && s'.y == MixedScale(s'.yu, s'.yl, SpeedFactor(s'.ap))
            && s'.sez == ZeroSum(s'.b, s'.dq, 6) / 2
            && s'.se == (ZeroSum(s'.b, s'.dq, 6) + PoleSum(s'.a, s'.sr, 2)) / 2
  {
    hide I2F, Mult, InverseQuant, Threshold, AdaptedA, AdaptedB, ZeroSum, PoleSum, Wrap16, Reconstructed;
    hide MixedScale, SignBit, Table, SgnOrZero, AdaptAp, SlowScale, FastScale, ScaledSpeed, ShiftedDq;
  }

  // ---- configuration -------------------------------------------------------

  /** The rates by configuration value. */
  function RateOf(v: int): (r: Option<Rate>)
    ensures r.Some? <==> 0 <= v <= 3
    ensures r.Some? ==> Table(r.value).bits == v + 2
  {
    match v
    case 0 => Some(Rate16)
    case 1 => Some(Rate24)
    case 2 => Some(Rate32)
    case 3 => Some(Rate40)
    case _ => None
  }

  /** The packings by configuration value. */
  function PackingOf(v: int): Option<Packing>
  {
    match v
    case 0 => Some(Rfc3551)
    case 1 => Some(Aal2)
    case _ => None
  }

  // ---- the decoder object --------------------------------------------------

  class Decoder {
    const rate: Rate
    const msbFirst: bool
    const sr: array<Float11>
    const dq: array<Float11>
    const a: array<int32>
    const b: array<int32>
    const pk: array<int32>
    var ap: int32
    var yu: int32
    var yl: int32
    var dms: int32
    var dml: int32
    var td: int32
    var se: int32
    var sez: int32
    var y: int32

    ghost predicate Shape()
    {
      && sr.Length == 2 && dq.Length == 6 && a.Length == 2 && b.Length == 6 && pk.Length == 2
      && sr != dq && a != b && a != pk && b != pk
    }

    ghost function View(): State
      reads this, sr, dq, a, b, pk
    {
      State(sr[..], dq[..], a[..], b[..], pk[..], ap, yu, yl, dms, dml, td, se, sez, y)
    }

    ghost predicate Valid()
      reads this, sr, dq, a, b, pk
    {
      Shape() && InRange(View())
    }

    ghost function Order(): Packing { if msbFirst then Aal2 else Rfc3551 }

    /** A decoder for the configured bit rate and packing, or which of the two is not defined. */
    static method New(bitRate: int, packing: int) returns (d: Option<Decoder>, err: Option<Error>)
      ensures err == if RateOf(bitRate).None? then Some(UnknownBitRate)
                     else if PackingOf(packing).None? then Some(UnknownPacking)
                     else None
      ensures d.Some? <==> err.None?
      ensures d.Some? ==>
                && fresh(d.value) && d.value.Valid() && d.value.View() == Initial
                && Some(d.value.rate) == RateOf(bitRate) && Some(d.value.Order()) == PackingOf(packing)
    {
      hide InRange;
      var rate := RateOf(bitRate);
      if rate.None? {
        return None, Some(UnknownBitRate);
      }
      var order := PackingOf(packing);
      if order.None? {
        return None, Some(UnknownPacking);
      }
      var fresh' := new Decoder(rate.value, order.value);
      return Some(fresh'), None;
    }

    constructor (rate: Rate, packing: Packing)
      ensures Valid() && View() == Initial
      ensures this.rate == rate && Order() == packing
      ensures fresh(sr) && fresh(dq) && fresh(a) && fresh(b) && fresh(pk)
    {
      this.rate := rate;
      msbFirst := packing == Aal2;
      sr := new Float11[2];
      dq := new Float11[6];
      a := new int32[2];
      b := new int32[6];
      pk := new int32[2];
      new;
      Reset();
    }

    method Reset()
      requires Shape()
      modifies this, sr, dq, a, b, pk
      ensures Valid() && View() == Initial
    {
      hide InRange;
      InitialInRange();
      for i := 0 to 6
        invariant forall j :: 0 <= j < i ==> dq[j] == ZeroFloat
      {
        dq[i] := ZeroFloat;
      }
      sr[0], sr[1] := ZeroFloat, ZeroFloat;
      forall i | 0 <= i < 6 {
        b[i] := 0;
      }
      a[0], a[1] := 0, 0;
      pk[0], pk[1] := 1, 1;
      ap, yu, yl, dms, dml, td, se, sez, y := 0, 544, 34816, 0, 0, 0, 0, 0, 544;
      assert sr[..] == Initial.sr && dq[..] == Initial.dq;
      assert a[..] == Initial.a && b[..] == Initial.b && pk[..] == Initial.pk;
    }

    /** The pole coefficients: cleared on a transition, else the leaky sign update. */
    method AdaptPoles(ghost s: State, pk0: int32, tr: bool)
      requires Valid() && s == View()
      requires pk0 == -1 || pk0 == 0 || pk0 == 1
      modifies a
      ensures a[..] == AdaptedA(s, pk0, tr)
    {
      if tr {
        a[0], a[1] := 0, 0;
      } else {
        hide AdaptA0, AdaptA1;
        a[1] := AdaptA1(a[0], a[1], pk[0], pk[1], pk0);
        a[0] := AdaptA0(a[0], a[1], pk[0], pk0);
      }
    }

    /** The zero coefficients: cleared on a transition, else the leaky sign update. */
    method AdaptZeros(ghost s: State, dq0: int32, tr: bool)
      requires Shape() && InRange(s) && b[..] == s.b && dq[..] == s.dq
      requires dq0 == -1 || dq0 == 0 || dq0 == 1
      modifies b
      ensures b[..] == AdaptedB(s, dq0, tr)
    {
      hide AdaptB;
      for i := 0 to 6
        invariant forall j :: 0 <= j < i ==> b[j] == if tr then 0 else AdaptB(s.b[j], dq0, s.dq[j].sign)
        invariant forall j :: i <= j < 6 ==> b[j] == s.b[j]
      {
        assert dq[i] == s.dq[i];
        b[i] := if tr then 0 else AdaptB(b[i], dq0, dq[i].sign);
      }
    }

    /** Shifts the signal histories by one and enters the newest values. */
    method ShiftHistory(ghost s: State, pk0: int32, reSignal: int16, newest: Float11)
      requires Shape() && sr[..] == s.sr && dq[..] == s.dq && pk[..] == s.pk
      modifies sr, dq, pk
      ensures pk[..] == [if pk0 != 0 then pk0 else 1, s.pk[0]]
      ensures sr[..] == [I2F(reSignal), s.sr[0]]
      ensures dq[..] == [newest] + s.dq[..5]
    {
      pk[1] := pk[0];
      pk[0] := if pk0 != 0 then pk0 else 1;
      sr[1] := sr[0];
      sr[0] := I2F(reSignal);
      var i := 5;
      while i > 0
        invariant 0 <= i <= 5
        invariant forall j :: 0 <= j <= i ==> dq[j] == s.dq[j]
        invariant forall j :: i < j < 6 ==> dq[j] == s.dq[j - 1]
        invariant pk[..] == [if pk0 != 0 then pk0 else 1, s.pk[0]]
        invariant sr[..] == [I2F(reSignal), s.sr[0]]
      {
        dq[i] := dq[i - 1];
        i := i - 1;
      }
      dq[0] := newest;
    }

    /** The predictor estimate of the next sample, from the adapted coefficients. */
    method Predict()
      requires Shape() && PredictorInRange(a[..], b[..]) && HistoryInRange(sr[..], dq[..], pk[..])
      modifies this`se, this`sez
      ensures sez == ZeroSum(b[..], dq[..], 6) / 2
      ensures se == (ZeroSum(b[..], dq[..], 6) + PoleSum(a[..], sr[..], 2)) / 2
    {
      hide Mult, I2F;
      se := 0;
      for i := 0 to 6
        invariant se == ZeroSum(b[..], dq[..], i)
      {
        assert b[..][i] == b[i] && dq[..][i] == dq[i];
        Pow2Values();
        I2FExponent(b[i] / 4, 14);
        se := se + Mult(I2F(b[i] / 4), dq[i]);
      }
      sez := se / 2;
      for i := 0 to 2
        invariant se == ZeroSum(b[..], dq[..], 6) + PoleSum(a[..], sr[..], i)
        invariant sez == ZeroSum(b[..], dq[..], 6) / 2
      {
        assert a[..][i] == a[i] && sr[..][i] == sr[i];
        Pow2Values();
        I2FExponent(a[i] / 4, 14);
        se := se + Mult(I2F(a[i] / 4), sr[i]);
      }
      se := se / 2;
    }

    /** Tone detector, speed control and the two quantiser scale factors. */
    method AdaptScales(ghost s: State, code: int32, tr: bool)
      requires Shape() && InRange(s) && IsCode(rate, code) && td == s.td && ap == s.ap && y == s.y
      requires dms == s.dms && dml == s.dml && yu == s.yu && yl == s.yl
      requires tr == Transition(s, InverseQuant(rate, s.y, code)) && a[1] == Step(rate, s, code).a[1]
      modifies this`td, this`dms, this`dml, this`ap, this`yu, this`yl, this`y
      ensures var t := Step(rate, s, code);
              td == t.td && dms == t.dms && dml == t.dml && ap == t.ap && yu == t.yu && yl == t.yl && y == t.y
    {
      hide Step, InverseQuant, Transition, Table, IsCode, MixedScale, AdaptAp, SlowScale, FastScale, ScaledSpeed;
      StepFields(rate, s, code);
      td := if a[1] < -11776 then 1 else 0;
      dms := ScaledSpeed(rate, dms, code, 32);
      dml := ScaledSpeed(rate, dml, code, 128);
      ap := AdaptAp(ap, y, dms, dml, td, tr);
      yu := FastScale(rate, y, code);
      yl := SlowScale(yl, yu);
      y := MixedScale(yu, yl, SpeedFactor(ap));
    }

    /** Inverse quantisation, transition detector and reconstruction; changes nothing. */
    method Reconstruct(code: int32) returns (d: int32, tr: bool, reSignal: int16, pk0: int32)
      requires Valid() && IsCode(rate, code)
      ensures d == Difference(rate, View(), code)
      ensures tr == Transition(View(), InverseQuant(rate, y, code))
      ensures reSignal == Reconstructed(rate, View(), code)
      ensures pk0 == Polarity(rate, View(), code)
    {
      hide InverseQuant, Threshold, Wrap16, SignBit, SgnOrZero, Table, IsCode;
      d := InverseQuant(rate, y, code);
      tr := td == 1 && d > (3 * Threshold(yl)) / 4;
      if SignBit(rate, code) != 0 {
        d := -d;
      }
      reSignal := Wrap16(se + d);
      pk0 := SgnOrZero(sez + d);
    }

    /** One decoding step: the new state is `Step` of the old one, the result its sample. */
    method DecodeSample(code: int32) returns (pcm: int16)
      requires Valid() && IsCode(rate, code)
      modifies this, sr, dq, a, b, pk
      ensures Valid()
      ensures View() == Step(rate, old(View()), code)
      ensures pcm == Pcm(Reconstructed(rate, old(View()), code))
    {
      hide Step, I2F, Difference, Reconstructed, Polarity, Transition, InverseQuant, AdaptedA, AdaptedB;
      hide ZeroSum, PoleSum, Pcm, MixedScale, SignBit, SgnOrZero, AdaptAp, SlowScale, FastScale, ScaledSpeed;
      hide IsCode;
      ghost var s := View();
      ghost var t := Step(rate, s, code);
      StepFields(rate, s, code);
      var d, tr, reSignal, pk0 := Reconstruct(code);
      AdaptPoles(s, pk0, tr);
      AdaptZeros(s, SgnOrZero(d), tr);
      Pow2Values();
      I2FExponent(d, 15);
      ShiftHistory(s, pk0, reSignal, I2F(d).(sign := SignBit(rate, code)));
      assert a[..] == t.a && b[..] == t.b && sr[..] == t.sr && dq[..] == t.dq && pk[..] == t.pk;
      AdaptScales(s, code, tr);
      Predict();
      pcm := Pcm(reSignal);
    }

    /** Decodes the codeword at bit `pos` and stores its sample at index `k` of `dst`. */
    method DecodeInto(dst: array<byte>, payload: seq<byte>, pos: nat, k: nat)
      requires Valid() && pos + Table(rate).bits <= 8 * |payload| && 2 * k + 2 <= dst.Length
      modifies this, sr, dq, a, b, pk, dst
      ensures Valid()
      ensures var v := CodeValue(Order(), WireBits(Order(), payload)[pos..pos + Table(rate).bits]);
              && v < Pow2(5)
              && var code := (Pow2Values(); v as int32);
              && IsCode(rate, code)
              && View() == Step(rate, old(View()), code)
              && dst[..] == old(dst[..2 * k]) + Le16(Pcm(Reconstructed(rate, old(View()), code))) + old(dst[2 * k + 2..])
    {
      hide Step, Table, InRange, Pcm, Reconstructed, CodeValue, WireBits;
      Pow2Values();
      Pow2Monotone(Table(rate).bits, 5);
      var v: nat;
      if msbFirst {
        v := ReadCodewordMSB(payload, pos, Table(rate).bits);
      } else {
        v := ReadCodewordLSB(payload, pos, Table(rate).bits);
      }
      var pcm := DecodeSample(v as int32);
      var u := pcm as int % 65536;
      dst[2 * k] := u % 256;
      dst[2 * k + 1] := u / 256;
    }

    /** The sample loop over a payload whose expansion fits `dst`. */
    method DecodeSamples(dst: array<byte>, payload: seq<byte>, nsamp: nat)
      requires Valid() && nsamp == (8 * |payload|) / Table(rate).bits && 2 * nsamp <= dst.Length
      modifies this, sr, dq, a, b, pk, dst
      ensures Valid()
      ensures dst[..] == Decoded(rate, Order(), old(View()), payload) + old(dst[2 * nsamp..])
      ensures View() == StateAfter(rate, Order(), old(View()), payload)
    {
      hide Step, Table, InRange, Pcm, Reconstructed, IsCode, PayloadCodes, Run, Samples, PcmBytes, CodeValue, WireBits;
      hide CodesIn;
      ghost var s := View();
      ghost var codes := PayloadCodes(rate, Order(), payload);
      ghost var before := dst[..];
      ghost var w, bits := Table(rate).bits, WireBits(Order(), payload);
      var pos: nat := 0;
      RunEmpty(rate, s);
      CodesInLength(Order(), w, bits);
      assert bits[0..] == bits;
      for k := 0 to nsamp
        invariant Valid()
        invariant pos <= |bits| && k <= |CodesIn(Order(), w, bits)|
        invariant CodesIn(Order(), w, bits[pos..]) == CodesIn(Order(), w, bits)[k..]
        invariant View() == Run(rate, s, codes[..k])
        invariant dst[..] == PcmBytes(Samples(rate, s, codes[..k])) + before[2 * k..]
      {
        RunSnoc(rate, s, codes, k);
        NextCode(rate, Order(), payload, pos, k);
        DecodeInto(dst, payload, pos, k);
        pos := pos + Table(rate).bits;
        assert before[2 * k..][2..] == before[2 * k + 2..];
      }
      assert codes[..nsamp] == codes;
    }

    /**
     Expands a payload into s16le PCM at the front of `dst`.  A rejected payload changes
     neither `dst` nor the adaptive state.
     */
    method Decode(dst: array<byte>, payload: seq<byte>) returns (n: nat, err: Option<Error>)
      requires Valid()
      modifies this, sr, dq, a, b, pk, dst
      ensures Valid()
      ensures err == (if !WholeCodewords(rate, payload) then Some(IncompletePayload)
                      else if dst.Length < 2 * ((8 * |payload|) / Table(rate).bits) then Some(ShortBuffer)
                      else None)
      ensures err != None ==> n == 0 && View() == old(View()) && dst[..] == old(dst[..])
      ensures err == None ==>
                && n == 2 * ((8 * |payload|) / Table(rate).bits) <= dst.Length
                && dst[..] == Decoded(rate, Order(), old(View()), payload) + old(dst[n..])
                && View() == StateAfter(rate, Order(), old(View()), payload)
    {
      hide Table, InRange, PayloadCodes, Run, Samples, PcmBytes;
      n, err := 0, None;
      if payload == [] {
        RunEmpty(rate, View());
        assert PayloadCodes(rate, Order(), payload) == [];
        return;
      }
      if (8 * |payload|) % Table(rate).bits != 0 {
        err := Some(IncompletePayload);
        return;
      }
      var nsamp := (8 * |payload|) / Table(rate).bits;
      if dst.Length < 2 * nsamp {
        err := Some(ShortBuffer);
        return;
      }
      DecodeSamples(dst, payload, nsamp);
      n := 2 * nsamp;
    }

    /** As `Decode`, into a fresh buffer of exactly the right size. */
    method DecodeAlloc(payload: seq<byte>) returns (pcm: Option<array<byte>>)
      requires Valid()
      modifies this, sr, dq, a, b, pk
      ensures Valid()
      ensures pcm == None <==> !WholeCodewords(rate, payload)
      ensures pcm == None ==> View() == old(View())
      ensures pcm != None ==>
                && pcm.value[..] == Decoded(rate, Order(), old(View()), payload)
                && View() == StateAfter(rate, Order(), old(View()), payload)
    {
      hide Table, InRange, Decoded, StateAfter;
      if (8 * |payload|) % Table(rate).bits != 0 {
        return None;
      }
      var dst := new byte[2 * ((8 * |payload|) / Table(rate).bits)];
      var n, err := Decode(dst, payload);
      assert dst.Length == n;
      pcm := Some(dst);
    }
  }

  /** The codeword at a position reached after `k` codewords is codeword `k` of the payload. */
  lemma NextCode(r: Rate, p: Packing, payload: seq<byte>, pos: nat, k: nat)
    requires pos <= 8 * |payload| && k < |PayloadCodes(r, p, payload)|
    requires var w, bits := Table(r).bits, WireBits(p, payload);
             k <= |CodesIn(p, w, bits)| && CodesIn(p, w, bits[pos..]) == CodesIn(p, w, bits)[k..]
    ensures var w, bits := Table(r).bits, WireBits(p, payload);
            && pos + w <= |bits|
            && CodeValue(p, bits[pos..pos + w]) == PayloadCodes(r, p, payload)[k] as int
            && CodesIn(p, w, bits[pos + w..]) == CodesIn(p, w, bits)[k + 1..]
  {
    hide Table, WireBits, CodeValue;
    var w, bits := Table(r).bits, WireBits(p, payload);
    CodesInLength(p, w, bits);
    assert bits[pos..][..w] == bits[pos..pos + w] && bits[pos..][w..] == bits[pos + w..];
    assert CodesIn(p, w, bits)[k..][0] == CodesIn(p, w, bits)[k];
    assert CodesIn(p, w, bits)[k..][1..] == CodesIn(p, w, bits)[k + 1..];
  }

  lemma RunEmpty(r: Rate, s: State)
    requires InRange(s)
    ensures Run(r, s, []) == s && PcmBytes(Samples(r, s, [])) == []
  {
  }

  lemma RunOne(r: Rate, s: State, code: int32)
    requires InRange(s) && IsCode(r, code)
    ensures AreCodes(r, [code])
    ensures Run(r, s, [code]) == Step(r, s, code)
    ensures Samples(r, s, [code]) == [Pcm(Reconstructed(r, s, code))]
  {
    hide Step, InRange, Pcm, Reconstructed, IsCode;
    assert Run(r, Step(r, s, code), [code][1..]) == Step(r, s, code);
    assert Samples(r, Step(r, s, code), [code][1..]) == [];
  }

  lemma RunSnoc(r: Rate, s: State, codes: seq<int32>, k: nat)
    requires InRange(s) && AreCodes(r, codes) && k < |codes|
    ensures var mid := Run(r, s, codes[..k]);
            && Run(r, s, codes[..k + 1]) == Step(r, mid, codes[k])
            && PcmBytes(Samples(r, s, codes[..k + 1]))
               == PcmBytes(Samples(r, s, codes[..k])) + Le16(Pcm(Reconstructed(r, mid, codes[k])))
  {
    hide Step, InRange, Pcm, Reconstructed, IsCode, Run, Samples, Le16;
    var mid := Run(r, s, codes[..k]);
    var p := Pcm(Reconstructed(r, mid, codes[k]));
    assert codes[..k + 1] == codes[..k] + [codes[k]];
    RunSplit(r, s, codes[..k], [codes[k]]);
    RunOne(r, mid, codes[k]);
    PcmBytesConcat(Samples(r, s, codes[..k]), [p]);
    assert PcmBytes([p]) == Le16(p) by { assert [p][1..] == []; }
  }
}
