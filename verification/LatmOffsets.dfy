/** LATM unit offsets fit their 32 bits: no sum of subframes and elements of one packet wraps. */
module LatmOffsets {
  import opened Bits
  import opened LatmMux
  import opened Latm

  const MaxSamplesPerFrame: nat := 8192
  const MaxSpan: nat := 64 * 8192

  /** What every parsed config satisfies. */
  predicate Sane(m: Mux)
  {
    m.numSubFrames < 64 && m.frameLength <= 1024
  }

  predicate SaneIfAny(m: Option<Mux>)
  {
    m.Some? ==> Sane(m.value)
  }

  lemma ParsedIsSane(bits: seq<bit>)
    ensures ParseMux(bits).Ok? ==> Sane(ParseMux(bits).value.mux)
  {
    hide Take, TakeObjectType, TakeSamplingFrequency, TakeSuffix, Pack;
  }

  lemma SpanBound(m: Mux, spf: nat)
    requires Sane(m) && spf <= MaxSamplesPerFrame
    ensures Ticks(m, spf) <= MaxSamplesPerFrame && Span(m, spf) <= MaxSpan
  {
    var n, t := m.numSubFrames + 1, Ticks(m, spf);
    assert n * t <= 64 * t;
  }

  predicate Within(aus: seq<AU>, bound: nat)
  {
    forall i :: 0 <= i < |aus| ==> aus[i].rtpOffset <= bound
  }

  lemma {:induction false} SlotsWithin(p: seq<byte>, n: nat, at: nat, ticks: nat)
    requires ticks <= MaxSamplesPerFrame
    ensures var r := ReadSlots(p, n, at, ticks); r.Ok? ==> Within(r.value.aus, at + MaxSamplesPerFrame * n)
    decreases n
  {
    hide ReadSlot;
    if n > 0 && ReadSlot(p, 0).Ok? {
      SlotsWithin(ReadSlot(p, 0).value.rest, n - 1, at + ticks, ticks);
    }
  }

  lemma {:induction false} BitSlotsWithin(bits: seq<bit>, n: nat, at: nat, ticks: nat)
    requires ticks <= MaxSamplesPerFrame
    ensures var r := ReadBitSlots(bits, n, at, ticks); r.Ok? ==> Within(r.value.aus, at + MaxSamplesPerFrame * n)
    decreases n
  {
    hide ReadBitSlot;
    if n > 0 && ReadBitSlot(bits, 0).Ok? {
      BitSlotsWithin(ReadBitSlot(bits, 0).value.rest, n - 1, at + ticks, ticks);
    }
  }

  /** The last offset an element may start at, and the last a packet may reach. */
  function Reach(elem: nat): nat { MaxSpan * elem }

  lemma {:induction false} OutOfBandWithin(m: Mux, spf: nat, p: seq<byte>, elem: nat, at: nat)
    requires Sane(m) && spf <= MaxSamplesPerFrame && elem <= MaxMuxElements && at <= Reach(elem)
    ensures var r := OutOfBand(m, spf, p, elem, at); r.Ok? ==> Within(r.value, Reach(MaxMuxElements))
    decreases MaxMuxElements - elem
  {
    hide ReadSlots, Ticks, Span, AllZero;
    if elem < MaxMuxElements {
      SpanBound(m, spf);
      SlotsWithin(p, m.numSubFrames + 1, at, Ticks(m, spf));
      var units := ReadSlots(p, m.numSubFrames + 1, at, Ticks(m, spf));
      if units.Ok? {
        OutOfBandWithin(m, spf, units.value.rest, elem + 1, at + Span(m, spf));
      }
    }
  }

  /** An in-band element keeps the retained config a parsed one. */
  lemma ElementWithin(m: Option<Mux>, spf: nat, bits: seq<bit>, at: nat)
    requires SaneIfAny(m) && spf <= MaxSamplesPerFrame
    ensures var e := InBandElement(m, spf, bits, at);
            SaneIfAny(e.mux) && (e.units.Ok? ==> Within(e.units.value.aus, at + MaxSpan))
  {
    hide Take, ParseMux, ReadBitSlots, Sane, Ticks, Within;
    var same := Take(bits, 1);
    if same.Ok? {
      var parsed := ParseMux(same.value.rest);
      if same.value.v == 0 && parsed.Ok? {
        ParsedIsSane(same.value.rest);
        ElementSlotsWithin(parsed.value.mux, spf, parsed.value.rest, at);
      } else if same.value.v != 0 && m.Some? {
        ElementSlotsWithin(m.value, spf, same.value.rest, at);
      }
    }
  }

  lemma ElementSlotsWithin(m: Mux, spf: nat, bits: seq<bit>, at: nat)
    requires Sane(m) && spf <= MaxSamplesPerFrame
    ensures var e := ElementSlots(m, spf, bits, at); e.units.Ok? ==> Within(e.units.value.aus, at + MaxSpan)
  {
    hide ReadBitSlots, Ticks;
    SpanBound(m, spf);
    BitSlotsWithin(bits, m.numSubFrames + 1, at, Ticks(m, spf));
  }

  lemma {:induction false} InBandWithin(m: Option<Mux>, spf: nat, bits: seq<bit>, elem: nat, at: nat)
    requires SaneIfAny(m) && spf <= MaxSamplesPerFrame && elem <= MaxMuxElements && at <= Reach(elem)
    ensures var r := InBand(m, spf, bits, elem, at);
            SaneIfAny(r.mux) && (r.result.Ok? ==> Within(r.result.value, Reach(MaxMuxElements)))
    decreases MaxMuxElements - elem
  {
    hide InBandElement, ZeroBits, Span, Sane;
    if elem < MaxMuxElements {
      ElementWithin(m, spf, bits, at);
      var e := InBandElement(m, spf, bits, at);
      if e.units.Ok? {
        SpanBound(e.mux.value, spf);
        InBandWithin(e.mux, spf, e.units.value.rest, elem + 1, at + Span(e.mux.value, spf));
      }
    }
  }

  /** What New and Reset install. */
  lemma SeedIsSane(seed: seq<byte>)
    ensures SaneIfAny(SeedMux(seed)) && (OutOfBandConfig(seed).Ok? ==> Sane(OutOfBandConfig(seed).value))
  {
    hide ParseMux, BitsOf, Sane;
    var capped := if |seed| > MaxStreamMuxConfigBytes then seed[..MaxStreamMuxConfigBytes] else seed;
    ParsedIsSane(BitsOf(capped));
  }

  /**
   Over any packets, in either mode, for every samples-per-frame the configuration accepts: the config
   retained stays one that a parse produced, and every unit's offset is below two to the 32, so the
   code's 32-bit sums never wrap.
   */
  lemma OffsetsFit(m: Option<Mux>, inBand: bool, spf: nat, payload: seq<byte>)
    requires SaneIfAny(m) && spf <= MaxSamplesPerFrame && (inBand || m.Some?)
    ensures inBand ==>
              var r := InBand(m, spf, BitsOf(payload), 0, 0);
              SaneIfAny(r.mux) && (r.result.Ok? ==> Within(r.result.value, 0x1_0000_0000 - 1))
    ensures !inBand ==>
              var r := OutOfBand(m.value, spf, payload, 0, 0); r.Ok? ==> Within(r.value, 0x1_0000_0000 - 1)
  {
    hide InBand, OutOfBand, BitsOf;
    if inBand {
      InBandWithin(m, spf, BitsOf(payload), 0, 0);
    } else {
      OutOfBandWithin(m.value, spf, payload, 0, 0);
    }
  }
}
