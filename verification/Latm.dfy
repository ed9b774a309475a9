/**
 MP4A-LATM over RTP (RFC 3016): access units out of AudioMuxElements, byte-aligned when the
 config is out of band, bit-misaligned when it is in band, with the in-band
 AudioSpecificConfig double-buffered in two arrays.
 */
module Latm {
  import opened Bits
  import opened LatmMux
  import opened LatmBits

  const MaxMuxSlotBytes: nat := 64 * 1024
  const MaxStreamMuxConfigBytes: nat := 512
  const MaxMuxElements: nat := 64

  datatype AU = AU(data: seq<byte>, rtpOffset: nat)

  // ---- byte-aligned slots --------------------------------------------------

  datatype Slot = Slot(data: seq<byte>, rest: seq<byte>)

  /** PayloadLengthInfo as a byte sum on top of `sum`, then that many bytes. */
  function ReadSlot(p: seq<byte>, sum: nat): Result<Slot>
    decreases |p|
  {
    if p == [] then Err(Truncated) else
      var length := sum + p[0];
      if length > MaxMuxSlotBytes then Err(PayloadOverflow)
      else if p[0] == 0xFF then ReadSlot(p[1..], length)
      else if length > |p| - 1 then Err(PayloadOverflow)
      else Ok(Slot(p[1..1 + length], p[1 + length..]))
  }

  datatype Units = Units(aus: seq<AU>, rest: seq<byte>)

  /** `n` slots, the unit in slot i at `ticks` after the one before. */
  function ReadSlots(p: seq<byte>, n: nat, at: nat, ticks: nat): Result<Units>
    decreases n
  {
    if n == 0 then Ok(Units([], p)) else
      var s :- ReadSlot(p, 0);
      var more :- ReadSlots(s.rest, n - 1, at + ticks, ticks);
      Ok(Units([AU(s.data, at)] + more.aus, more.rest))
  }

  // ---- bit-level slots -----------------------------------------------------

  datatype BitSlot = BitSlot(data: seq<byte>, rest: seq<bit>)

  function ReadBitSlot(bits: seq<bit>, sum: nat): Result<BitSlot>
    decreases |bits|
  {
    var t :- Take(bits, 8);
    var length := sum + t.v;
    if length > MaxMuxSlotBytes then Err(PayloadOverflow)
    else if t.v == 0xFF then ReadBitSlot(t.rest, length)
    else if length * 8 > |t.rest| then Err(PayloadOverflow)
    else Ok(BitSlot(Pack(t.rest[..8 * length]), t.rest[8 * length..]))
  }

  datatype BitUnits = BitUnits(aus: seq<AU>, rest: seq<bit>)

  function ReadBitSlots(bits: seq<bit>, n: nat, at: nat, ticks: nat): Result<BitUnits>
    decreases n
  {
    if n == 0 then Ok(BitUnits([], bits)) else
      var s :- ReadBitSlot(bits, 0);
      var more :- ReadBitSlots(s.rest, n - 1, at + ticks, ticks);
      Ok(BitUnits([AU(s.data, at)] + more.aus, more.rest))
  }

  // ---- alignment does not matter -------------------------------------------

  /** The leading byte of a padded bit string, and the leading bytes of what follows. */
  lemma LeadingByte(b: byte, tail: seq<byte>, pad: seq<bit>)
    ensures Take(BitsOf([b] + tail) + pad, 8) == Ok(Taken(b, BitsOf(tail) + pad))
  {
    hide BitsOf, Value, ByteBits;
    BitsOfConcat([b], tail);
    BitsOfOne(b);
    ByteValue(b);
    var bits := BitsOf([b] + tail) + pad;
    assert bits[..8] == ByteBits(b) && bits[8..] == BitsOf(tail) + pad;
  }

  lemma CutAppended(a: seq<bit>, pad: seq<bit>, k: nat)
    requires k <= |a|
    ensures (a + pad)[..k] == a[..k] && (a + pad)[k..] == a[k..] + pad
  {
  }

  lemma LeadingBytes(tail: seq<byte>, pad: seq<bit>, n: nat)
    requires n <= |tail|
    ensures var bits := BitsOf(tail) + pad;
            8 * n <= |bits| && Pack(bits[..8 * n]) == tail[..n] && bits[8 * n..] == BitsOf(tail[n..]) + pad
  {
    hide BitsOf, Pack;
    BitsOfSlice(tail, 0, n);
    BitsOfSlice(tail, n, |tail|);
    CutAppended(BitsOf(tail), pad, 8 * n);
    PackOfBits(tail[..n]);
    assert tail[0..n] == tail[..n] && tail[n..|tail|] == tail[n..];
    assert BitsOf(tail)[8 * n..8 * |tail|] == BitsOf(tail)[8 * n..];
  }

  /** One length byte of a slot, read from bits and from bytes. */
  lemma SlotByte(b: byte, tail: seq<byte>, pad: seq<bit>, sum: nat)
    requires |pad| < 8
    ensures var length := sum + b;
            ReadBitSlot(BitsOf([b] + tail) + pad, sum)
            == if length > MaxMuxSlotBytes then Err(PayloadOverflow)
               else if b == 0xFF then ReadBitSlot(BitsOf(tail) + pad, length)
               else if length > |tail| then Err(PayloadOverflow)
               else Ok(BitSlot(tail[..length], BitsOf(tail[length..]) + pad))
  {
    hide BitsOf, Pack, Take;
    LeadingByte(b, tail, pad);
    if sum + b <= |tail| {
      LeadingBytes(tail, pad, sum + b);
    }
  }

  lemma {:induction false} SlotOfBits(p: seq<byte>, pad: seq<bit>, sum: nat)
    requires |pad| < 8
    ensures var b, a := ReadBitSlot(BitsOf(p) + pad, sum), ReadSlot(p, sum);
            if a.Err? then b == Err(a.error)
            else b == Ok(BitSlot(a.value.data, BitsOf(a.value.rest) + pad))
    decreases |p|
  {
    hide BitsOf;
    if p == [] {
      assert |BitsOf([])| == 0;
    } else {
      hide ReadBitSlot;
      var tail := p[1..];
      assert p == [p[0]] + tail;
      SlotByte(p[0], tail, pad, sum);
      SlotOfBits(tail, pad, sum + p[0]);
      var length := sum + p[0];
      if length <= |tail| {
        assert p[1..1 + length] == tail[..length] && p[1 + length..] == tail[length..];
      }
    }
  }

  lemma {:induction false} SlotsOfBits(p: seq<byte>, pad: seq<bit>, n: nat, at: nat, ticks: nat)
    requires |pad| < 8
    ensures var b, a := ReadBitSlots(BitsOf(p) + pad, n, at, ticks), ReadSlots(p, n, at, ticks);
            if a.Err? then b == Err(a.error)
            else b == Ok(BitUnits(a.value.aus, BitsOf(a.value.rest) + pad))
    decreases n
  {
    hide ReadBitSlot, ReadSlot, BitsOf;
    if n > 0 {
      SlotOfBits(p, pad, 0);
      if ReadSlot(p, 0).Ok? {
        SlotsOfBits(ReadSlot(p, 0).value.rest, pad, n - 1, at + ticks, ticks);
      }
    }
  }

  // ---- elements ------------------------------------------------------------

  /** RTP ticks per subframe. */
  function Ticks(m: Mux, samplesPerFrame: nat): nat
  {
    if samplesPerFrame != 0 then samplesPerFrame else m.frameLength
  }

  /** What an in-band element does: the config retained afterwards, and its units or an error. */
  datatype Element = Element(mux: Option<Mux>, units: Result<BitUnits>)

  function Align(rest: seq<bit>): seq<bit> { rest[|rest| % 8..] }

  /** useSameStreamMux, an inline config when it is 0, then the slots and byte alignment. */
  function InBandElement(m: Option<Mux>, spf: nat, bits: seq<bit>, at: nat): (e: Element)
    ensures e.units.Ok? ==> e.mux.Some?
  {
    var same := Take(bits, 1);
    if same.Err? then Element(m, Err(same.error))
    else if same.value.v == 0 then
      var parsed := ParseMux(same.value.rest);
      if parsed.Err? then Element(m, Err(parsed.error))
      else ElementSlots(parsed.value.mux, spf, parsed.value.rest, at)
    else if m.None? then Element(m, Err(NoConfig))
    else ElementSlots(m.value, spf, same.value.rest, at)
  }

  function ElementSlots(m: Mux, spf: nat, bits: seq<bit>, at: nat): (e: Element)
    ensures e.mux == Some(m)
  {
    var units := ReadBitSlots(bits, m.numSubFrames + 1, at, Ticks(m, spf));
    Element(Some(m), if units.Err? then units else Ok(BitUnits(units.value.aus, Align(units.value.rest))))
  }

  /**
   A single in-band element that reuses the retained config yields, from any packet whose
   bits are the flag, the slots and padding to the byte, the same units, offsets and error
   as the byte-aligned parse of the same slots.
   */
  lemma InBandEqualsOutOfBand(m: Mux, spf: nat, p: seq<byte>, payload: seq<byte>, pad: seq<bit>, at: nat)
    requires BitsOf(payload) == [1] + BitsOf(p) + pad && |pad| < 8
    ensures var e := InBandElement(Some(m), spf, BitsOf(payload), at);
            var o := ReadSlots(p, m.numSubFrames + 1, at, Ticks(m, spf));
            && e.mux == Some(m)
            && (o.Err? ==> e.units == Err(o.error))
            && (o.Ok? ==> e.units.Ok? && e.units.value.aus == o.value.aus)
  {
    hide ReadBitSlots, ReadSlots, BitsOf;
    var bits := BitsOf(payload);
    assert bits[1..] == BitsOf(p) + pad && bits[..1] == [1];
    assert Value([1]) == 1 by { OneBit(); }
    SlotsOfBits(p, pad, m.numSubFrames + 1, at, Ticks(m, spf));
  }

  lemma OneBit()
    ensures Value([1]) == 1
  {
    assert [1][..0] == [];
  }

  /** Such a packet exists for any slots: the flag and the slots, packed. */
  lemma InBandPacketExists(p: seq<byte>) returns (payload: seq<byte>, pad: seq<bit>)
    ensures BitsOf(payload) == [1] + BitsOf(p) + pad && |pad| < 8
  {
    var flag: seq<bit> := [1];
    payload := Pack(flag + BitsOf(p));
    PackBits(flag + BitsOf(p));
    pad := Zeros(8 * |payload| - |flag + BitsOf(p)|);
  }

  // ---- payloads ------------------------------------------------------------

  predicate AllZero(b: seq<byte>) { forall i :: 0 <= i < |b| ==> b[i] == 0 }

  predicate ZeroBits(b: seq<bit>) { forall i :: 0 <= i < |b| ==> b[i] == 0 }

  /** Out-of-band elements, the first one `elem`-th of the packet. */
  function OutOfBand(m: Mux, spf: nat, p: seq<byte>, elem: nat, at: nat): Result<seq<AU>>
    decreases MaxMuxElements - elem
  {
    if elem >= MaxMuxElements then Ok([]) else
      var units := ReadSlots(p, m.numSubFrames + 1, at, Ticks(m, spf));
      if units.Err? then (if elem == 0 then Err(units.error) else Ok([]))
      else if AllZero(units.value.rest) then Ok(units.value.aus)
      else
        var more := OutOfBand(m, spf, units.value.rest, elem + 1, at + Span(m, spf));
        if more.Err? then more else Ok(units.value.aus + more.value)
  }

  /** RTP ticks of a whole element. */
  function Span(m: Mux, spf: nat): nat { (m.numSubFrames + 1) * Ticks(m, spf) }

  datatype InBandOutcome = InBandOutcome(mux: Option<Mux>, result: Result<seq<AU>>)

  /** In-band elements of the bits that remain of a packet; the bits before `p` in the packet are read. */
  function InBand(m: Option<Mux>, spf: nat, bits: seq<bit>, elem: nat, at: nat): InBandOutcome
    decreases MaxMuxElements - elem
  {
    if elem >= MaxMuxElements then InBandOutcome(m, Ok([])) else
      var e := InBandElement(m, spf, bits, at);
      if e.units.Err? then InBandOutcome(e.mux, if elem == 0 then Err(e.units.error) else Ok([]))
      else if ZeroBits(e.units.value.rest) then
        InBandOutcome(e.mux, Ok(e.units.value.aus))
      else
        var more := InBand(e.mux, spf, e.units.value.rest, elem + 1, at + Span(e.mux.value, spf));
        InBandOutcome(more.mux, if more.result.Err? then more.result else Ok(e.units.value.aus + more.result.value))
  }

  /** The config retained after reset: the seed, when there is one and it parses. */
  function SeedMux(seed: seq<byte>): Option<Mux>
  {
    if seed == [] then None else
      var r := OutOfBandConfig(seed);
      if r.Ok? then Some(r.value) else None
  }

  /** Parse of the out-of-band config bytes, capped in length. */
  function OutOfBandConfig(config: seq<byte>): Result<Mux>
  {
    var capped := if |config| > MaxStreamMuxConfigBytes then config[..MaxStreamMuxConfigBytes] else config;
    var r := ParseMux(BitsOf(capped));
    if r.Err? then Err(r.error) else Ok(r.value.mux)
  }

  // ---- the depacketizer object ---------------------------------------------

  class Depacketizer {
    const muxConfigPresent: bool
    const seed: seq<byte>
    const samplesPerFrame: nat
    var haveSMC: bool
    var numSubFrames: nat
    var asc: array?<byte>
    var ascLen: nat
    var frameLength: nat
    var ascBuf: array?<byte>
    var inBandData: seq<byte>
    var aus: seq<AU>

    /** The two arrays, as a frame. */
    ghost function Buffers(): set<object>
      reads this
    {
      (if asc == null then {} else {asc as object}) + (if ascBuf == null then {} else {ascBuf as object})
    }

    /** Active and scratch AudioSpecificConfig never share an array. */
    ghost predicate Valid()
      reads this, Buffers()
    {
      && (asc == null || asc != ascBuf)
      && (haveSMC ==> asc != null)
      && (asc != null ==> ascLen <= asc.Length)
      && (!muxConfigPresent ==> haveSMC)
    }

    /** The retained config. */
    ghost function View(): Option<Mux>
      requires Valid()
      reads this, Buffers()
    {
      if haveSMC then Some(Mux(numSubFrames, asc[..ascLen], frameLength)) else None
    }

    /** The AudioSpecificConfig in force, or nothing before any config. */
    method AudioSpecificConfig() returns (r: Option<seq<byte>>)
      requires Valid()
      ensures r == if View().None? then None else Some(View().value.asc)
    {
      if !haveSMC {
        return None;
      }
      return Some(asc[..ascLen]);
    }

    constructor Empty(present: bool, seed: seq<byte>, spf: nat)
      ensures muxConfigPresent == present && this.seed == seed && samplesPerFrame == spf
      ensures !haveSMC && asc == null && ascBuf == null && aus == [] && inBandData == []
    {
      muxConfigPresent, this.seed, samplesPerFrame := present, seed, spf;
      haveSMC, numSubFrames, asc, ascLen, frameLength, ascBuf := false, 0, null, 0, 0, null;
      inBandData, aus := [], [];
    }

    static method New(present: bool, config: seq<byte>, spf: int) returns (d: Result<Depacketizer>)
      ensures if spf < 0 || spf > 8192 || (!present && config == []) then d == Err(ConfigInvalid)
              else if !present && OutOfBandConfig(config).Err? then d == Err(OutOfBandConfig(config).error)
              else d.Ok?
      ensures d.Ok? ==>
                && fresh(d.value) && fresh(d.value.Buffers()) && d.value.Valid()
                && d.value.muxConfigPresent == present && d.value.seed == config && d.value.samplesPerFrame as int == spf
                && d.value.View() == SeedMux(config)
    {
      hide OutOfBandConfig;
      if spf < 0 || spf > 8192 {
        return Err(ConfigInvalid);
      }
      var fresh' := new Depacketizer.Empty(present, config, spf);
      if present {
        fresh'.ApplySeed();
        return Ok(fresh');
      }
      if config == [] {
        return Err(ConfigInvalid);
      }
      var r := fresh'.Install();
      if r.Err? {
        return Err(r.error);
      }
      return Ok(fresh');
    }

    /** Parses the configured bytes into a fresh array and makes them the retained config. */
    method Install() returns (r: Result<bool>)
      modifies this`haveSMC, this`numSubFrames, this`asc, this`ascLen, this`frameLength
      ensures OutOfBandConfig(seed).Err? ==>
                && r == Err(OutOfBandConfig(seed).error) && haveSMC == old(haveSMC) && asc == old(asc)
                  && ascLen == old(ascLen)
                && numSubFrames == old(numSubFrames) && frameLength == old(frameLength)
      ensures OutOfBandConfig(seed).Ok? ==>
                && r.Ok? && haveSMC && asc != null && fresh(asc) && ascLen <= asc.Length
                && Mux(numSubFrames, asc[..ascLen], frameLength) == OutOfBandConfig(seed).value
    {
      hide ParseMux, BitsOf;
      var capped := if |seed| > MaxStreamMuxConfigBytes then seed[..MaxStreamMuxConfigBytes] else seed;
      var br := new BitReader(capped);
      var found := ParseMuxBits(br, null);
      if found.Err? {
        return Err(found.error);
      }
      numSubFrames, asc, ascLen, frameLength :=
        found.value.numSubFrames, found.value.asc, found.value.ascLen, found.value.frameLength;
      haveSMC := true;
      return Ok(true);
    }

    /** Installs the seed when one is configured and it parses; otherwise changes nothing. */
    method ApplySeed()
      requires muxConfigPresent && !haveSMC && asc == null
      modifies this`haveSMC, this`numSubFrames, this`asc, this`ascLen, this`frameLength
      ensures Valid() && View() == SeedMux(seed)
      ensures asc != null ==> fresh(asc)
    {
      hide OutOfBandConfig;
      if seed == [] {
        return;
      }
      var r := Install();
    }

    /**
     Forgets a config learned from the stream and re-establishes the seed's; an out-of-band
     config stays.
     */
    method Reset()
      requires Valid()
      modifies this
      ensures Valid() && fresh(Buffers() - old(Buffers()))
      ensures View() == if muxConfigPresent then SeedMux(seed) else old(View())
    {
      if !muxConfigPresent {
        return;
      }
      haveSMC := false;
      numSubFrames := 0;
      var cap := if asc == null then 0 else asc.Length;
      var capBuf := if ascBuf == null then 0 else ascBuf.Length;
      if cap > capBuf {
        ascBuf := asc;
      }
      asc := null;
      ascLen := 0;
      frameLength := 0;
      ApplySeed();
    }

    // ---- out of band -------------------------------------------------------

    /** Reads one slot of a byte-aligned payload. */
    static method ReadMuxSlot(payload: seq<byte>, offset: nat) returns (r: Result<Slot>, next: nat)
      requires offset <= |payload|
      ensures r == ReadSlot(payload[offset..], 0)
      ensures r.Ok? ==> next <= |payload| && r.value.rest == payload[next..]
    {
      var length: nat, at: nat := 0, offset;
      next := 0;
      while true
        invariant at <= |payload|
        invariant ReadSlot(payload[offset..], 0) == ReadSlot(payload[at..], length)
        decreases |payload| - at
      {
        ghost var p := payload[at..];
        if at >= |payload| {
          return Err(Truncated), 0;
        }
        var b := payload[at];
        at := at + 1;
        length := length + b;
        assert p[1..] == payload[at..];
        if length > MaxMuxSlotBytes {
          return Err(PayloadOverflow), 0;
        }
        if b != 0xFF {
          if at + length > |payload| {
            return Err(PayloadOverflow), 0;
          }
          assert p[1..1 + length] == payload[at..at + length] && p[1 + length..] == payload[at + length..];
          return Ok(Slot(payload[at..at + length], payload[at + length..])), at + length;
        }
      }
    }

    /** One out-of-band element: its units appended to `aus`, or an error with them rolled back. */
    method OutOfBandElement(payload: seq<byte>, offset: nat, at: nat) returns (r: Result<nat>)
      requires Valid() && haveSMC && offset <= |payload|
      modifies this`aus
      ensures Valid() && View() == old(View())
      ensures var ticks := Ticks(View().value, samplesPerFrame);
              var u := ReadSlots(payload[offset..], View().value.numSubFrames + 1, at, ticks);
              && (u.Err? ==> r == Err(u.error) && aus == old(aus))
              && (u.Ok? ==>
                    && r.Ok? && offset <= r.value <= |payload|
                    && u.value.rest == payload[r.value..]
                    && aus == old(aus) + u.value.aus)
    {
      hide ReadSlot;
      var mark := aus;
      var ticks := if samplesPerFrame != 0 then samplesPerFrame else frameLength;
      var next: nat, base: nat := offset, at;
      ghost var n := numSubFrames + 1;
      ghost var whole := ReadSlots(payload[offset..], n, at, ticks);
      ghost var done: seq<AU> := [];
      PrependNothing(whole);
      for i := 0 to numSubFrames + 1
        invariant Valid() && View() == old(View()) && ticks == Ticks(View().value, samplesPerFrame)
          && n == numSubFrames + 1
        invariant offset <= next <= |payload| && aus == mark + done
        invariant whole == PrependUnits(done, ReadSlots(payload[next..], n - i, base, ticks))
      {
        var slot, after := ReadMuxSlot(payload, next);
        SlotShrinks(payload[next..], 0);
        if slot.Err? {
          aus := mark;
          return Err(slot.error);
        }
        PrependStep(done, payload[next..], n - i, base, ticks);
        done := done + [AU(slot.value.data, base)];
        aus := aus + [AU(slot.value.data, base)];
        assert aus == mark + done;
        next := after;
        base := base + ticks;
      }
      assert done + [] == done;
      return Ok(next);
    }

    /** The access units of an out-of-band payload. */
    method DepacketizeOutOfBand(payload: seq<byte>) returns (r: Result<seq<AU>>)
      requires Valid() && haveSMC
      modifies this`aus
      ensures Valid() && View() == old(View())
      ensures r == OutOfBand(View().value, samplesPerFrame, payload, 0, 0)
    {
      hide ReadSlots;
      aus := [];
      var offset: nat, at: nat, elem: nat := 0, 0, 0;
      ghost var m := View().value;
      assert payload[0..] == payload;
      PrependAll([], OutOfBand(m, samplesPerFrame, payload, 0, 0));
      while true
        invariant Valid() && View() == Some(m) && offset <= |payload| && elem <= MaxMuxElements
        invariant elem == 0 ==> aus == []
        invariant OutOfBand(m, samplesPerFrame, payload, 0, 0)
                  == Prepended(aus, OutOfBand(m, samplesPerFrame, payload[offset..], elem, at))
        decreases MaxMuxElements - elem
      {
        if elem >= MaxMuxElements {
          assert aus + [] == aus;
          return Ok(aus);
        }
        ghost var before := aus;
        var next := OutOfBandElement(payload, offset, at);
        if next.Err? {
          if elem == 0 {
            return Err(next.error);
          }
          assert aus + [] == aus;
          return Ok(aus);
        }
        var ticks := if samplesPerFrame != 0 then samplesPerFrame else frameLength;
        offset := next.value;
        at := at + (numSubFrames + 1) * ticks;
        elem := elem + 1;
        if offset >= |payload| || AllZero(payload[offset..]) {
          return Ok(aus);
        }
        NeverErr(m, samplesPerFrame, payload[offset..], elem, at);
        PrependAppend(before, aus, OutOfBand(m, samplesPerFrame, payload[offset..], elem, at));
      }
    }

    // ---- in band -----------------------------------------------------------

    /** Length bytes, then that many bytes repacked from wherever they lie in the bit stream. */
    method ReadInBandSlot(br: BitReader) returns (r: Result<seq<byte>>)
      requires br.Valid()
      modifies br, this`inBandData
      ensures br.Valid()
      ensures var s := ReadBitSlot(old(br.Rest()), 0);
              if s.Err? then r == Err(s.error) else r == Ok(s.value.data) && br.Rest() == s.value.rest
    {
      hide Take, Pack, BitsOf;
      var length: nat := 0;
      while true
        invariant br.Valid()
        invariant ReadBitSlot(old(br.Rest()), 0) == ReadBitSlot(br.Rest(), length)
        decreases 8 * |br.buf| - br.pos
      {
        OnlyTruncation(br.Rest(), 8);
        var b, ok := br.Read(8);
        if !ok {
          return Err(Truncated);
        }
        length := length + b;
        if length > MaxMuxSlotBytes {
          return Err(PayloadOverflow);
        }
        if b != 0xFF {
          break;
        }
      }
      if br.pos + length * 8 > |br.buf| * 8 {
        return Err(PayloadOverflow);
      }
      var start := |inBandData|;
      var region := new byte[length];
      BlitBits(region, br.buf, br.pos, length * 8);
      ghost var field := Pack(br.Rest()[..8 * length]);
      assert br.Rest()[..8 * length] == BitsOf(br.buf)[br.pos..br.pos + length * 8];
      assert region[..] == field;
      inBandData := inBandData + region[..];
      br.pos := br.pos + length * 8;
      return Ok(inBandData[start..]);
    }

    /** `n` slots, each repacked into its own region of the shared buffer. */
    method ReadInBandUnits(br: BitReader, n: nat, at: nat, ticks: nat) returns (r: Result<bool>)
      requires br.Valid()
      modifies br, this`inBandData, this`aus
      ensures br.Valid()
      ensures var u := ReadBitSlots(old(br.Rest()), n, at, ticks);
              if u.Err? then r == Err(u.error) && old(aus) <= aus
              else r.Ok? && aus == old(aus) + u.value.aus && br.Rest() == u.value.rest
    {
      hide ReadBitSlot, BitsOf;
      var mark := aus;
      var base: nat := at;
      ghost var whole := ReadBitSlots(br.Rest(), n, at, ticks);
      ghost var done: seq<AU> := [];
      PrependNoBits(whole);
      for i := 0 to n
        invariant br.Valid() && aus == mark + done
        invariant whole == PrependBits(done, ReadBitSlots(br.Rest(), n - i, base, ticks))
      {
        ghost var bits := br.Rest();
        var data := ReadInBandSlot(br);
        if data.Err? {
          return Err(data.error);
        }
        PrependBitStep(done, bits, n - i, base, ticks);
        done := done + [AU(data.value, base)];
        aus := aus + [AU(data.value, base)];
        assert aus == mark + done;
        base := base + ticks;
      }
      assert done + [] == done;
      return Ok(true);
    }

    /** The slots of one in-band element under the retained config, then byte alignment. */
    method ReadInBandSlots(br: BitReader, at: nat) returns (r: Result<nat>)
      requires Valid() && haveSMC && br.Valid()
      modifies br, this`inBandData, this`aus
      ensures Valid() && br.Valid() && View() == old(View()) && Buffers() == old(Buffers())
      ensures var e := ElementSlots(View().value, samplesPerFrame, old(br.Rest()), at);
              if e.units.Err? then r == Err(e.units.error) && old(aus) <= aus
              else
                && r == Ok(Span(View().value, samplesPerFrame))
                && aus == old(aus) + e.units.value.aus
                && br.Rest() == e.units.value.rest && br.pos % 8 == 0
    {
      hide ReadBitSlots, BitsOf, Span, Ticks;
      ghost var m := View().value;
      var ticks := if samplesPerFrame != 0 then samplesPerFrame else frameLength;
      var span := (numSubFrames + 1) * ticks;
      TicksAndSpan(m, samplesPerFrame);
      assert ticks == Ticks(m, samplesPerFrame) && span == Span(m, samplesPerFrame);
      var units := ReadInBandUnits(br, numSubFrames + 1, at, ticks);
      assert View() == Some(m);
      if units.Err? {
        return Err(units.error);
      }
      br.ByteAlign();
      return Ok(span);
    }

    /**
     One in-band element.  An inline config is parsed into the scratch array and the two
     arrays trade places only on success, so a parse that fails at any field leaves the
     retained config, AudioSpecificConfig bytes included, as it was.
     */
    method InBandElementStep(br: BitReader, at: nat) returns (r: Result<nat>)
      requires Valid() && muxConfigPresent && br.Valid()
      modifies this, br, Buffers()
      ensures Valid() && br.Valid() && fresh(Buffers() - old(Buffers()))
      ensures var e := InBandElement(old(View()), samplesPerFrame, old(br.Rest()), at);
              && View() == e.mux
              && if e.units.Err? then r == Err(e.units.error) && old(aus) <= aus
                 else
                   && r == Ok(Span(View().value, samplesPerFrame))
                   && aus == old(aus) + e.units.value.aus
                   && br.Rest() == e.units.value.rest && br.pos % 8 == 0
    {
      hide Take, ParseMux, ElementSlots, BitsOf;
      OnlyTruncation(br.Rest(), 1);
      var same, ok := br.Read(1);
      if !ok {
        return Err(Truncated);
      }
      if same == 0 {
        var found := ParseMuxBits(br, ascBuf);
        if found.Err? {
          return Err(found.error);
        }
        numSubFrames := found.value.numSubFrames;
        ascBuf := asc;
        asc, ascLen := found.value.asc, found.value.ascLen;
        frameLength := found.value.frameLength;
        haveSMC := true;
      } else if !haveSMC {
        return Err(NoConfig);
      }
      r := ReadInBandSlots(br, at);
    }

    /** Nothing but zeros is left, or nothing at all. */
    static method OnlyPadding(br: BitReader) returns (b: bool)
      requires br.Valid() && br.pos % 8 == 0
      ensures b == ZeroBits(br.Rest())
    {
      hide BitsOf;
      ZeroTail(br.buf, br.pos / 8);
      b := br.pos >= |br.buf| * 8 || AllZero(br.buf[br.pos / 8..]);
    }

    /** One turn of the element loop: either the packet is finished, or one more element is done. */
    method InBandTurn(br: BitReader, elem: nat, at: nat) returns (r: Option<Result<seq<AU>>>, span: nat)
      requires Valid() && muxConfigPresent && br.Valid() && elem < MaxMuxElements && (elem == 0 ==> aus == [])
      modifies this, br, Buffers()
      ensures Valid() && br.Valid() && fresh(Buffers() - old(Buffers()))
      ensures var whole := Onto(old(aus), InBand(old(View()), samplesPerFrame, old(br.Rest()), elem, at));
              if r.Some? then InBandOutcome(View(), r.value) == whole
              else Onto(aus, InBand(View(), samplesPerFrame, br.Rest(), elem + 1, at + span)) == whole
    {
      hide InBand, InBandElement, BitsOf, ZeroBits, Span;
      InBandUnfold(aus, View(), samplesPerFrame, br.Rest(), elem, at);
      span := 0;
      var mark := aus;
      var step := InBandElementStep(br, at);
      if step.Err? {
        if elem == 0 {
          return Some(Err(step.error)), 0;
        }
        aus := mark;
        return Some(Ok(aus)), 0;
      }
      var stop := OnlyPadding(br);
      if stop {
        return Some(Ok(aus)), 0;
      }
      return None, step.value;
    }

    /** The access units of an in-band payload. */
    method DepacketizeInBand(payload: seq<byte>) returns (r: Result<seq<AU>>)
      requires Valid() && muxConfigPresent
      modifies this, Buffers()
      ensures Valid() && fresh(Buffers() - old(Buffers()))
      ensures InBandOutcome(View(), r) == InBand(old(View()), samplesPerFrame, BitsOf(payload), 0, 0)
    {
      hide InBand, BitsOf, Onto;
      var br := new BitReader(payload);
      aus := [];
      inBandData := [];
      var at: nat, elem: nat := 0, 0;
      ghost var whole := InBand(View(), samplesPerFrame, br.Rest(), 0, 0);
      OntoNothing(whole);
      while elem < MaxMuxElements
        invariant Valid() && br.Valid() && elem <= MaxMuxElements
        invariant fresh(br) && fresh(Buffers() - old(Buffers()))
        invariant elem == 0 ==> aus == []
        invariant whole == Onto(aus, InBand(View(), samplesPerFrame, br.Rest(), elem, at))
      {
        var finished, span := InBandTurn(br, elem, at);
        if finished.Some? {
          return finished.value;
        }
        at := at + span;
        elem := elem + 1;
      }
      InBandUnfold(aus, View(), samplesPerFrame, br.Rest(), elem, at);
      return Ok(aus);
    }

    /** One RTP payload, in whichever mode the depacketizer was built for. */
    method Depacketize(payload: seq<byte>) returns (r: Result<seq<AU>>)
      requires Valid()
      modifies this, Buffers()
      ensures Valid() && fresh(Buffers() - old(Buffers()))
      ensures InBandOutcome(View(), r)
              == if muxConfigPresent then InBand(old(View()), samplesPerFrame, BitsOf(payload), 0, 0)
                 else InBandOutcome(old(View()), OutOfBand(old(View()).value, samplesPerFrame, payload, 0, 0))
    {
      hide InBand, OutOfBand;
      if muxConfigPresent {
        r := DepacketizeInBand(payload);
      } else {
        r := DepacketizeOutOfBand(payload);
      }
    }
  }

  // ---- bookkeeping of partial results --------------------------------------

  function Prepended<T>(front: seq<T>, r: Result<seq<T>>): Result<seq<T>>
  {
    if r.Err? then r else Ok(front + r.value)
  }

  lemma PrependAll<T>(front: seq<T>, r: Result<seq<T>>)
    requires front == []
    ensures Prepended(front, r) == r
  {
    if r.Ok? {
      assert [] + r.value == r.value;
    }
  }

  lemma PrependAppend<T>(before: seq<T>, after: seq<T>, r: Result<seq<T>>)
    requires r.Ok? && before <= after
    ensures Prepended(before, Ok(after[|before|..] + r.value)) == Prepended(after, r)
  {
    assert before + (after[|before|..] + r.value) == after + r.value;
  }

  function PrependUnits(front: seq<AU>, r: Result<Units>): Result<Units>
  {
    if r.Err? then r else Ok(Units(front + r.value.aus, r.value.rest))
  }

  lemma PrependNothing(r: Result<Units>)
    ensures PrependUnits([], r) == r
  {
    if r.Ok? {
      assert [] + r.value.aus == r.value.aus;
    }
  }

  lemma PrependStep(front: seq<AU>, p: seq<byte>, n: nat, at: nat, ticks: nat)
    requires 0 < n && ReadSlot(p, 0).Ok?
    ensures var s := ReadSlot(p, 0).value;
            PrependUnits(front, ReadSlots(p, n, at, ticks))
            == PrependUnits(front + [AU(s.data, at)], ReadSlots(s.rest, n - 1, at + ticks, ticks))
  {
    var s := ReadSlot(p, 0).value;
    var more := ReadSlots(s.rest, n - 1, at + ticks, ticks);
    if more.Ok? {
      assert front + ([AU(s.data, at)] + more.value.aus) == front + [AU(s.data, at)] + more.value.aus;
    }
  }

  lemma {:induction false} SlotShrinks(p: seq<byte>, sum: nat)
    ensures ReadSlot(p, sum).Ok? ==> |ReadSlot(p, sum).value.rest| < |p|
    decreases |p|
  {
    if p != [] && p[0] == 0xFF {
      SlotShrinks(p[1..], sum + p[0]);
    }
  }

  function PrependBits(front: seq<AU>, r: Result<BitUnits>): Result<BitUnits>
  {
    if r.Err? then r else Ok(BitUnits(front + r.value.aus, r.value.rest))
  }

  lemma PrependNoBits(r: Result<BitUnits>)
    ensures PrependBits([], r) == r
  {
    if r.Ok? {
      assert [] + r.value.aus == r.value.aus;
    }
  }

  lemma PrependBitStep(front: seq<AU>, bits: seq<bit>, n: nat, at: nat, ticks: nat)
    requires 0 < n && ReadBitSlot(bits, 0).Ok?
    ensures var s := ReadBitSlot(bits, 0).value;
            PrependBits(front, ReadBitSlots(bits, n, at, ticks))
            == PrependBits(front + [AU(s.data, at)], ReadBitSlots(s.rest, n - 1, at + ticks, ticks))
  {
    hide ReadBitSlot;
    var s := ReadBitSlot(bits, 0).value;
    var more := ReadBitSlots(s.rest, n - 1, at + ticks, ticks);
    if more.Ok? {
      assert front + ([AU(s.data, at)] + more.value.aus) == front + [AU(s.data, at)] + more.value.aus;
    }
  }

  function Onto(front: seq<AU>, o: InBandOutcome): InBandOutcome
  {
    InBandOutcome(o.mux, Prepended(front, o.result))
  }

  lemma TicksAndSpan(m: Mux, spf: nat)
    ensures Ticks(m, spf) == if spf != 0 then spf else m.frameLength
    ensures Span(m, spf) == (m.numSubFrames + 1) * Ticks(m, spf)
  {
  }

  lemma OntoNothing(o: InBandOutcome)
    ensures Onto([], o) == o
  {
    PrependAll([], o.result);
  }

  /** One element of the reference, with what earlier elements delivered in front. */
  lemma InBandUnfold(front: seq<AU>, m: Option<Mux>, spf: nat, bits: seq<bit>, elem: nat, at: nat)
    ensures elem >= MaxMuxElements ==> Onto(front, InBand(m, spf, bits, elem, at)) == InBandOutcome(m, Ok(front))
    ensures elem < MaxMuxElements ==>
              var e := InBandElement(m, spf, bits, at);
              Onto(front, InBand(m, spf, bits, elem, at))
              == if e.units.Err? then InBandOutcome(e.mux, if elem == 0 then Err(e.units.error) else Ok(front))
                 else if ZeroBits(e.units.value.rest) then InBandOutcome(e.mux, Ok(front + e.units.value.aus))
                 else Onto(front + e.units.value.aus,
                           InBand(e.mux, spf, e.units.value.rest, elem + 1, at + Span(e.mux.value, spf)))
  {
    hide InBandElement, ZeroBits, Span;
    assert front + [] == front;
    if elem < MaxMuxElements {
      var e := InBandElement(m, spf, bits, at);
      if e.units.Ok? && !ZeroBits(e.units.value.rest) {
        var more := InBand(e.mux, spf, e.units.value.rest, elem + 1, at + Span(e.mux.value, spf));
        InBandNeverErr(e.mux, spf, e.units.value.rest, elem + 1, at + Span(e.mux.value, spf));
        assert front + (e.units.value.aus + more.result.value) == front + e.units.value.aus + more.result.value;
      }
    }
  }

  lemma InBandNeverErr(m: Option<Mux>, spf: nat, bits: seq<bit>, elem: nat, at: nat)
    requires 0 < elem
    ensures InBand(m, spf, bits, elem, at).result.Ok?
    decreases MaxMuxElements - elem
  {
    hide InBandElement, ZeroBits, Span;
    if elem < MaxMuxElements {
      var e := InBandElement(m, spf, bits, at);
      if e.units.Ok? {
        InBandNeverErr(e.mux, spf, e.units.value.rest, elem + 1, at + Span(e.mux.value, spf));
      }
    }
  }

  /** Trailing bytes are all zero exactly when their bits are. */
  lemma ZeroTail(payload: seq<byte>, k: nat)
    requires k <= |payload|
    ensures AllZero(payload[k..]) <==> ZeroBits(BitsOf(payload)[8 * k..])
  {
    hide BitsOf, ZeroBits, AllZero;
    BitsOfSlice(payload, k, |payload|);
    assert payload[k..|payload|] == payload[k..];
    assert BitsOf(payload)[8 * k..8 * |payload|] == BitsOf(payload)[8 * k..];
    ZeroBytes(payload[k..]);
  }

  lemma {:induction false} ZeroBytes(b: seq<byte>)
    ensures AllZero(b) <==> ZeroBits(BitsOf(b))
  {
    hide ByteBits, ZeroBits;
    if b == [] {
      assert ZeroBits([]) by { NoZeroBits(); }
    } else {
      ZeroBytes(b[1..]);
      ZeroBitsConcat(ByteBits(b[0]), BitsOf(b[1..]));
      ZeroByteBits(b[0]);
      assert b == [b[0]] + b[1..];
    }
  }

  lemma NoZeroBits()
    ensures ZeroBits([])
  {
  }

  lemma ZeroBitsConcat(x: seq<bit>, y: seq<bit>)
    ensures ZeroBits(x + y) <==> ZeroBits(x) && ZeroBits(y)
  {
    if ZeroBits(x + y) {
      forall i | 0 <= i < |x| ensures x[i] == 0 {
        assert (x + y)[i] == x[i];
      }
      forall i | 0 <= i < |y| ensures y[i] == 0 {
        assert (x + y)[|x| + i] == y[i];
      }
    }
  }

  lemma ZeroByteBits(b: byte)
    ensures b == 0 <==> ZeroBits(ByteBits(b))
  {
    hide ByteBits;
    ByteValue(b);
    ZerosValue(8);
    if b == 0 {
      ValueInjective(ByteBits(b), Zeros(8));
    }
    if ZeroBits(ByteBits(b)) {
      assert ByteBits(b) == Zeros(8);
    }
  }

  /** Only the first element of a packet can fail it. */
  lemma NeverErr(m: Mux, spf: nat, p: seq<byte>, elem: nat, at: nat)
    requires 0 < elem
    ensures OutOfBand(m, spf, p, elem, at).Ok?
    decreases MaxMuxElements - elem
  {
    hide ReadSlots;
    if elem < MaxMuxElements {
      var u := ReadSlots(p, m.numSubFrames + 1, at, Ticks(m, spf));
      if u.Ok? {
        NeverErr(m, spf, u.value.rest, elem + 1, at + Span(m, spf));
      }
    }
  }
}
