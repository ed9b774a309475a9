/**
 LATM as it is written (ISO/IEC 14496-3 section 1.7.3): a StreamMuxConfig from its fields, and
 AudioMuxElements from their access units.  What the depacketizer reads is stated in terms of what was
 written.
 */
module LatmWriter {
  import opened Bits
  import opened LatmMux
  import opened Latm

  // ---- the configuration ---------------------------------------------------

  datatype Rate = Index(i: nat) | Hertz(hz: nat)

  /** An AudioSpecificConfig of the general audio kind. */
  datatype AscFields = AscFields(
    objectType: nat, rate: Rate, channels: nat, shortFrames: bool, coreDelay: Option<nat>, extended: bool)

  /** A StreamMuxConfig of audioMuxVersion 0, whatever the decoder supports of it. */
  datatype MuxFields = MuxFields(
    version: bit, sameFraming: bit, subFrames: nat, programs: nat, layers: nat, asc: AscFields,
    lengthType: nat, fullness: byte, other: seq<byte>, crc: Option<byte>)

  predicate ValidAsc(a: AscFields)
  {
    && (a.objectType < 31 || 32 <= a.objectType < 96)
    && (match a.rate case Index(i) => i < 15 case Hertz(hz) => hz < 0x100_0000)
    && a.channels < 16
    && (a.coreDelay.Some? ==> a.coreDelay.value < 16384)
  }

  predicate ValidMux(f: MuxFields)
  {
    f.subFrames < 64 && f.programs < 16 && f.layers < 8 && f.lengthType < 8 && ValidAsc(f.asc)
  }

  lemma Widths()
    ensures Pow2(3) == 8 && Pow2(4) == 16 && Pow2(5) == 32 && Pow2(6) == 64 && Pow2(8) == 256
    ensures Pow2(14) == 16384 && Pow2(24) == 0x100_0000
  {
    assert Pow2(8) == 256 && Pow2(14) == 64 * Pow2(8) && Pow2(19) == 32 * Pow2(14) && Pow2(24) == 32 * Pow2(19);
  }

  function ObjectTypeBits(t: nat): seq<bit>
    requires t < 31 || 32 <= t < 96
  {
    Widths();
    if t < 31 then FieldBits(t, 5) else FieldBits(31, 5) + FieldBits(t - 32, 6)
  }

  function RateBits(r: Rate): seq<bit>
    requires match r case Index(i) => i < 15 case Hertz(hz) => hz < 0x100_0000
  {
    Widths();
    match r
    case Index(i) => FieldBits(i, 4)
    case Hertz(hz) => FieldBits(15, 4) + FieldBits(hz, 24)
  }

  function DelayBits(d: Option<nat>): seq<bit>
    requires d.Some? ==> d.value < 16384
  {
    Widths();
    if d.None? then [0] else [1] + FieldBits(d.value, 14)
  }

  function Flag(b: bool): seq<bit> { if b then [1] else [0] }

  /** frameLengthFlag, dependsOnCoreCoder with its delay, extensionFlag. */
  function SpecificBits(a: AscFields): seq<bit>
    requires ValidAsc(a)
  {
    Flag(a.shortFrames) + DelayBits(a.coreDelay) + Flag(a.extended)
  }

  function AscBits(a: AscFields): seq<bit>
    requires ValidAsc(a)
  {
    Widths();
    ObjectTypeBits(a.objectType) + RateBits(a.rate) + FieldBits(a.channels, 4) + SpecificBits(a)
  }

  /** Groups of an escape bit and eight bits, the escape clear on the last. */
  function GroupBits(groups: seq<byte>): seq<bit>
  {
    Widths();
    if groups == [] then [] else
      (if |groups| == 1 then [0] else [1]) + FieldBits(groups[0], 8) + GroupBits(groups[1..])
  }

  function OtherBits(groups: seq<byte>): seq<bit>
  {
    if groups == [] then [0] else [1] + GroupBits(groups)
  }

  function CrcBits(crc: Option<byte>): seq<bit>
  {
    Widths();
    if crc.None? then [0] else [1] + FieldBits(crc.value, 8)
  }

  function PrefixBits(f: MuxFields): seq<bit>
    requires ValidMux(f)
  {
    Widths();
    [f.version] + [f.sameFraming] + FieldBits(f.subFrames, 6) + FieldBits(f.programs, 4) + FieldBits(f.layers, 3)
  }

  function SuffixBits(f: MuxFields): seq<bit>
    requires ValidMux(f)
  {
    Widths();
    FieldBits(f.lengthType, 3) + FieldBits(f.fullness, 8) + OtherBits(f.other) + CrcBits(f.crc)
  }

  function MuxBits(f: MuxFields): seq<bit>
    requires ValidMux(f)
  {
    PrefixBits(f) + AscBits(f.asc) + SuffixBits(f)
  }

  // ---- what is meant by it -------------------------------------------------

  /** What the depacketizer does not support of a configuration, in the order it is met. */
  function Unsupported(f: MuxFields): Option<Error>
  {
    if f.version != 0 || f.sameFraming != 1 || f.programs != 0 || f.layers != 0 then Some(UnsupportedMux)
    else if f.asc.objectType !in {1, 2, 3, 4, 6, 7} || f.asc.channels == 0 || f.asc.extended then Some(UnsupportedASC)
    else if f.lengthType != 0 then Some(UnsupportedMux)
    else None
  }

  /** The parameters meant: 960 samples a unit exactly for short frames, 1024 otherwise. */
  function Meant(f: MuxFields): Mux
    requires ValidMux(f)
  {
    Mux(f.subFrames, Pack(AscBits(f.asc)), if f.asc.shortFrames then 960 else 1024)
  }

  // ---- reading it back -----------------------------------------------------

  lemma TakeField(v: nat, n: nat, more: seq<bit>)
    requires v < Pow2(n)
    ensures Take(FieldBits(v, n) + more, n) == Ok(Taken(v, more))
  {
    hide Value, FieldBits;
    var f := FieldBits(v, n);
    assert (f + more)[..n] == f && (f + more)[n..] == more;
  }

  lemma TakeBit(b: bit, more: seq<bit>)
    ensures Take([b] + more, 1) == Ok(Taken(b, more))
  {
    assert ([b] + more)[..1] == [b] && ([b] + more)[1..] == more;
    assert [b][..0] == [] && Value([b]) == b;
  }

  lemma ObjectTypeReads(t: nat, more: seq<bit>)
    requires t < 31 || 32 <= t < 96
    ensures TakeObjectType(ObjectTypeBits(t) + more) == Ok(Taken(t, more))
  {
    hide Take, FieldBits;
    Widths();
    if t < 31 {
      TakeField(t, 5, more);
    } else {
      assert FieldBits(31, 5) + FieldBits(t - 32, 6) + more == FieldBits(31, 5) + (FieldBits(t - 32, 6) + more);
      TakeField(31, 5, FieldBits(t - 32, 6) + more);
      TakeField(t - 32, 6, more);
    }
  }

  lemma RateReads(r: Rate, more: seq<bit>)
    requires match r case Index(i) => i < 15 case Hertz(hz) => hz < 0x100_0000
    ensures TakeSamplingFrequency(RateBits(r) + more)
            == Ok(Taken(match r case Index(i) => i case Hertz(hz) => hz, more))
  {
    hide Take, FieldBits;
    Widths();
    match r
    case Index(i) => TakeField(i, 4, more);
    case Hertz(hz) =>
      assert FieldBits(15, 4) + FieldBits(hz, 24) + more == FieldBits(15, 4) + (FieldBits(hz, 24) + more);
      TakeField(15, 4, FieldBits(hz, 24) + more);
      TakeField(hz, 24, more);
  }

  lemma SpecificReads(a: AscFields, more: seq<bit>)
    requires ValidAsc(a)
    ensures TakeGASpecific(SpecificBits(a) + more) ==
            if a.extended then Err(UnsupportedASC) else Ok(Asc(if a.shortFrames then 960 else 1024, more))
  {
    hide Take, FieldBits;
    Widths();
    var ext := Flag(a.extended) + more;
    TakeBit(if a.extended then 1 else 0, more);
    var dep := DelayBits(a.coreDelay) + ext;
    assert SpecificBits(a) + more == Flag(a.shortFrames) + dep;
    TakeBit(if a.shortFrames then 1 else 0, dep);
    if a.coreDelay.Some? {
      var delay := FieldBits(a.coreDelay.value, 14) + ext;
      assert dep == [1] + delay;
      TakeBit(1, delay);
      TakeField(a.coreDelay.value, 14, ext);
    } else {
      assert dep == [0] + ext;
      TakeBit(0, ext);
    }
  }

  lemma AscReads(a: AscFields, more: seq<bit>)
    requires ValidAsc(a)
    ensures ParseASC(AscBits(a) + more) ==
            if a.objectType !in {1, 2, 3, 4, 6, 7} || a.channels == 0 || a.extended then Err(UnsupportedASC)
            else Ok(Asc(if a.shortFrames then 960 else 1024, more))
  {
    hide Take, FieldBits, TakeObjectType, TakeSamplingFrequency, TakeGASpecific, ObjectTypeBits, RateBits, SpecificBits;
    Widths();
    var specific := SpecificBits(a) + more;
    var channels := FieldBits(a.channels, 4) + specific;
    var rate := RateBits(a.rate) + channels;
    assert AscBits(a) + more == ObjectTypeBits(a.objectType) + rate;
    ObjectTypeReads(a.objectType, rate);
    RateReads(a.rate, channels);
    TakeField(a.channels, 4, specific);
    SpecificReads(a, more);
  }

  /** One group in front of others. */
  lemma GroupReads(esc: bit, len: byte, next: seq<bit>)
    ensures Pow2(8) == 256
    ensures SkipOtherData([esc] + (FieldBits(len, 8) + next)) == if esc == 0 then Ok(next) else SkipOtherData(next)
  {
    hide Take, FieldBits;
    Widths();
    TakeBit(esc, FieldBits(len, 8) + next);
    TakeField(len, 8, next);
  }

  lemma {:induction false} GroupsRead(groups: seq<byte>, more: seq<bit>)
    requires groups != []
    ensures SkipOtherData(GroupBits(groups) + more) == Ok(more)
    decreases |groups|
  {
    hide SkipOtherData, FieldBits;
    Widths();
    var next := GroupBits(groups[1..]) + more;
    var esc: bit := if |groups| == 1 then 0 else 1;
    GroupReads(esc, groups[0], next);
    assert GroupBits(groups) + more == [esc] + (FieldBits(groups[0], 8) + next);
    if |groups| > 1 {
      GroupsRead(groups[1..], more);
    } else {
      assert next == more;
    }
  }

  lemma PrefixReads(f: MuxFields, more: seq<bit>)
    requires ValidMux(f)
    ensures TakePrefix(PrefixBits(f) + more) ==
            if f.version != 0 || f.sameFraming != 1 || f.programs != 0 || f.layers != 0 then Err(UnsupportedMux)
            else Ok(Taken(f.subFrames, more))
  {
    hide Take, FieldBits;
    Widths();
    var layers := FieldBits(f.layers, 3) + more;
    var programs := FieldBits(f.programs, 4) + layers;
    var sub := FieldBits(f.subFrames, 6) + programs;
    var same := [f.sameFraming] + sub;
    assert PrefixBits(f) + more == [f.version] + same;
    TakeBit(f.version, same);
    TakeBit(f.sameFraming, sub);
    TakeField(f.subFrames, 6, programs);
    TakeField(f.programs, 4, layers);
    TakeField(f.layers, 3, more);
  }

  lemma CrcReads(crc: Option<byte>, more: seq<bit>)
    ensures var t := Take(CrcBits(crc) + more, 1);
            && t.Ok? && (crc.None? ==> t.value == Taken(0, more))
            && (crc.Some? ==> t.value.v == 1 && Take(t.value.rest, 8) == Ok(Taken(crc.value, more)))
  {
    hide Take, FieldBits;
    Widths();
    if crc.Some? {
      assert CrcBits(crc) + more == [1] + (FieldBits(crc.value, 8) + more);
      TakeBit(1, FieldBits(crc.value, 8) + more);
      TakeField(crc.value, 8, more);
    } else {
      TakeBit(0, more);
    }
  }

  lemma OtherReads(groups: seq<byte>, more: seq<bit>)
    ensures var t := Take(OtherBits(groups) + more, 1);
            && t.Ok? && (groups == [] ==> t.value == Taken(0, more))
            && (groups != [] ==> t.value.v == 1 && SkipOtherData(t.value.rest) == Ok(more))
  {
    hide Take, GroupBits, SkipOtherData;
    if groups == [] {
      TakeBit(0, more);
    } else {
      assert OtherBits(groups) + more == [1] + (GroupBits(groups) + more);
      TakeBit(1, GroupBits(groups) + more);
      GroupsRead(groups, more);
    }
  }

  lemma SuffixReads(f: MuxFields, more: seq<bit>)
    requires ValidMux(f)
    ensures TakeSuffix(SuffixBits(f) + more) == if f.lengthType != 0 then Err(UnsupportedMux) else Ok(more)
  {
    hide Take, FieldBits, OtherBits, CrcBits, SkipOtherData;
    Widths();
    var crc := CrcBits(f.crc) + more;
    var other := OtherBits(f.other) + crc;
    var full := FieldBits(f.fullness, 8) + other;
    assert SuffixBits(f) + more == FieldBits(f.lengthType, 3) + full;
    TakeField(f.lengthType, 3, full);
    TakeField(f.fullness, 8, other);
    OtherReads(f.other, crc);
    CrcReads(f.crc, more);
  }

  /**
   A StreamMuxConfig written from its fields is read as meant, with exactly the bits behind it left
   over, or refused for the first thing in it that is not supported.
   */
  lemma MuxReadsBack(f: MuxFields, more: seq<bit>)
    requires ValidMux(f)
    ensures ParseMux(MuxBits(f) + more) ==
            if Unsupported(f).Some? then Err(Unsupported(f).value) else Ok(Parsed(Meant(f), more))
  {
    hide TakePrefix, ParseASC, TakeSuffix, PrefixBits, AscBits, SuffixBits, Pack;
    var suffix := SuffixBits(f) + more;
    var asc := AscBits(f.asc) + suffix;
    assert MuxBits(f) + more == PrefixBits(f) + asc;
    PrefixReads(f, asc);
    AscReads(f.asc, suffix);
    SuffixReads(f, more);
    assert Front(asc, suffix) == AscBits(f.asc);
  }

  /** As configuration bytes, padded to whole ones, within the cap. */
  lemma ConfigReadsBack(f: MuxFields)
    requires ValidMux(f) && |MuxBits(f)| <= 8 * MaxStreamMuxConfigBytes
    ensures OutOfBandConfig(Pack(MuxBits(f))) ==
            if Unsupported(f).Some? then Err(Unsupported(f).value) else Ok(Meant(f))
  {
    hide ParseMux, MuxBits, Unsupported, Meant, BitsOf;
    var bits := MuxBits(f);
    PackBits(bits);
    MuxReadsBack(f, Zeros(8 * |Pack(bits)| - |bits|));
  }

  // ---- slots ---------------------------------------------------------------

  /** A length as a byte sum: 255 for every whole 255, then the rest. */
  function LengthBytes(n: nat): seq<byte>
  {
    if n < 255 then [n] else [255] + LengthBytes(n - 255)
  }

  function SlotBytes(data: seq<byte>): seq<byte> { LengthBytes(|data|) + data }

  function SlotsBytes(units: seq<seq<byte>>): seq<byte>
  {
    if units == [] then [] else SlotBytes(units[0]) + SlotsBytes(units[1..])
  }

  /** Unit `i` at `i` times `ticks` after the first. */
  function UnitsAt(units: seq<seq<byte>>, at: nat, ticks: nat): (r: seq<AU>)
    ensures |r| == |units|
  {
    seq(|units|, i requires 0 <= i < |units| => AU(units[i], at + i * ticks))
  }

  /** No slot is longer than the depacketizer takes. */
  predicate Fit(units: seq<seq<byte>>)
  {
    forall i :: 0 <= i < |units| ==> |units[i]| <= MaxMuxSlotBytes
  }

  lemma {:induction false} SlotReadsFrom(n: nat, sum: nat, data: seq<byte>, more: seq<byte>)
    requires sum + n == |data| <= MaxMuxSlotBytes
    ensures ReadSlot(LengthBytes(n) + (data + more), sum) == Ok(Slot(data, more))
    decreases n
  {
    var p := LengthBytes(n) + (data + more);
    if n < 255 {
      assert p[1..] == data + more;
      assert p[1..1 + |data|] == data && p[1 + |data|..] == more;
    } else {
      assert p == [255] + (LengthBytes(n - 255) + (data + more));
      assert p[1..] == LengthBytes(n - 255) + (data + more);
      SlotReadsFrom(n - 255, sum + 255, data, more);
    }
  }

  lemma {:induction false} SlotsReadBack(units: seq<seq<byte>>, more: seq<byte>, at: nat, ticks: nat)
    requires Fit(units)
    ensures ReadSlots(SlotsBytes(units) + more, |units|, at, ticks) == Ok(Units(UnitsAt(units, at, ticks), more))
    decreases |units|
  {
    if units == [] {
      assert SlotsBytes(units) + more == more;
    } else {
      hide ReadSlot, LengthBytes;
      var rest := SlotsBytes(units[1..]) + more;
      assert SlotsBytes(units) + more == LengthBytes(|units[0]|) + (units[0] + rest);
      SlotReadsFrom(|units[0]|, 0, units[0], rest);
      SlotsReadBack(units[1..], more, at + ticks, ticks);
      UnitsAtStep(units, at, ticks);
    }
  }

  lemma UnitsAtStep(units: seq<seq<byte>>, at: nat, ticks: nat)
    requires units != []
    ensures UnitsAt(units, at, ticks) == [AU(units[0], at)] + UnitsAt(units[1..], at + ticks, ticks)
  {
    var tail := UnitsAt(units[1..], at + ticks, ticks);
    forall i | 0 < i < |units|
      ensures UnitsAt(units, at, ticks)[i] == tail[i - 1]
    {
      assert i * ticks == ticks + (i - 1) * ticks;
    }
  }

  /** The distance of two units in RTP ticks: as configured, or else the frame length. */
  function Spacing(m: Mux, spf: nat): nat { if spf == 0 then m.frameLength else spf }

  lemma SpacingIs(m: Mux, spf: nat)
    ensures Ticks(m, spf) == Spacing(m, spf)
  {
  }

  /** As many units as the configuration has subframes. */
  predicate Element(units: seq<seq<byte>>, m: Mux) { |units| == m.numSubFrames + 1 && Fit(units) }

  // ---- out of band ---------------------------------------------------------

  function ElementsBytes(es: seq<seq<seq<byte>>>): seq<byte>
  {
    if es == [] then [] else SlotsBytes(es[0]) + ElementsBytes(es[1..])
  }

  /** Every unit of every element, one frame length after the other. */
  function AllUnits(es: seq<seq<seq<byte>>>): seq<seq<byte>>
  {
    if es == [] then [] else es[0] + AllUnits(es[1..])
  }

  predicate Empties(units: seq<seq<byte>>) { forall i :: 0 <= i < |units| ==> units[i] == [] }

  /** Nothing but empty units. */
  predicate Hollow(es: seq<seq<seq<byte>>>) { Empties(AllUnits(es)) }

  lemma EmptiesConcat(a: seq<seq<byte>>, b: seq<seq<byte>>)
    ensures Empties(a + b) <==> Empties(a) && Empties(b)
  {
    if Empties(a + b) {
      assert forall i :: 0 <= i < |a| ==> a[i] == (a + b)[i];
      assert forall i :: 0 <= i < |b| ==> b[i] == (a + b)[|a| + i];
    }
  }

  lemma {:induction false} HollowSlots(units: seq<seq<byte>>)
    ensures AllZero(SlotsBytes(units)) <==> Empties(units)
  {
    if units == [] {
      NothingIsZero();
    } else {
      hide SlotBytes, AllZero;
      HollowSlots(units[1..]);
      HollowSlot(units[0]);
      ZeroConcat(SlotBytes(units[0]), SlotsBytes(units[1..]));
      assert units == [units[0]] + units[1..];
      EmptiesConcat([units[0]], units[1..]);
    }
  }

  lemma HollowSlot(data: seq<byte>)
    ensures AllZero(SlotBytes(data)) <==> data == []
  {
    assert SlotBytes(data)[0] == LengthBytes(|data|)[0];
    if data == [] {
      assert SlotBytes(data) == [0];
    }
  }

  lemma ZeroConcat(a: seq<byte>, b: seq<byte>)
    ensures AllZero(a + b) <==> AllZero(a) && AllZero(b)
  {
    if AllZero(a + b) {
      assert forall i :: 0 <= i < |a| ==> a[i] == (a + b)[i];
      assert forall i :: 0 <= i < |b| ==> b[i] == (a + b)[|a| + i];
    }
  }

  lemma {:induction false} HollowBytes(es: seq<seq<seq<byte>>>)
    ensures AllZero(ElementsBytes(es)) <==> Hollow(es)
  {
    hide AllZero;
    if es == [] {
      NothingIsZero();
    } else {
      hide Empties;
      HollowBytes(es[1..]);
      HollowSlots(es[0]);
      ZeroConcat(SlotsBytes(es[0]), ElementsBytes(es[1..]));
      EmptiesConcat(es[0], AllUnits(es[1..]));
    }
  }

  lemma NothingIsZero()
    ensures AllZero([])
  {
  }

  /** The elements up to the last that is not followed by empty units alone; the first always. */
  function Lasting(es: seq<seq<seq<byte>>>): (r: seq<seq<seq<byte>>>)
    requires es != []
    ensures r <= es && r != []
  {
    if Hollow(es[1..]) then [es[0]] else [es[0]] + Lasting(es[1..])
  }

  /**
   Out-of-band elements written one after the other, with zero bytes behind, deliver their units with
   unit `i` of the packet at `i` frame lengths; only empty units that nothing else follows, which cannot
   be told from padding, are left off.
   */
  lemma {:induction false} OutOfBandDelivers(
    m: Mux, spf: nat, es: seq<seq<seq<byte>>>, pad: seq<byte>, elem: nat, at: nat)
    requires es != [] && elem + |es| <= MaxMuxElements && AllZero(pad)
    requires forall i :: 0 <= i < |es| ==> Element(es[i], m)
    ensures OutOfBand(m, spf, ElementsBytes(es) + pad, elem, at)
            == Ok(UnitsAt(AllUnits(Lasting(es)), at, Spacing(m, spf)))
    decreases |es|
  {
    hide ReadSlots, UnitsAt, SlotsBytes, AllZero, Ticks, Span, Hollow, Spacing;
    SpacingIs(m, spf);
    var rest := ElementsBytes(es[1..]) + pad;
    assert ElementsBytes(es) + pad == SlotsBytes(es[0]) + rest;
    SlotsReadBack(es[0], rest, at, Ticks(m, spf));
    HollowBytes(es[1..]);
    ZeroConcat(ElementsBytes(es[1..]), pad);
    if Hollow(es[1..]) {
      assert AllUnits([es[0]]) == es[0] by { OneElement(es[0]); }
    } else {
      assert es[1..] != [] by { NotHollow(es[1..]); }
      OutOfBandDelivers(m, spf, es[1..], pad, elem + 1, at + Span(m, spf));
      assert Lasting(es)[1..] == Lasting(es[1..]);
      SpanIs(m, spf, |es[0]|);
      UnitsAtConcat(es[0], AllUnits(Lasting(es[1..])), at, Ticks(m, spf));
    }
  }

  lemma OneElement(e: seq<seq<byte>>)
    ensures AllUnits([e]) == e
  {
    assert [e][1..] == [];
  }

  lemma NotHollow(es: seq<seq<seq<byte>>>)
    requires !Hollow(es)
    ensures es != []
  {
  }

  lemma SpanIs(m: Mux, spf: nat, n: nat)
    requires n == m.numSubFrames + 1
    ensures Span(m, spf) == n * Ticks(m, spf)
  {
  }

  lemma UnitsAtConcat(a: seq<seq<byte>>, b: seq<seq<byte>>, at: nat, ticks: nat)
    ensures 0 <= |a| * ticks
    ensures UnitsAt(a + b, at, ticks) == UnitsAt(a, at, ticks) + UnitsAt(b, at + |a| * ticks, ticks)
  {
    forall i | |a| <= i < |a + b|
      ensures UnitsAt(a + b, at, ticks)[i] == UnitsAt(b, at + |a| * ticks, ticks)[i - |a|]
    {
      assert i * ticks == |a| * ticks + (i - |a|) * ticks;
    }
  }

  // ---- in band -------------------------------------------------------------

  /** An in-band element: an inline configuration, or the one in force, and its units. */
  datatype InBandSent = InBandSent(config: Option<MuxFields>, units: seq<seq<byte>>)

  predicate ValidSent(e: InBandSent, m: Option<Mux>)
  {
    && (e.config.Some? ==> ValidMux(e.config.value) && Unsupported(e.config.value).None?)
    && (e.config.None? ==> m.Some?)
    && Element(e.units, InForce(e, m))
  }

  /** The configuration in force for an element and after it. */
  function InForce(e: InBandSent, m: Option<Mux>): Mux
    requires e.config.Some? ==> ValidMux(e.config.value)
    requires e.config.None? ==> m.Some?
  {
    if e.config.Some? then Meant(e.config.value) else m.value
  }

  function ElementBits(e: InBandSent): seq<bit>
    requires e.config.Some? ==> ValidMux(e.config.value)
  {
    (if e.config.Some? then [0] + MuxBits(e.config.value) else [1]) + BitsOf(SlotsBytes(e.units))
  }

  /** The elements' bytes, each element padded with zero bits to a whole one. */
  function SentBytes(es: seq<InBandSent>): seq<byte>
    requires forall i :: 0 <= i < |es| && es[i].config.Some? ==> ValidMux(es[i].config.value)
  {
    if es == [] then [] else Pack(ElementBits(es[0])) + SentBytes(es[1..])
  }

  /** The elements a run of configurations can carry. */
  predicate ValidRun(es: seq<InBandSent>, m: Option<Mux>)
  {
    es == [] || (ValidSent(es[0], m) && ValidRun(es[1..], Some(InForce(es[0], m))))
  }

  lemma {:induction false} RunConfigs(es: seq<InBandSent>, m: Option<Mux>)
    requires ValidRun(es, m)
    ensures forall i :: 0 <= i < |es| && es[i].config.Some? ==> ValidMux(es[i].config.value)
    decreases |es|
  {
    hide ValidMux, Unsupported, Element;
    if es != [] {
      RunConfigs(es[1..], Some(InForce(es[0], m)));
      forall i | 0 <= i < |es| && es[i].config.Some?
        ensures ValidMux(es[i].config.value)
      {
        if i > 0 {
          assert es[i] == es[1..][i - 1];
        }
      }
    }
  }

  function Extent(n: nat, ticks: nat): nat
  {
    NotNegative(n, ticks);
    n * ticks
  }

  lemma NotNegative(n: nat, ticks: nat)
    ensures n * ticks >= 0
  {
  }

  /** What they deliver: each element's units at its configuration's frame length, one behind the other. */
  function SentUnits(es: seq<InBandSent>, m: Option<Mux>, spf: nat, at: nat): seq<AU>
    requires ValidRun(es, m)
    decreases |es|
  {
    if es == [] then [] else
      var c := InForce(es[0], m);
      UnitsAt(es[0].units, at, Spacing(c, spf))
      + SentUnits(es[1..], Some(c), spf, at + Extent(|es[0].units|, Spacing(c, spf)))
  }

  /** The configuration in force behind them. */
  function LastInForce(es: seq<InBandSent>, m: Option<Mux>): Option<Mux>
    requires ValidRun(es, m)
    decreases |es|
  {
    if es == [] then m else LastInForce(es[1..], Some(InForce(es[0], m)))
  }

  /** The slots of an element from its bits, with the padding behind it skipped. */
  lemma SlotsFromBits(m: Mux, spf: nat, units: seq<seq<byte>>, pad: seq<bit>, rest: seq<byte>, at: nat)
    requires Element(units, m) && |pad| < 8
    ensures var e := ElementSlots(m, spf, BitsOf(SlotsBytes(units)) + (pad + BitsOf(rest)), at);
            e.units == Ok(BitUnits(UnitsAt(units, at, Ticks(m, spf)), BitsOf(rest)))
  {
    hide ReadBitSlots, ReadSlots, BitsOf, SlotsBytes, UnitsAt, Ticks;
    SlotsReadBits(units, pad + BitsOf(rest), at, Ticks(m, spf));
    assert Align(pad + BitsOf(rest)) == BitsOf(rest);
  }

  lemma {:induction false} SlotsReadBits(units: seq<seq<byte>>, more: seq<bit>, at: nat, ticks: nat)
    requires Fit(units)
    ensures ReadBitSlots(BitsOf(SlotsBytes(units)) + more, |units|, at, ticks)
            == Ok(BitUnits(UnitsAt(units, at, ticks), more))
    decreases |units|
  {
    hide ReadBitSlot, BitsOf;
    if units == [] {
      assert BitsOf(SlotsBytes(units)) == [] by { NoBits(SlotsBytes(units)); }
      assert [] + more == more;
    } else {
      var rest := BitsOf(SlotsBytes(units[1..])) + more;
      BitsOfConcat(SlotBytes(units[0]), SlotsBytes(units[1..]));
      assert BitsOf(SlotsBytes(units)) + more == BitsOf(SlotBytes(units[0])) + rest;
      SlotReadsBits(|units[0]|, 0, units[0], rest);
      SlotsReadBits(units[1..], more, at + ticks, ticks);
      UnitsAtStep(units, at, ticks);
    }
  }

  lemma NoBits(b: seq<byte>)
    requires b == []
    ensures BitsOf(b) == []
  {
  }

  lemma {:induction false} SlotReadsBits(n: nat, sum: nat, data: seq<byte>, more: seq<bit>)
    requires sum + n == |data| <= MaxMuxSlotBytes
    ensures ReadBitSlot(BitsOf(LengthBytes(n) + data) + more, sum) == Ok(BitSlot(data, more))
    decreases n
  {
    hide BitsOf, Take, Pack;
    if n < 255 {
      assert LengthBytes(n) + data == [n] + data;
      LeadingByte(n, data, more);
      LeadingBytes(data, more, |data|);
      assert data[..|data|] == data && data[|data|..] == [];
      NoBits([]);
      assert [] + more == more;
    } else {
      assert LengthBytes(n) + data == [255] + (LengthBytes(n - 255) + data);
      LeadingByte(255, LengthBytes(n - 255) + data, more);
      SlotReadsBits(n - 255, sum + 255, data, more);
    }
  }

  /** One element in front of others. */
  lemma ElementReads(m: Option<Mux>, spf: nat, e: InBandSent, rest: seq<byte>, at: nat)
    requires ValidSent(e, m)
    ensures var c := InForce(e, m);
            InBandElement(m, spf, BitsOf(Pack(ElementBits(e)) + rest), at)
            == Latm.Element(Some(c), Ok(BitUnits(UnitsAt(e.units, at, Ticks(c, spf)), BitsOf(rest))))
  {
    hide BitsOf, Pack, MuxBits, Unsupported, ParseMux, ElementSlots, Element, Meant, Take, Ticks, UnitsAt, SlotsBytes;
    var bits := ElementBits(e);
    PackBits(bits);
    BitsOfConcat(Pack(bits), rest);
    var pad := Zeros(8 * |Pack(bits)| - |bits|);
    var tail := pad + BitsOf(rest);
    var slots := BitsOf(SlotsBytes(e.units)) + tail;
    SlotsFromBits(InForce(e, m), spf, e.units, pad, rest, at);
    if e.config.Some? {
      var f := e.config.value;
      assert BitsOf(Pack(bits) + rest) == [0] + (MuxBits(f) + slots);
      TakeBit(0, MuxBits(f) + slots);
      MuxReadsBack(f, slots);
    } else {
      assert BitsOf(Pack(bits) + rest) == [1] + slots;
      TakeBit(1, slots);
    }
  }

  /** No element looks like padding. */
  lemma ElementNotZero(e: InBandSent, rest: seq<byte>)
    requires e.config.Some? ==> ValidMux(e.config.value) && Unsupported(e.config.value).None?
    ensures !ZeroBits(BitsOf(Pack(ElementBits(e)) + rest))
  {
    hide BitsOf, Pack;
    var bits := ElementBits(e);
    PackBits(bits);
    BitsOfConcat(Pack(bits), rest);
    var all := BitsOf(Pack(bits) + rest);
    if e.config.Some? {
      assert all[2] == bits[2] == MuxBits(e.config.value)[1] == 1 by { SecondBit(e.config.value); }
    } else {
      assert all[0] == 1;
    }
  }

  lemma SecondBit(f: MuxFields)
    requires ValidMux(f) && f.sameFraming == 1
    ensures |MuxBits(f)| >= 2 && MuxBits(f)[1] == 1
  {
    hide FieldBits;
  }

  /**
   In-band elements written one after the other, at whatever bit offset an inline configuration leaves
   their slots, with zero bytes behind, deliver their units, unit `i` of an element at `i` of its frame
   lengths, and leave the last configuration in force.
   */
  lemma {:induction false} InBandDelivers(
    m: Option<Mux>, spf: nat, es: seq<InBandSent>, pad: seq<byte>, elem: nat, at: nat)
    requires es != [] && elem + |es| <= MaxMuxElements && AllZero(pad) && ValidRun(es, m)
    ensures forall i :: 0 <= i < |es| && es[i].config.Some? ==> ValidMux(es[i].config.value)
    ensures InBand(m, spf, BitsOf(SentBytes(es) + pad), elem, at)
            == InBandOutcome(LastInForce(es, m), Ok(SentUnits(es, m, spf, at)))
    decreases |es|
  {
    hide BitsOf, Pack, InBandElement, ElementBits, UnitsAt, Ticks, Span, AllZero, ZeroBits, Spacing;
    hide ValidMux, Unsupported, Element, Meant;
    RunConfigs(es, m);
    var e, c, rest := es[0], InForce(es[0], m), SentBytes(es[1..]) + pad;
    assert SentBytes(es) + pad == Pack(ElementBits(e)) + rest;
    ElementReads(m, spf, e, rest, at);
    SpacingIs(c, spf);
    assert Span(c, spf) == Extent(|e.units|, Spacing(c, spf)) by { SentSpan(e, m, spf); }
    if |es| == 1 {
      assert rest == pad by { NothingSent(es[1..]); }
      ZeroBytes(pad);
      assert UnitsAt(e.units, at, Spacing(c, spf)) + [] == UnitsAt(e.units, at, Spacing(c, spf));
    } else {
      NextNotZero(es[1..], pad, Some(c));
      InBandDelivers(Some(c), spf, es[1..], pad, elem + 1, at + Span(c, spf));
    }
  }

  lemma SentSpan(e: InBandSent, m: Option<Mux>, spf: nat)
    requires ValidSent(e, m)
    ensures Span(InForce(e, m), spf) == Extent(|e.units|, Spacing(InForce(e, m), spf))
  {
    hide ValidMux, Unsupported, Fit;
    SpacingIs(InForce(e, m), spf);
    SpanIs(InForce(e, m), spf, |e.units|);
  }

  lemma NothingSent(es: seq<InBandSent>)
    requires es == []
    ensures SentBytes(es) == []
  {
  }

  lemma NextNotZero(es: seq<InBandSent>, pad: seq<byte>, m: Option<Mux>)
    requires es != [] && ValidRun(es, m)
    requires forall i :: 0 <= i < |es| && es[i].config.Some? ==> ValidMux(es[i].config.value)
    ensures !ZeroBits(BitsOf(SentBytes(es) + pad))
  {
    hide BitsOf, Pack, ElementBits, ZeroBits, Unsupported, ValidMux, Element;
    assert SentBytes(es) + pad == Pack(ElementBits(es[0])) + (SentBytes(es[1..]) + pad);
    ElementNotZero(es[0], SentBytes(es[1..]) + pad);
  }

  /** What is left off the end is empty. */
  lemma {:induction false} OnlyEmptyLeftOff(es: seq<seq<seq<byte>>>)
    requires es != []
    ensures AllUnits(Lasting(es)) <= AllUnits(es)
    ensures Empties(AllUnits(es)[|AllUnits(Lasting(es))|..])
    decreases |es|
  {
    hide Empties;
    if Hollow(es[1..]) {
      OneElement(es[0]);
      assert AllUnits(es)[|es[0]|..] == AllUnits(es[1..]);
    } else {
      NotHollow(es[1..]);
      OnlyEmptyLeftOff(es[1..]);
      assert Lasting(es)[1..] == Lasting(es[1..]);
      var n := |AllUnits(Lasting(es[1..]))|;
      assert AllUnits(es)[|es[0]| + n..] == AllUnits(es[1..])[n..];
    }
  }
}
