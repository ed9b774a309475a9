/**
 The objects that receive packets: the RTSP track and the UDP client, each holding the depacketizer
 of its codec, proved against the paths of `GapAccounting`.
 */
module Sources {
  import opened Bits
  import opened CodecPaths
  import opened GapAccounting
  import PT = PayloadTypes
  import A = AacRtp
  import F = FlacRtp
  import M = Mp3Rtp
  import L = Latm
  import G = G726
  import GD = G726Decoder

  // ---- sample conversions --------------------------------------------------

  /** G.711 bytes expanded to 16-bit samples through the law's table. */
  method Expand(law: seq<G.int16>, payload: seq<byte>) returns (pcm: seq<byte>)
    requires |law| == 256
    ensures pcm == GD.PcmBytes(Expanded(law, payload))
  {
    hide GD.Le16;
    pcm := [];
    ghost var samples := Expanded(law, payload);
    for i := 0 to |payload|
      invariant pcm == GD.PcmBytes(samples[..i])
    {
      assert samples[..i + 1] == samples[..i] + [law[payload[i]]];
      GD.PcmBytesConcat(samples[..i], [law[payload[i]]]);
      OneSample(law[payload[i]]);
      pcm := pcm + GD.Le16(law[payload[i]]);
    }
    assert samples[..|payload|] == samples;
  }

  lemma OneSample(v: G.int16)
    ensures GD.PcmBytes([v]) == GD.Le16(v)
  {
    assert [v][1..] == [];
  }

  /** Big-endian samples written back to front into a scratch buffer. */
  method SwapBytes(src: seq<byte>) returns (dst: array<byte>)
    requires |src| % 2 == 0
    ensures fresh(dst) && dst[..] == Swapped(src)
  {
    dst := new byte[|src|];
    var i := 0;
    while i + 1 < |src|
      invariant 0 <= i <= |src| && i % 2 == 0
      invariant forall j :: 0 <= j < i ==> dst[j] == src[if j % 2 == 0 then j + 1 else j - 1]
    {
      dst[i] := src[i + 1];
      dst[i + 1] := src[i];
      i := i + 2;
    }
    assert dst[..] == Swapped(src);
  }

  // ---- the depacketizers ---------------------------------------------------

  datatype Kind = KindAAC | KindLATM | KindMP3 | KindFLAC | KindOpus | KindG711 | KindL16 | KindG726 | KindRaw

  /** A source's depacketizers, of which its codec uses one at most. */
  class Depacketizers {
    const kind: Kind
    const aac: A.Depacketizer?
    const latm: L.Depacketizer?
    const mp3: M.Depacketizer?
    const flac: F.Depacketizer?
    const g726: GD.Decoder?
    const law: seq<G.int16>
    const l16FrameSize: nat

    ghost predicate Shape()
    {
      && (aac != null <==> kind.KindAAC?) && (latm != null <==> kind.KindLATM?) && (mp3 != null <==> kind.KindMP3?)
      && (flac != null <==> kind.KindFLAC?) && (g726 != null <==> kind.KindG726?)
      && (kind.KindG711? ==> |law| == 256) && (kind.KindL16? ==> l16FrameSize % 2 == 0)
    }

    /** The mutable objects behind the codec. */
    ghost function Parts(): set<object>
      reads latm
    {
      (if aac != null then {aac as object} else {}) + (if mp3 != null then {mp3 as object} else {})
      + (if flac != null then {flac as object} else {})
      + (if latm != null then {latm as object} + latm.Buffers() else {})
      + (if g726 != null then {g726 as object, g726.sr, g726.dq, g726.a, g726.b, g726.pk} else {})
    }

    ghost predicate Valid()
      reads latm, Parts()
    {
      && Shape()
      && (aac != null ==> aac.Valid()) && (latm != null ==> latm.Valid()) && (g726 != null ==> g726.Valid())
    }

    ghost function View(): (c: Codec)
      requires Valid()
      reads latm, Parts()
      ensures ValidCodec(c)
    {
      match kind
      case KindAAC => AAC(aac.cfg, aac.View())
      case KindLATM => LATM(latm.muxConfigPresent, latm.seed, latm.samplesPerFrame, latm.View())
      case KindMP3 => MP3(mp3.clockRate, mp3.View())
      case KindFLAC => FLAC(flac.View())
      case KindG726 => G726(g726.rate, g726.Order(), g726.View())
      case KindG711 => G711(law)
      case KindL16 => L16(l16FrameSize)
      case KindOpus => Opus
      case KindRaw => Raw
    }

    constructor (
      kind: Kind, aac: A.Depacketizer?, latm: L.Depacketizer?, mp3: M.Depacketizer?, flac: F.Depacketizer?,
      g726: GD.Decoder?, law: seq<G.int16>, l16FrameSize: nat)
      ensures this.kind == kind && this.aac == aac && this.latm == latm && this.mp3 == mp3 && this.flac == flac
      ensures this.g726 == g726 && this.law == law && this.l16FrameSize == l16FrameSize
    {
      this.kind, this.aac, this.latm, this.mp3, this.flac := kind, aac, latm, mp3, flac;
      this.g726, this.law, this.l16FrameSize := g726, law, l16FrameSize;
    }

    /** Drops a unit being collected: what a gap does, and, over UDP, part of what a new sender does. */
    method Flush()
      requires Valid()
      modifies Parts()
      ensures Valid() && View() == Flushed(old(View())) && Parts() == old(Parts())
    {
      if aac != null {
        aac.Reset();
      }
      if flac != null {
        flac.Reset();
      }
      if mp3 != null {
        mp3.Reset();
      }
    }

    /** Starts over for a new sender. */
    method Restart()
      requires Valid()
      modifies Parts()
      ensures Valid() && View() == Restarted(old(View())) && fresh(Parts() - old(Parts()))
    {
      Flush();
      if g726 != null {
        g726.Reset();
      }
      if latm != null {
        latm.Reset();
      }
    }

    /** The access units of an AAC packet. */
    method RunAAC(p: Packet) returns (y: Yield)
      requires Valid() && kind.KindAAC?
      modifies Parts()
      ensures Valid() && Depacketized(View(), y) == AacStep(old(View()), p) && Parts() == old(Parts())
    {
      hide A.Process;
      var aus := aac.Depacketize(p.payload, p.marker);
      return if aus.Err? then Malformed else Units(UnitsOfAAC(aus.value));
    }

    method RunLATM(p: Packet) returns (y: Yield)
      requires Valid() && kind.KindLATM?
      modifies Parts()
      ensures Valid() && Depacketized(View(), y) == LatmStep(old(View()), p) && fresh(Parts() - old(Parts()))
    {
      hide L.InBand, L.OutOfBand;
      var aus := latm.Depacketize(p.payload);
      return if aus.Err? then Malformed else Units(UnitsOfLATM(aus.value));
    }

    method RunMP3(p: Packet) returns (y: Yield)
      requires Valid() && kind.KindMP3?
      modifies Parts()
      ensures Valid() && Depacketized(View(), y) == Mp3Step(old(View()), p) && Parts() == old(Parts())
    {
      hide M.Process;
      var frames := mp3.Depacketize(p.payload, p.time);
      return if frames.Err? then Malformed else Units(UnitsOfMP3(frames.frames));
    }

    method RunFLAC(p: Packet) returns (y: Yield)
      requires Valid() && kind.KindFLAC?
      modifies Parts()
      ensures Valid() && Depacketized(View(), y) == FlacStep(old(View()), p) && Parts() == old(Parts())
    {
      hide F.Process;
      var frame := flac.Depacketize(p.payload, p.marker, p.time);
      match frame
      case Err(_) => return Malformed;
      case Buffered => return Units([]);
      case Frame(data) => return Units([Unit(data, 0)]);
    }

    method RunG726(p: Packet) returns (y: Yield)
      requires Valid() && kind.KindG726?
      modifies Parts()
      ensures Valid() && Depacketized(View(), y) == G726Step(old(View()), p) && Parts() == old(Parts())
    {
      hide G.InRange, GD.StateAfter, GD.Decoded, GD.WholeCodewords, G.Table;
      var buf := new byte[2 * ((8 * |p.payload|) / G.Table(g726.rate).bits)];
      var n, err := g726.Decode(buf, p.payload);
      if err != GD.None {
        return Malformed;
      }
      assert buf[n..] == [] && buf[..n] == buf[..];
      return Units([Unit(buf[..n], 0)]);
    }
  }

  // ---- the RTSP track ------------------------------------------------------

  class Track {
    const heard: bool
    const sdpPayloadType: PT.Option<nat>
    const codec: Depacketizers
    var wirePayloadType: nat
    var wirePTSet: bool
    var ptCandidate: nat
    var ptRun: nat
    var pendingGap: nat
    var seqGaps: nat
    ghost var base: nat          // seqGaps at the last SSRC reset
    ghost var frames: seq<Frame> // completed since then

    ghost predicate Valid()
      reads this, codec, codec.latm, codec.Parts()
    {
      codec.Valid() && base <= seqGaps && this !in codec.Parts()
    }

    ghost function Source(): (s: Source)
      requires Valid()
      reads this, codec, codec.latm, codec.Parts()
      ensures GapAccounting.Valid(s)
    {
      GapAccounting.Source(codec.View(), pendingGap, seqGaps - base, frames)
    }

    ghost function Gate(): PT.Gate
      reads this
    {
      PT.Gate(sdpPayloadType, if wirePTSet then PT.Some(wirePayloadType) else PT.None, ptCandidate, ptRun)
    }

    constructor (heard: bool, declared: PT.Option<nat>, codec: Depacketizers)
      requires codec.Valid()
      ensures Valid() && this.heard == heard && this.codec == codec
      ensures Gate() == PT.Open(declared) && Source() == GapAccounting.Source(codec.View(), 0, 0, [])
    {
      this.heard, sdpPayloadType, this.codec := heard, declared, codec;
      wirePayloadType, wirePTSet, ptCandidate, ptRun := 0, false, 0, 0;
      pendingGap, seqGaps, base, frames := 0, 0, 0, [];
    }

    method AcceptPayloadType(pt: nat) returns (ok: bool)
      modifies this`wirePayloadType, this`wirePTSet, this`ptCandidate, this`ptRun
      ensures PT.Verdict(Gate(), ok) == PT.Admit(old(Gate()), pt)
    {
      if sdpPayloadType == PT.None {
        if !wirePTSet {
          wirePayloadType, wirePTSet := pt, true;
        }
        return pt == wirePayloadType;
      }
      if pt == sdpPayloadType.value {
        wirePayloadType, wirePTSet := pt, true;
        ptRun := 0;
        return true;
      }
      if wirePTSet {
        return pt == wirePayloadType;
      }
      if ptRun > 0 && pt == ptCandidate {
        ptRun := ptRun + 1;
      } else {
        ptCandidate, ptRun := pt, 1;
      }
      if ptRun < PT.AdoptThreshold {
        return false;
      }
      wirePayloadType, wirePTSet := pt, true;
      return true;
    }

    /** The frames of a packet that may complete several: the pending gap goes with the first. */
    method DeliverUnits(units: seq<Unit>)
      requires Valid()
      modifies this`pendingGap, this`frames
      ensures Valid() && Source() == HandOver(old(Source()), units)
    {
      ghost var total := pendingGap;
      for i := 0 to |units|
        invariant Valid() && frames == old(frames) + Framed(units[..i], total)
        invariant pendingGap == if i == 0 then total else 0
      {
        var gap := 0;
        if i == 0 {
          gap := pendingGap;
          pendingGap := 0;
        }
        var frame := Frame(units[i].data, units[i].offset, gap);
        assert Framed(units[..i + 1], total) == Framed(units[..i], total) + [frame];
        frames := frames + [frame];
      }
      assert units[..|units|] == units;
      assert old(frames) + [] == old(frames);
    }

    /** The frame of a packet that is one. */
    method DeliverOne(data: seq<byte>)
      requires Valid()
      modifies this`pendingGap, this`frames
      ensures Valid() && Source() == HandOver(old(Source()), [Unit(data, 0)])
    {
      var gap := pendingGap;
      pendingGap := 0;
      assert Framed([Unit(data, 0)], gap) == [Frame(data, 0, gap)];
      frames := frames + [Frame(data, 0, gap)];
    }

    method DeliverAAC(p: Packet, gap: nat)
      requires Valid() && codec.kind.KindAAC?
      modifies this`pendingGap, this`frames, codec.Parts()
      ensures Valid() && Source() == GapAccounting.DeliverAAC(old(Source()), p, gap)
      ensures fresh(codec.Parts() - old(codec.Parts()))
    {
      hide AacStep, HandOver;
      pendingGap := pendingGap + gap;
      var y := codec.RunAAC(p);
      if y.Malformed? {
        return;
      }
      DeliverUnits(y.units);
    }

    method DeliverLATM(p: Packet, gap: nat)
      requires Valid() && codec.kind.KindLATM?
      modifies this`pendingGap, this`frames, codec.Parts()
      ensures Valid() && Source() == GapAccounting.DeliverLATM(old(Source()), p, gap)
      ensures fresh(codec.Parts() - old(codec.Parts()))
    {
      hide LatmStep, HandOver;
      pendingGap := pendingGap + gap;
      var y := codec.RunLATM(p);
      if y.Malformed? {
        return;
      }
      DeliverUnits(y.units);
    }

    method DeliverMP3(p: Packet, gap: nat)
      requires Valid() && codec.kind.KindMP3?
      modifies this`pendingGap, this`frames, codec.Parts()
      ensures Valid() && Source() == GapAccounting.DeliverMP3(old(Source()), p, gap)
      ensures fresh(codec.Parts() - old(codec.Parts()))
    {
      hide Mp3Step, HandOver;
      pendingGap := pendingGap + gap;
      var y := codec.RunMP3(p);
      if y.Malformed? {
        return;
      }
      DeliverUnits(y.units);
    }

    method DeliverFLAC(p: Packet, gap: nat)
      requires Valid() && codec.kind.KindFLAC?
      modifies this`pendingGap, this`frames, codec.Parts()
      ensures Valid() && Source() == GapAccounting.DeliverFLAC(old(Source()), p, gap)
      ensures fresh(codec.Parts() - old(codec.Parts()))
    {
      hide FlacStep, HandOver;
      FlacYieldsOne(codec.View(), p);
      pendingGap := pendingGap + gap;
      var y := codec.RunFLAC(p);
      if y.Malformed? {
        return;
      }
      if y.units == [] {
        NothingHandedOver(Source());
        return;
      }
      DeliverOne(y.units[0].data);
    }

    method DeliverOpus(p: Packet, gap: nat)
      requires Valid() && codec.kind.KindOpus?
      modifies this`pendingGap, this`frames
      ensures Valid() && Source() == GapAccounting.DeliverOpus(old(Source()), p, gap)
    {
      hide HandOver;
      pendingGap := pendingGap + gap;
      if p.payload == [] {
        return;
      }
      DeliverOne(p.payload);
    }

    method DeliverG711(p: Packet, gap: nat)
      requires Valid() && codec.kind.KindG711?
      modifies this`pendingGap, this`frames
      ensures Valid() && Source() == GapAccounting.DeliverG711(heard, old(Source()), p, gap)
    {
      hide HandOver;
      if !heard {
        return;
      }
      pendingGap := pendingGap + gap;
      var pcm := Expand(codec.law, p.payload);
      DeliverOne(pcm);
    }

    method DeliverL16(p: Packet, gap: nat)
      requires Valid() && codec.kind.KindL16?
      modifies this`pendingGap, this`frames
      ensures Valid() && Source() == GapAccounting.DeliverL16(heard, old(Source()), p, gap)
    {
      hide HandOver, Swapped, Usable;
      var n := |p.payload|;
      var width := if codec.l16FrameSize > 2 then codec.l16FrameSize else 2;
      assert width == Width(codec.l16FrameSize);
      if n == 0 || n % width != 0 {
        if heard {
          pendingGap := pendingGap + gap;
        }
        return;
      }
      if !heard {
        return;
      }
      pendingGap := pendingGap + gap;
      assert Usable(n, width) == n;
      var dst := SwapBytes(p.payload);
      DeliverOne(dst[..]);
    }

    method DeliverG726(p: Packet, gap: nat)
      requires Valid() && codec.kind.KindG726?
      modifies this`pendingGap, this`frames, codec.Parts()
      ensures Valid() && Source() == GapAccounting.DeliverG726(heard, old(Source()), p, gap)
      ensures fresh(codec.Parts() - old(codec.Parts()))
    {
      hide G726Step, HandOver;
      if !heard {
        return;
      }
      G726YieldsOne(codec.View(), p);
      pendingGap := pendingGap + gap;
      var y := codec.RunG726(p);
      if y.Malformed? {
        return;
      }
      DeliverOne(y.units[0].data);
    }

    method DeliverRaw(p: Packet, gap: nat)
      requires Valid() && codec.kind.KindRaw?
      modifies this`pendingGap, this`frames
      ensures Valid() && Source() == GapAccounting.DeliverRaw(old(Source()), p, gap)
    {
      hide HandOver;
      pendingGap := pendingGap + gap;
      DeliverOne(p.payload);
    }

    /** The codec's own path. */
    method Deliver(p: Packet, gap: nat)
      requires Valid()
      modifies this`pendingGap, this`frames, codec.Parts()
      ensures Valid() && Source() == DeliverRtsp(heard, old(Source()), p, gap)
      ensures fresh(codec.Parts() - old(codec.Parts()))
    {
      hide AacStep, LatmStep, Mp3Step, FlacStep, OpusStep, G711Step, L16Strict, G726Step, HandOver, ValidCodec;
      match codec.kind
      case KindAAC => DeliverAAC(p, gap);
      case KindLATM => DeliverLATM(p, gap);
      case KindMP3 => DeliverMP3(p, gap);
      case KindFLAC => DeliverFLAC(p, gap);
      case KindOpus => DeliverOpus(p, gap);
      case KindG711 => DeliverG711(p, gap);
      case KindL16 => DeliverL16(p, gap);
      case KindG726 => DeliverG726(p, gap);
      case KindRaw => DeliverRaw(p, gap);
    }

    /** A new SSRC. */
    method Renew()
      requires Valid()
      modifies this`pendingGap, this`base, this`frames, codec.Parts()
      ensures Valid() && Source() == Renewed(old(Source())) && fresh(codec.Parts() - old(codec.Parts()))
    {
      hide Restarted, ValidCodec, Configured;
      pendingGap := 0;
      base := seqGaps;
      frames := [];
      codec.Restart();
    }

    /** A gap, if there is one. */
    method Count(gap: nat)
      requires Valid()
      modifies this`seqGaps, codec.Parts()
      ensures Valid() && Source() == Counted(old(Source()), gap) && codec.Parts() == old(codec.Parts())
    {
      hide Flushed, ValidCodec, Configured;
      if gap > 0 {
        seqGaps := seqGaps + gap;
        codec.Flush();
      }
    }

    /** One packet: refused, or counted and delivered, what was being collected dropped where it must be. */
    method Process(a: Arrival) returns (accepted: bool)
      requires Valid()
      modifies this, codec.Parts()
      ensures Valid() && fresh(codec.Parts() - old(codec.Parts()))
      ensures Running(Gate(), Source())
              == GapAccounting.Handle(Rtsp(sdpPayloadType, heard), Running(old(Gate()), old(Source())), a)
    {
      hide ProcessRtsp, PT.Admit, ValidCodec;
      accepted := AcceptPayloadType(a.payloadType);
      if !accepted {
        return;
      }
      ProcessAccepted(a);
    }

    /** One packet of the track's payload type. */
    method ProcessAccepted(a: Arrival)
      requires Valid()
      modifies this`pendingGap, this`seqGaps, this`base, this`frames, codec.Parts()
      ensures Valid() && fresh(codec.Parts() - old(codec.Parts()))
      ensures Source() == ProcessRtsp(heard, old(Source()), a)
    {
      hide DeliverRtsp, Renewed, Counted, ValidCodec;
      if a.update.ssrcReset {
        Renew();
      }
      Count(a.update.gap);
      Deliver(a.packet, a.update.gap);
    }
  }

  lemma FlacYieldsOne(c: Codec, p: Packet)
    requires c.FLAC?
    ensures var y := FlacStep(c, p).result;
            y.Units? ==> y.units == [] || y.units == [Unit(y.units[0].data, 0)]
  {
  }

  lemma G726YieldsOne(c: Codec, p: Packet)
    requires c.G726? && ValidCodec(c)
    ensures var y := G726Step(c, p).result;
            y.Units? ==> |y.units| == 1 && y.units == [Unit(y.units[0].data, 0)]
  {
    hide G.InRange, GD.Decoded, GD.StateAfter, GD.WholeCodewords;
  }

  lemma NothingHandedOver(s: Source)
    ensures HandOver(s, []) == s
  {
  }

  // ---- the UDP client ------------------------------------------------------

  class Client {
    const heard: bool
    const payloadType: nat
    const codec: Depacketizers
    var pendingGap: nat
    var seqGaps: nat
    ghost var base: nat
    ghost var frames: seq<Frame>

    ghost predicate Valid()
      reads this, codec, codec.latm, codec.Parts()
    {
      codec.Valid() && base <= seqGaps && this !in codec.Parts() && !codec.kind.KindLATM? && !codec.kind.KindMP3?
    }

    ghost function Source(): (s: Source)
      requires Valid()
      reads this, codec, codec.latm, codec.Parts()
      ensures GapAccounting.Valid(s) && CarriedByUdp(s.codec)
    {
      GapAccounting.Source(codec.View(), pendingGap, seqGaps - base, frames)
    }

    constructor (heard: bool, payloadType: nat, codec: Depacketizers)
      requires codec.Valid() && !codec.kind.KindLATM? && !codec.kind.KindMP3?
      ensures Valid() && this.heard == heard && this.payloadType == payloadType && this.codec == codec
      ensures Source() == GapAccounting.Source(codec.View(), 0, 0, [])
    {
      this.heard, this.payloadType, this.codec := heard, payloadType, codec;
      pendingGap, seqGaps, base, frames := 0, 0, 0, [];
    }

    /** The units of one packet; the gap is drained whether anybody listens or not. */
    method HandOut(units: seq<Unit>)
      requires Valid()
      modifies this`pendingGap, this`frames
      ensures Valid() && Source() == HandOver(old(Source()), units)
    {
      ghost var total := pendingGap;
      for i := 0 to |units|
        invariant Valid() && frames == old(frames) + Framed(units[..i], total)
        invariant pendingGap == if i == 0 then total else 0
      {
        var gap := 0;
        if i == 0 {
          gap := pendingGap;
          pendingGap := 0;
        }
        var frame := Frame(units[i].data, units[i].offset, gap);
        assert Framed(units[..i + 1], total) == Framed(units[..i], total) + [frame];
        frames := frames + [frame];
      }
      assert units[..|units|] == units;
      assert old(frames) + [] == old(frames);
    }

    method DeliverAAC(p: Packet, gap: nat)
      requires Valid() && codec.kind.KindAAC?
      modifies this`pendingGap, this`frames, codec.Parts()
      ensures Valid() && Source() == GapAccounting.DeliverAAC(old(Source()), p, gap)
      ensures fresh(codec.Parts() - old(codec.Parts()))
    {
      hide AacStep, HandOver;
      pendingGap := pendingGap + gap;
      var y := codec.RunAAC(p);
      if y.Malformed? {
        return;
      }
      HandOut(y.units);
    }

    method DeliverFLAC(p: Packet, gap: nat)
      requires Valid() && codec.kind.KindFLAC?
      modifies this`pendingGap, this`frames, codec.Parts()
      ensures Valid() && Source() == GapAccounting.DeliverFLAC(old(Source()), p, gap)
      ensures fresh(codec.Parts() - old(codec.Parts()))
    {
      hide FlacStep, HandOver;
      pendingGap := pendingGap + gap;
      var y := codec.RunFLAC(p);
      if y.Malformed? {
        return;
      }
      HandOut(y.units);
    }

    /** The transform of the codecs of one frame a packet. */
    method Transform(p: Packet) returns (y: Yield)
      requires Valid() && !codec.kind.KindAAC? && !codec.kind.KindFLAC?
      modifies codec.Parts()
      ensures Valid() && Depacketized(codec.View(), y) == UdpStep(old(codec.View()), p)
      ensures codec.Parts() == old(codec.Parts())
    {
      hide G726Step, Swapped, Usable, Width;
      match codec.kind
      case KindG711 =>
        var pcm := Expand(codec.law, p.payload);
        return Units([Unit(pcm, 0)]);
      case KindL16 =>
        var usable := Usable(|p.payload|, Width(codec.l16FrameSize));
        if usable == 0 {
          return Malformed;
        }
        var dst := SwapBytes(p.payload[..usable]);
        return Units([Unit(dst[..], 0)]);
      case KindG726 => y := codec.RunG726(p);
      case KindOpus => return if p.payload == [] then Malformed else Units([Unit(p.payload, 0)]);
      case KindRaw => return Units([Unit(p.payload, 0)]);
    }

    /** Folds, transforms and delivers one packet by its codec. */
    method DeliverRTP(p: Packet, gap: nat)
      requires Valid()
      modifies this`pendingGap, this`frames, codec.Parts()
      ensures Valid() && Source() == DeliverUdp(old(Source()), p, gap)
      ensures fresh(codec.Parts() - old(codec.Parts()))
    {
      hide AacStep, FlacStep, UdpStep, HandOver, ValidCodec;
      if codec.kind.KindAAC? {
        DeliverAAC(p, gap);
        return;
      }
      if codec.kind.KindFLAC? {
        DeliverFLAC(p, gap);
        return;
      }
      pendingGap := pendingGap + gap;
      var y := Transform(p);
      if y.Malformed? {
        return;
      }
      HandOut(y.units);
    }

    /** A new SSRC. */
    method Renew()
      requires Valid()
      modifies this`pendingGap, this`base, this`frames, codec.Parts()
      ensures Valid() && Source() == Renewed(old(Source())) && fresh(codec.Parts() - old(codec.Parts()))
    {
      hide Restarted, ValidCodec, Configured;
      codec.Restart();
      pendingGap := 0;
      base := seqGaps;
      frames := [];
    }

    /** A gap, if there is one. */
    method Count(gap: nat)
      requires Valid()
      modifies this`seqGaps, codec.Parts()
      ensures Valid() && Source() == Counted(old(Source()), gap) && codec.Parts() == old(codec.Parts())
    {
      hide Flushed, ValidCodec, Configured;
      if gap > 0 {
        seqGaps := seqGaps + gap;
        codec.Flush();
      }
    }

    /** One packet: of another type, a duplicate, or counted and delivered. */
    method ProcessRTP(a: Arrival)
      requires Valid()
      modifies this, codec.Parts()
      ensures Valid() && fresh(codec.Parts() - old(codec.Parts()))
      ensures forall g :: Running(g, Source())
                          == GapAccounting.Handle(Udp(payloadType), Running(g, old(Source())), a)
    {
      hide DeliverUdp, Renewed, Counted, ValidCodec;
      if a.payloadType != payloadType {
        return;
      }
      if a.update.ssrcReset {
        Renew();
      }
      if a.update.duplicate {
        return;
      }
      Count(a.update.gap);
      DeliverRTP(a.packet, a.update.gap);
    }
  }
}
