/**
 Loss accounting from packets to frames.  A packet's sequence gap is folded into a pending total,
 which the next frame completed takes with it, through malformed packets, fragments being collected
 and packets that complete several frames.  Each codec path of the RTSP track and of the UDP client
 folds, depacketizes and delivers in its own order; the depacketizers are the project's own.
 */
module GapAccounting {
  import opened Bits
  import opened CodecPaths
  import PT = PayloadTypes

  /** The sequence tracker's verdict on a packet. */
  datatype Update = Update(ssrcReset: bool, duplicate: bool, gap: nat)

  /** A packet as it reaches a source; the verdict counts only if its payload type is accepted. */
  datatype Arrival = Arrival(payloadType: nat, packet: Packet, update: Update)

  /** A frame completed: handed to the callback, when there is one, with the gap it takes along. */
  datatype Frame = Frame(data: seq<byte>, offset: nat, gap: nat)

  /** The codec, the pending gap, and since the last SSRC reset the gaps counted and the frames completed. */
  datatype Source = Source(codec: Codec, pending: nat, counted: nat, frames: seq<Frame>)

  // ---- delivery ------------------------------------------------------------

  /** The units of one packet as frames: the first takes the pending gap, the rest none. */
  function Framed(units: seq<Unit>, gap: nat): (r: seq<Frame>)
    ensures |r| == |units|
  {
    seq(|units|, i requires 0 <= i < |units| => Frame(units[i].data, units[i].offset, if i == 0 then gap else 0))
  }

  function Fold(s: Source, gap: nat): Source { s.(pending := s.pending + gap) }

  function HandOver(s: Source, units: seq<Unit>): (t: Source)
    ensures t.codec == s.codec && t.counted == s.counted
  {
    if units == [] then s else s.(pending := 0, frames := s.frames + Framed(units, s.pending))
  }

  /** What became of a packet, carried out: an error keeps the pending gap for the next frame. */
  function Finish(s: Source, d: Depacketized): (t: Source)
    ensures t.codec == d.codec && t.counted == s.counted
  {
    var t := s.(codec := d.codec);
    if d.result.Malformed? then t else HandOver(t, d.result.units)
  }

  predicate Valid(s: Source) { ValidCodec(s.codec) }

  /** The codec stays the configured one. */
  predicate Keeps(s: Source, t: Source) { Follows(s.codec, t.codec) }

  // ---- the RTSP track's paths ----------------------------------------------

  function DeliverAAC(s: Source, p: Packet, gap: nat): (t: Source)
    requires Valid(s) && s.codec.AAC?
    ensures Keeps(s, t)
  {
    Finish(Fold(s, gap), AacStep(s.codec, p))
  }

  function DeliverLATM(s: Source, p: Packet, gap: nat): (t: Source)
    requires Valid(s) && s.codec.LATM?
    ensures Keeps(s, t)
  {
    Finish(Fold(s, gap), LatmStep(s.codec, p))
  }

  function DeliverMP3(s: Source, p: Packet, gap: nat): (t: Source)
    requires Valid(s) && s.codec.MP3?
    ensures Keeps(s, t)
  {
    Finish(Fold(s, gap), Mp3Step(s.codec, p))
  }

  function DeliverFLAC(s: Source, p: Packet, gap: nat): (t: Source)
    requires Valid(s) && s.codec.FLAC?
    ensures Keeps(s, t)
  {
    Finish(Fold(s, gap), FlacStep(s.codec, p))
  }

  function DeliverOpus(s: Source, p: Packet, gap: nat): (t: Source)
    requires Valid(s)
    ensures Keeps(s, t)
  {
    Finish(Fold(s, gap), OpusStep(s.codec, p))
  }

  /** With nobody listening G.711 does nothing at all. */
  function DeliverG711(heard: bool, s: Source, p: Packet, gap: nat): (t: Source)
    requires Valid(s) && s.codec.G711?
    ensures Keeps(s, t)
  {
    if !heard then s else Finish(Fold(s, gap), G711Step(s.codec, p))
  }

  /** L16 looks at the payload first, and folds the gap only when somebody is listening. */
  function DeliverL16(heard: bool, s: Source, p: Packet, gap: nat): (t: Source)
    requires Valid(s) && s.codec.L16?
    ensures Keeps(s, t)
  {
    var d := L16Strict(s.codec, p);
    if d.result.Malformed? then if heard then Fold(s, gap) else s
    else if !heard then s
    else Finish(Fold(s, gap), d)
  }

  /** With nobody listening G.726 does not even decode. */
  function DeliverG726(heard: bool, s: Source, p: Packet, gap: nat): (t: Source)
    requires Valid(s) && s.codec.G726?
    ensures Keeps(s, t)
  {
    if !heard then s else Finish(Fold(s, gap), G726Step(s.codec, p))
  }

  function DeliverRaw(s: Source, p: Packet, gap: nat): (t: Source)
    requires Valid(s)
    ensures Keeps(s, t)
  {
    HandOver(Fold(s, gap), [Unit(p.payload, 0)])
  }

  function DeliverRtsp(heard: bool, s: Source, p: Packet, gap: nat): (t: Source)
    requires Valid(s)
    ensures Keeps(s, t)
  {
    hide AacStep, LatmStep, Mp3Step, FlacStep, OpusStep, G711Step, L16Strict, G726Step, HandOver;
    if s.codec.AAC? then DeliverAAC(s, p, gap)
    else if s.codec.LATM? then DeliverLATM(s, p, gap)
    else if s.codec.MP3? then DeliverMP3(s, p, gap)
    else if s.codec.FLAC? then DeliverFLAC(s, p, gap)
    else if s.codec.Opus? then DeliverOpus(s, p, gap)
    else if s.codec.G711? then DeliverG711(heard, s, p, gap)
    else if s.codec.L16? then DeliverL16(heard, s, p, gap)
    else if s.codec.G726? then DeliverG726(heard, s, p, gap)
    else DeliverRaw(s, p, gap)
  }

  // ---- the UDP client's paths ----------------------------------------------

  /** The codecs the UDP client carries. */
  predicate CarriedByUdp(c: Codec) { !c.MP3? && !c.LATM? }

  /** The codecs of one frame a packet: folded first, transformed whoever listens. */
  function UdpStep(c: Codec, p: Packet): (d: Depacketized)
    requires ValidCodec(c) && CarriedByUdp(c) && !c.AAC? && !c.FLAC?
    ensures Follows(c, d.codec)
  {
    hide OpusStep, G711Step, L16Lenient, G726Step;
    if c.G711? then G711Step(c, p)
    else if c.L16? then L16Lenient(c, p)
    else if c.G726? then G726Step(c, p)
    else if c.Opus? then OpusStep(c, p)
    else Depacketized(c, Units([Unit(p.payload, 0)]))
  }

  function DeliverUdp(s: Source, p: Packet, gap: nat): (t: Source)
    requires Valid(s) && CarriedByUdp(s.codec)
    ensures Keeps(s, t)
  {
    hide AacStep, FlacStep, UdpStep, HandOver;
    if s.codec.AAC? then DeliverAAC(s, p, gap)
    else if s.codec.FLAC? then DeliverFLAC(s, p, gap)
    else Finish(Fold(s, gap), UdpStep(s.codec, p))
  }

  // ---- packets in turn -----------------------------------------------------

  /** A new SSRC: nothing pending or being collected is carried over to it. */
  function Renewed(s: Source): (t: Source)
    requires Valid(s)
    ensures Keeps(s, t)
  {
    Source(Restarted(s.codec), 0, 0, [])
  }

  /** A gap is counted, and drops what was being collected. */
  function Counted(s: Source, gap: nat): (t: Source)
    requires Valid(s)
    ensures Keeps(s, t)
  {
    if gap > 0 then s.(codec := Flushed(s.codec), counted := s.counted + gap) else s
  }

  /** One packet of an accepted type through the RTSP track; duplicates are delivered like any other. */
  function ProcessRtsp(heard: bool, s: Source, a: Arrival): (t: Source)
    requires Valid(s)
    ensures Keeps(s, t)
  {
    var fresh' := if a.update.ssrcReset then Renewed(s) else s;
    DeliverRtsp(heard, Counted(fresh', a.update.gap), a.packet, a.update.gap)
  }

  /** One packet of the configured type through the UDP client, which drops duplicates. */
  function ProcessUdp(s: Source, a: Arrival): (t: Source)
    requires Valid(s) && CarriedByUdp(s.codec)
    ensures Keeps(s, t)
  {
    var fresh' := if a.update.ssrcReset then Renewed(s) else s;
    if a.update.duplicate then fresh'
    else DeliverUdp(Counted(fresh', a.update.gap), a.packet, a.update.gap)
  }

  /** A source as configured: an RTSP track with a declared payload type, or a UDP client with its own. */
  datatype Path = Rtsp(declared: PT.Option<nat>, heard: bool) | Udp(payloadType: nat)

  /** A run's state: the payload types seen by a track, and the source. */
  datatype Running = Running(gate: PT.Gate, source: Source)

  predicate Carries(path: Path, c: Codec)
  {
    ValidCodec(c) && (path.Udp? ==> CarriedByUdp(c))
  }

  function Handle(path: Path, r: Running, a: Arrival): (q: Running)
    requires Carries(path, r.source.codec)
    ensures Carries(path, q.source.codec) && Configured(q.source.codec) == Configured(r.source.codec)
  {
    hide ProcessRtsp, ProcessUdp;
    match path
    case Rtsp(_, heard) =>
      var v := PT.Admit(r.gate, a.payloadType);
      Running(v.gate, if v.accepted then ProcessRtsp(heard, r.source, a) else r.source)
    case Udp(pt) => if a.payloadType != pt then r else r.(source := ProcessUdp(r.source, a))
  }

  function Starting(path: Path, c: Codec): Running
  {
    Running(PT.Open(if path.Rtsp? then path.declared else PT.None), Source(c, 0, 0, []))
  }

  /** A whole run of arrivals, of any types, with any verdicts. */
  function Run(path: Path, c: Codec, arrivals: seq<Arrival>): (r: Running)
    requires Carries(path, c)
    ensures Carries(path, r.source.codec) && Configured(r.source.codec) == Configured(c)
  {
    hide Handle, Carries;
    if arrivals == [] then Starting(path, c)
    else Handle(path, Run(path, c, arrivals[..|arrivals| - 1]), arrivals[|arrivals| - 1])
  }

  // ---- conservation --------------------------------------------------------

  function GapsOn(frames: seq<Frame>): nat
  {
    if frames == [] then 0 else GapsOn(frames[..|frames| - 1]) + frames[|frames| - 1].gap
  }

  lemma {:induction false} GapsConcat(a: seq<Frame>, b: seq<Frame>)
    ensures GapsOn(a + b) == GapsOn(a) + GapsOn(b)
  {
    if b == [] {
      assert a + b == a;
    } else {
      assert (a + b)[..|a + b| - 1] == a + b[..|b| - 1];
      GapsConcat(a, b[..|b| - 1]);
    }
  }

  /** The frames of a packet carry the gap once. */
  lemma {:induction false} GapsFramed(units: seq<Unit>, gap: nat)
    requires units != []
    ensures GapsOn(Framed(units, gap)) == gap
  {
    var fs, init := Framed(units, gap), units[..|units| - 1];
    assert fs[..|fs| - 1] == Framed(init, gap);
    if init == [] {
      assert Framed(init, gap) == [];
    } else {
      GapsFramed(init, gap);
    }
  }

  /** Nothing counted is lost and nothing is reported twice. */
  predicate Conserved(s: Source)
  {
    GapsOn(s.frames) + s.pending == s.counted
  }

  /** `gap` more is pending or on frames, and nothing else has changed in the account. */
  predicate Accounts(s: Source, t: Source, gap: nat)
  {
    GapsOn(t.frames) + t.pending == GapsOn(s.frames) + s.pending + gap && t.counted == s.counted
  }

  /** Whatever a packet yields, its gap is accounted for once folded. */
  lemma FoldedAccounts(s: Source, gap: nat, d: Depacketized)
    ensures Accounts(s, Finish(Fold(s, gap), d), gap)
  {
    if d.result.Units? && d.result.units != [] {
      GapsConcat(s.frames, Framed(d.result.units, s.pending + gap));
      GapsFramed(d.result.units, s.pending + gap);
    }
  }

  /** The kinds that do nothing when nobody is listening. */
  predicate SkipsUnheard(c: Codec)
  {
    c.G711? || c.L16? || c.G726?
  }

  /** Every path of an RTSP track accounts for a packet's gap, but for those that skip it unheard. */
  lemma RtspAccounts(heard: bool, s: Source, p: Packet, gap: nat)
    requires Valid(s) && (heard || !SkipsUnheard(s.codec))
    ensures Accounts(s, DeliverRtsp(heard, s, p, gap), gap)
  {
    hide AacStep, LatmStep, Mp3Step, FlacStep, OpusStep, G711Step, L16Strict, G726Step, Finish, ValidCodec, Accounts;
    if s.codec.AAC? {
      FoldedAccounts(s, gap, AacStep(s.codec, p));
    } else if s.codec.LATM? {
      FoldedAccounts(s, gap, LatmStep(s.codec, p));
    } else if s.codec.MP3? {
      FoldedAccounts(s, gap, Mp3Step(s.codec, p));
    } else if s.codec.FLAC? {
      FoldedAccounts(s, gap, FlacStep(s.codec, p));
    } else if s.codec.Opus? {
      FoldedAccounts(s, gap, OpusStep(s.codec, p));
    } else if s.codec.G711? {
      FoldedAccounts(s, gap, G711Step(s.codec, p));
    } else if s.codec.L16? {
      L16Accounts(heard, s, p, gap);
    } else if s.codec.G726? {
      FoldedAccounts(s, gap, G726Step(s.codec, p));
    } else {
      RawAccounts(s, p, gap);
    }
  }

  lemma L16Accounts(heard: bool, s: Source, p: Packet, gap: nat)
    requires Valid(s) && s.codec.L16? && heard
    ensures Accounts(s, DeliverL16(heard, s, p, gap), gap)
  {
    hide L16Strict;
    FoldedAccounts(s, gap, L16Strict(s.codec, p));
  }

  lemma RawAccounts(s: Source, p: Packet, gap: nat)
    requires Valid(s)
    ensures Accounts(s, DeliverRaw(s, p, gap), gap)
  {
    FoldedAccounts(s, gap, Depacketized(s.codec, Units([Unit(p.payload, 0)])));
  }

  /** Every path of the UDP client does, whoever listens. */
  lemma UdpAccounts(s: Source, p: Packet, gap: nat)
    requires Valid(s) && CarriedByUdp(s.codec)
    ensures Accounts(s, DeliverUdp(s, p, gap), gap)
  {
    hide AacStep, FlacStep, UdpStep, Finish, ValidCodec, Accounts;
    if s.codec.AAC? {
      FoldedAccounts(s, gap, AacStep(s.codec, p));
    } else if s.codec.FLAC? {
      FoldedAccounts(s, gap, FlacStep(s.codec, p));
    } else {
      FoldedAccounts(s, gap, UdpStep(s.codec, p));
    }
  }

  /** Does this source fold every gap? */
  predicate Folds(path: Path, c: Codec)
  {
    path.Udp? || path.heard || !SkipsUnheard(c)
  }

  lemma FoldsAsConfigured(path: Path, c: Codec)
    ensures Folds(path, c) == Folds(path, Configured(c))
  {
  }

  lemma HandleConserves(path: Path, r: Running, a: Arrival)
    requires Carries(path, r.source.codec) && Folds(path, r.source.codec) && Conserved(r.source)
    ensures Conserved(Handle(path, r, a).source)
  {
    hide DeliverRtsp, DeliverUdp, ValidCodec, PT.Admit, Flushed, Restarted;
    var s := r.source;
    var t := if a.update.ssrcReset then Renewed(s) else s;
    FoldsAsConfigured(path, s.codec);
    FoldsAsConfigured(path, t.codec);
    var u := Counted(t, a.update.gap);
    FoldsAsConfigured(path, u.codec);
    if path.Rtsp? {
      RtspAccounts(path.heard, u, a.packet, a.update.gap);
    } else {
      UdpAccounts(u, a.packet, a.update.gap);
    }
  }

  /**
   Conservation over any run of packets with any losses, errors and senders: since the last SSRC reset
   the gaps on frames plus what is pending are the gaps counted, through every codec's own depacketizer.
   */
  lemma {:induction false} GapsConserved(path: Path, c: Codec, arrivals: seq<Arrival>)
    requires Carries(path, c) && Folds(path, c)
    ensures Conserved(Run(path, c, arrivals).source)
  {
    hide Handle, Carries, Conserved;
    if arrivals == [] {
      NothingYet(path, c);
    } else {
      var init := arrivals[..|arrivals| - 1];
      GapsConserved(path, c, init);
      FoldsAsConfigured(path, c);
      FoldsAsConfigured(path, Run(path, c, init).source.codec);
      HandleConserves(path, Run(path, c, init), arrivals[|arrivals| - 1]);
    }
  }

  lemma NothingYet(path: Path, c: Codec)
    requires Carries(path, c)
    ensures Conserved(Run(path, c, []).source) && Run(path, c, []) == Starting(path, c)
  {
    hide Carries;
  }

  ghost predicate AlwaysConserved(path: Path, c: Codec)
    requires Carries(path, c)
  {
    forall arrivals: seq<Arrival> :: Conserved(Run(path, c, arrivals).source)
  }

  /** Exactly the RTSP kinds that skip their work when unheard also forget their gaps then. */
  lemma ConservedExactly(path: Path, c: Codec)
    requires Carries(path, c)
    ensures AlwaysConserved(path, c) <==> Folds(path, c)
  {
    hide Run, Conserved, Carries;
    if Folds(path, c) {
      forall arrivals: seq<Arrival>
        ensures Conserved(Run(path, c, arrivals).source)
      {
        GapsConserved(path, c, arrivals);
      }
    } else {
      var a := UnheardLoses(path, c);
      assert !Conserved(Run(path, c, [a]).source);
    }
  }

  lemma UnheardIgnores(s: Source, p: Packet, gap: nat)
    requires Valid(s) && SkipsUnheard(s.codec) && p.payload == []
    ensures DeliverRtsp(false, s, p, gap) == s
  {
    hide G711Step, G726Step, AacStep, LatmStep, Mp3Step, FlacStep, OpusStep, ValidCodec, HandOver;
  }

  /** The declared type is accepted first, and with none declared any. */
  function Welcome(path: Path): nat
  {
    if path.Udp? then path.payloadType else if path.declared.Some? then path.declared.value else 0
  }

  lemma SkippedLoses(path: Path, c: Codec, a: Arrival)
    requires Carries(path, c) && !Folds(path, c)
    requires a == Arrival(Welcome(path), Packet([], false, 0), Update(false, false, 1))
    ensures !Conserved(Handle(path, Starting(path, c), a).source)
  {
    hide DeliverRtsp, ValidCodec, Configured;
    var s := Source(c, 0, 1, []);
    assert Flushed(c) == c;
    UnheardIgnores(s, a.packet, 1);
  }

  /** A first packet behind a loss, unheard. */
  lemma UnheardLoses(path: Path, c: Codec) returns (a: Arrival)
    requires Carries(path, c) && !Folds(path, c)
    ensures !Conserved(Run(path, c, [a]).source)
  {
    hide Handle, Carries, Folds, Conserved, Run, Starting;
    a := Arrival(Welcome(path), Packet([], false, 0), Update(false, false, 1));
    NothingYet(path, c);
    RunSnoc(path, c, [], a);
    assert [] + [a] == [a];
    SkippedLoses(path, c, a);
  }

  /** A packet that completes a frame leaves no loss unreported. */
  lemma FrameReportsAll(path: Path, c: Codec, arrivals: seq<Arrival>, a: Arrival)
    requires Carries(path, c) && Folds(path, c)
    ensures var s, t := Run(path, c, arrivals).source, Run(path, c, arrivals + [a]).source;
            t.frames != [] && t.frames != s.frames ==> t.pending == 0 && GapsOn(t.frames) == t.counted
  {
    hide Run, Carries, Folds;
    GapsConserved(path, c, arrivals + [a]);
    RunSnoc(path, c, arrivals, a);
    CompletionDrains(path, Run(path, c, arrivals), a);
  }

  lemma RunSnoc(path: Path, c: Codec, arrivals: seq<Arrival>, a: Arrival)
    requires Carries(path, c)
    ensures Run(path, c, arrivals + [a]) == Handle(path, Run(path, c, arrivals), a)
  {
    hide Handle, Carries;
    assert (arrivals + [a])[..|arrivals|] == arrivals;
  }

  lemma CompletionDrains(path: Path, r: Running, a: Arrival)
    requires Carries(path, r.source.codec)
    ensures var t := Handle(path, r, a).source; t.frames != [] && t.frames != r.source.frames ==> t.pending == 0
  {
    hide AacStep, LatmStep, Mp3Step, FlacStep, OpusStep, G711Step, L16Strict, G726Step, UdpStep, ValidCodec, Framed;
    hide Flushed, Restarted, PT.Admit;
  }
}
