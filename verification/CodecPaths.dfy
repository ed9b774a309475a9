/**
 The codec of a source: which depacketizer a packet runs through, what it yields, and what a lost
 packet or a new sender does to the state kept between packets.
 */
module CodecPaths {
  import opened Bits
  import A = AacRtp
  import F = FlacRtp
  import M = Mp3Rtp
  import L = Latm
  import LM = LatmMux
  import G = G726
  import GP = G726Packing
  import GD = G726Decoder

  datatype Packet = Packet(payload: seq<byte>, marker: bool, time: nat)

  /** The codec a source was built for, and its depacketizer's state. */
  datatype Codec =
    | AAC(cfg: A.Config, aac: A.State)
    | LATM(inBand: bool, seed: seq<byte>, spf: nat, mux: LM.Option<LM.Mux>)
    | MP3(clockRate: nat, mp3: M.State)
    | FLAC(flac: F.State)
    | Opus
    | G711(law: seq<G.int16>)
    | L16(frameSize: nat)
    | G726(rate: G.Rate, packing: GP.Packing, g726: G.State)
    | Raw

  predicate ValidCodec(c: Codec)
  {
    match c
    case AAC(cfg, st) => A.ValidConfig(cfg) && A.Bounded(st)
    case LATM(inBand, _, _, mux) => inBand || mux.Some?
    case G711(law) => |law| == 256
    case L16(n) => n % 2 == 0
    case G726(_, _, st) => G.InRange(st)
    case _ => true
  }

  /** The codec as configured, whatever its depacketizer holds. */
  function Configured(c: Codec): Codec
  {
    match c
    case AAC(_, _) => c.(aac := A.Idle)
    case LATM(_, _, _, _) => c.(mux := LM.None)
    case MP3(_, _) => c.(mp3 := M.Idle)
    case FLAC(_) => c.(flac := F.Idle)
    case G726(_, _, _) => c.(g726 := G.Initial)
    case _ => c
  }

  /** `d` is `c` with another depacketizer state, a valid one. */
  predicate Follows(c: Codec, d: Codec)
  {
    ValidCodec(d) && Configured(d) == Configured(c)
  }

  /** A unit a packet completes: its bytes and its RTP offset from the packet. */
  datatype Unit = Unit(data: seq<byte>, offset: nat)

  /** What a packet yields: an error, or the units it completes, none while a unit is being collected. */
  datatype Yield = Malformed | Units(units: seq<Unit>)

  datatype Depacketized = Depacketized(codec: Codec, result: Yield)

  // ---- one codec at a time -------------------------------------------------

  function UnitsOfAAC(aus: seq<A.AU>): (r: seq<Unit>)
    ensures |r| == |aus|
  {
    seq(|aus|, i requires 0 <= i < |aus| => Unit(aus[i].data, aus[i].rtpOffset))
  }

  function AacStep(c: Codec, p: Packet): (d: Depacketized)
    requires c.AAC? && ValidCodec(c)
    ensures Follows(c, d.codec)
  {
    hide A.Process;
    A.ProcessBounded(c.cfg, c.aac, p.payload, p.marker);
    var r := A.Process(c.cfg, c.aac, p.payload, p.marker);
    Depacketized(c.(aac := r.state), if r.result.Err? then Malformed else Units(UnitsOfAAC(r.result.value)))
  }

  function UnitsOfLATM(aus: seq<L.AU>): (r: seq<Unit>)
    ensures |r| == |aus|
  {
    seq(|aus|, i requires 0 <= i < |aus| => Unit(aus[i].data, aus[i].rtpOffset))
  }

  function LatmStep(c: Codec, p: Packet): (d: Depacketized)
    requires c.LATM? && ValidCodec(c)
    ensures Follows(c, d.codec)
  {
    if c.inBand then
      var r := L.InBand(c.mux, c.spf, BitsOf(p.payload), 0, 0);
      Depacketized(c.(mux := r.mux), if r.result.Err? then Malformed else Units(UnitsOfLATM(r.result.value)))
    else
      var r := L.OutOfBand(c.mux.value, c.spf, p.payload, 0, 0);
      Depacketized(c, if r.Err? then Malformed else Units(UnitsOfLATM(r.value)))
  }

  function UnitsOfMP3(frames: seq<M.Frame>): (r: seq<Unit>)
    ensures |r| == |frames|
  {
    seq(|frames|, i requires 0 <= i < |frames| => Unit(frames[i].data, frames[i].rtpOffset))
  }

  function Mp3Step(c: Codec, p: Packet): (d: Depacketized)
    requires c.MP3?
    ensures Follows(c, d.codec)
  {
    var r := M.Process(c.clockRate, c.mp3, p.payload, p.time);
    Depacketized(c.(mp3 := r.state), if r.result.Err? then Malformed else Units(UnitsOfMP3(r.result.frames)))
  }

  function FlacStep(c: Codec, p: Packet): (d: Depacketized)
    requires c.FLAC?
    ensures Follows(c, d.codec)
  {
    var r := F.Process(c.flac, p.payload, p.marker, p.time);
    Depacketized(c.(flac := r.state),
                 match r.result
                 case Err(_) => Malformed
                 case Buffered => Units([])
                 case Frame(data) => Units([Unit(data, 0)]))
  }

  /** An Opus payload is the packet; there is no empty one. */
  function OpusStep(c: Codec, p: Packet): (d: Depacketized)
    ensures d.codec == c
  {
    Depacketized(c, if p.payload == [] then Malformed else Units([Unit(p.payload, 0)]))
  }

  /** The samples of companded bytes. */
  function Expanded(law: seq<G.int16>, payload: seq<byte>): (r: seq<G.int16>)
    requires |law| == 256
    ensures |r| == |payload|
  {
    seq(|payload|, i requires 0 <= i < |payload| => law[payload[i]])
  }

  /** Every companded byte becomes one sample; an empty payload an empty frame. */
  function G711Step(c: Codec, p: Packet): (d: Depacketized)
    requires c.G711? && ValidCodec(c)
    ensures d.codec == c && d.result.Units?
  {
    Depacketized(c, Units([Unit(GD.PcmBytes(Expanded(c.law, p.payload)), 0)]))
  }

  /** Big-endian samples turned around. */
  function Swapped(b: seq<byte>): (r: seq<byte>)
    requires |b| % 2 == 0
    ensures |r| == |b|
    ensures forall i :: 0 <= i < |b| ==> r[i] == b[if i % 2 == 0 then i + 1 else i - 1]
  {
    seq(|b|, i requires 0 <= i < |b| => b[if i % 2 == 0 then i + 1 else i - 1])
  }

  /** The sample-frame width in force. */
  function Width(frameSize: nat): (w: nat)
    ensures w > 0 && (frameSize % 2 == 0 ==> w % 2 == 0)
  {
    if frameSize < 2 then 2 else frameSize
  }

  /** The bytes of the whole sample-frames in front; they are whole samples. */
  function Usable(n: nat, w: nat): (u: nat)
    requires w > 0 && w % 2 == 0
    ensures u <= n && u % 2 == 0 && n - u < w
    ensures u == n <==> n % w == 0
  {
    WholeIsEven(n, w);
    var rest := n % w;
    n - rest
  }

  lemma WholeIsEven(n: nat, w: nat)
    requires w > 0 && w % 2 == 0
    ensures var rest := n % w; 0 <= rest < w && rest <= n && (n - rest) % 2 == 0
  {
    var h, q := w / 2, n / w;
    assert n == w * q + n % w;
    Doubled(w, h, q);
  }

  lemma Doubled(w: nat, h: nat, q: nat)
    requires w == 2 * h
    ensures (w * q) % 2 == 0
  {
    assert w * q == 2 * (h * q);
  }

  /** The RTSP path refuses a payload that is not whole sample-frames. */
  function L16Strict(c: Codec, p: Packet): (d: Depacketized)
    requires c.L16? && ValidCodec(c)
    ensures d.codec == c
  {
    hide Usable, Width;
    var n, w := |p.payload|, Width(c.frameSize);
    if n == 0 || n % w != 0 then Depacketized(c, Malformed)
    else
      assert Usable(n, w) == n;
      Depacketized(c, Units([Unit(Swapped(p.payload), 0)]))
  }

  /** The UDP path takes the whole sample-frames in front. */
  function L16Lenient(c: Codec, p: Packet): (d: Depacketized)
    requires c.L16? && ValidCodec(c)
    ensures d.codec == c
  {
    hide Usable, Width;
    var usable := Usable(|p.payload|, Width(c.frameSize));
    if usable == 0 then Depacketized(c, Malformed)
    else Depacketized(c, Units([Unit(Swapped(p.payload[..usable]), 0)]))
  }

  function G726Step(c: Codec, p: Packet): (d: Depacketized)
    requires c.G726? && ValidCodec(c)
    ensures Follows(c, d.codec)
  {
    if !GD.WholeCodewords(c.rate, p.payload) then Depacketized(c, Malformed)
    else
      Depacketized(c.(g726 := GD.StateAfter(c.rate, c.packing, c.g726, p.payload)),
                   Units([Unit(GD.Decoded(c.rate, c.packing, c.g726, p.payload), 0)]))
  }

  // ---- losses and new senders ----------------------------------------------

  /** A lost packet drops a unit being collected; LATM's config and the G.726 predictor survive it. */
  function Flushed(c: Codec): (r: Codec)
    requires ValidCodec(c)
    ensures Follows(c, r)
  {
    match c
    case AAC(_, _) => c.(aac := A.Idle)
    case FLAC(_) => c.(flac := F.Idle)
    case MP3(_, _) => c.(mp3 := M.Idle)
    case _ => c
  }

  /** A new sender starts over: the seed's config if there is one, the predictor from its initial state. */
  function Restarted(c: Codec): (r: Codec)
    requires ValidCodec(c)
    ensures Follows(c, r)
  {
    match c
    case LATM(inBand, seed, _, mux) => c.(mux := if inBand then L.SeedMux(seed) else mux)
    case G726(_, _, _) =>
      GD.InitialInRange();
      c.(g726 := G.Initial)
    case _ => Flushed(c)
  }
}
