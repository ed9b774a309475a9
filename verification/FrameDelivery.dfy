/**
 From packets to frames: which frames an arrival adds, what they carry, and what becomes of an access
 unit being collected when a loss or a new sender is reported.
 */
module FrameDelivery {
  import opened Bits
  import opened CodecPaths
  import opened GapAccounting
  import PT = PayloadTypes
  import A = AacRtp

  // ---- one arrival ---------------------------------------------------------

  /** Is an arrival of the kind this source takes? */
  predicate Admitted(path: Path, gate: PT.Gate, a: Arrival)
  {
    match path
    case Rtsp(_, _) => PT.Admit(gate, a.payloadType).accepted
    case Udp(pt) => a.payloadType == pt
  }

  /** With nobody listening some paths of an RTSP track do nothing. */
  predicate Silent(path: Path, c: Codec) { path.Rtsp? && !path.heard && SkipsUnheard(c) }

  /** The packet through its codec. */
  function StepFor(path: Path, c: Codec, p: Packet): (d: Depacketized)
    requires Carries(path, c)
  {
    match c
    case AAC(_, _) => AacStep(c, p)
    case LATM(_, _, _, _) => LatmStep(c, p)
    case MP3(_, _) => Mp3Step(c, p)
    case FLAC(_) => FlacStep(c, p)
    case Opus => OpusStep(c, p)
    case G711(_) => G711Step(c, p)
    case L16(_) => if path.Udp? then L16Lenient(c, p) else L16Strict(c, p)
    case G726(_, _, _) => G726Step(c, p)
    case Raw => Depacketized(c, Units([Unit(p.payload, 0)]))
  }

  function UnitsOf(d: Depacketized): seq<Unit> { if d.result.Malformed? then [] else d.result.units }

  /** Frames `more` behind `before`: one per unit, its bytes and offset, the gap on the first alone. */
  predicate HandsOn(before: seq<Frame>, after: seq<Frame>, units: seq<Unit>, gap: nat)
  {
    && before <= after && |after| == |before| + |units|
    && forall i :: 0 <= i < |units| ==>
         var f := after[|before| + i];
         f.data == units[i].data && f.offset == units[i].offset && f.gap == if i == 0 then gap else 0
  }

  lemma FinishHandsOn(s: Source, gap: nat, d: Depacketized)
    ensures var t := Finish(Fold(s, gap), d);
            && HandsOn(s.frames, t.frames, UnitsOf(d), s.pending + gap)
            && t.pending == (if UnitsOf(d) == [] then s.pending + gap else 0) && t.codec == d.codec
  {
  }

  lemma RtspHandsOn(heard: bool, s: Source, p: Packet, gap: nat, path: Path)
    requires Valid(s) && path.Rtsp? && path.heard == heard
    ensures var t, d := DeliverRtsp(heard, s, p, gap), StepFor(path, s.codec, p);
            if Silent(path, s.codec) then t == s
            else
              && HandsOn(s.frames, t.frames, UnitsOf(d), s.pending + gap)
              && t.pending == (if UnitsOf(d) == [] then s.pending + gap else 0) && t.codec == d.codec
  {
    hide AacStep, LatmStep, Mp3Step, FlacStep, OpusStep, G711Step, L16Strict, G726Step, Finish, ValidCodec, HandsOn;
    if s.codec.Raw? {
      FinishHandsOn(s, gap, Depacketized(s.codec, Units([Unit(p.payload, 0)])));
      RawIsFinish(s, p, gap);
    } else if s.codec.L16? && heard {
      FinishHandsOn(s, gap, L16Strict(s.codec, p));
      L16IsFinish(s, p, gap);
    } else {
      FinishHandsOn(s, gap, StepFor(path, s.codec, p));
    }
  }

  lemma RawIsFinish(s: Source, p: Packet, gap: nat)
    requires Valid(s)
    ensures DeliverRaw(s, p, gap) == Finish(Fold(s, gap), Depacketized(s.codec, Units([Unit(p.payload, 0)])))
  {
  }

  lemma L16IsFinish(s: Source, p: Packet, gap: nat)
    requires Valid(s) && s.codec.L16?
    ensures DeliverL16(true, s, p, gap) == Finish(Fold(s, gap), L16Strict(s.codec, p))
  {
    hide L16Strict;
  }

  lemma UdpHandsOn(s: Source, p: Packet, gap: nat, path: Path)
    requires Valid(s) && CarriedByUdp(s.codec) && path.Udp?
    ensures var t, d := DeliverUdp(s, p, gap), StepFor(path, s.codec, p);
            && HandsOn(s.frames, t.frames, UnitsOf(d), s.pending + gap)
            && t.pending == (if UnitsOf(d) == [] then s.pending + gap else 0) && t.codec == d.codec
  {
    hide AacStep, FlacStep, OpusStep, G711Step, L16Lenient, G726Step, Finish, ValidCodec, HandsOn;
    FinishHandsOn(s, gap, StepFor(path, s.codec, p));
  }

  /** The source an arrival finds: empty for a new sender, and with what was being collected dropped at a gap. */
  function Found(s: Source, u: Update): (t: Source)
    requires Valid(s)
    ensures Valid(t)
  {
    var codec := if u.ssrcReset then Restarted(s.codec) else s.codec;
    Source(if u.gap > 0 then Flushed(codec) else codec, if u.ssrcReset then 0 else s.pending,
           (if u.ssrcReset then 0 else s.counted) + u.gap, if u.ssrcReset then [] else s.frames)
  }

  /**
   What one arrival does. One of another type does nothing; a duplicate on the UDP path nothing but what a
   new sender does; any other packet adds one frame for each unit its codec yields, in order, the first
   carrying all that was pending and the packet's own gap and the others none, and it leaves nothing
   pending when there was such a frame.
   */
  lemma ArrivalHandsOn(path: Path, r: Running, a: Arrival)
    requires Carries(path, r.source.codec)
    ensures var t, s := Handle(path, r, a).source, Found(r.source, a.update);
            var d := StepFor(path, s.codec, a.packet);
            if !Admitted(path, r.gate, a) then t == r.source
            else if path.Udp? && a.update.duplicate then t == if a.update.ssrcReset then Renewed(r.source) else r.source
            else if Silent(path, s.codec) then t == s
            else
              && HandsOn(s.frames, t.frames, UnitsOf(d), s.pending + a.update.gap)
              && t.pending == (if UnitsOf(d) == [] then s.pending + a.update.gap else 0) && t.codec == d.codec
  {
    hide DeliverRtsp, DeliverUdp, ValidCodec, PT.Admit, Flushed, Restarted, StepFor, HandsOn, UnitsOf;
    var s := Found(r.source, a.update);
    FoundIs(r.source, a.update);
    if path.Rtsp? {
      RtspHandsOn(path.heard, s, a.packet, a.update.gap, path);
    } else if Admitted(path, r.gate, a) && !a.update.duplicate {
      UdpHandsOn(s, a.packet, a.update.gap, path);
    }
  }

  lemma FoundIs(s: Source, u: Update)
    requires Valid(s)
    ensures Found(s, u) == Counted(if u.ssrcReset then Renewed(s) else s, u.gap)
    ensures Configured(Found(s, u).codec) == Configured(s.codec)
    ensures CarriedByUdp(Found(s, u).codec) == CarriedByUdp(s.codec)
  {
    hide ValidCodec;
  }

  // ---- fragmented AAC units over losses ------------------------------------

  /** What happens to a depacketizer: a packet, or a Reset at a gap or a new sender. */
  datatype Op = Pack(payload: seq<byte>, marker: bool) | Reset

  datatype Did = Did(state: A.State, units: seq<A.AU>)

  function Apply(c: A.Config, s: A.State, op: Op): Did
    requires A.ValidConfig(c)
  {
    match op
    case Reset => Did(A.Idle, [])
    case Pack(payload, marker) =>
      var r := A.Process(c, s, payload, marker);
      Did(r.state, if r.result.Err? then [] else r.result.value)
  }

  function After(c: A.Config, ops: seq<Op>): A.State
    requires A.ValidConfig(c)
  {
    if ops == [] then A.Idle else Apply(c, After(c, ops[..|ops| - 1]), ops[|ops| - 1]).state
  }

  /** A packet that declares one unit, of size `total`, and carries `data` of it. */
  predicate Piece(c: A.Config, op: Op, total: nat, data: seq<byte>)
    requires A.ValidConfig(c)
  {
    op.Pack? && var h := A.ParseAUHeaders(c, op.payload);
    h.Ok? && h.value.sizes == [total] && data == op.payload[h.value.dataStart..]
  }

  /** The latest `n` ops are pieces of one unit of size `total`, and `bytes` is what they carry. */
  predicate Tail(c: A.Config, ops: seq<Op>, n: nat, total: nat, bytes: seq<byte>)
    requires A.ValidConfig(c)
    decreases n
  {
    n <= |ops| &&
    if n == 0 then bytes == [] else
      exists k: nat :: k <= |bytes|
        && Piece(c, ops[|ops| - 1], total, bytes[k..]) && Tail(c, ops[..|ops| - 1], n - 1, total, bytes[..k])
  }

  lemma TailSnoc(c: A.Config, ops: seq<Op>, op: Op, n: nat, total: nat, bytes: seq<byte>, data: seq<byte>)
    requires A.ValidConfig(c) && Tail(c, ops, n, total, bytes) && Piece(c, op, total, data)
    ensures Tail(c, ops + [op], n + 1, total, bytes + data)
  {
    hide Piece;
    var all := bytes + data;
    assert (ops + [op])[..|ops|] == ops;
    assert all[..|bytes|] == bytes && all[|bytes|..] == data;
  }

  lemma FirstPiece(c: A.Config, ops: seq<Op>, op: Op, total: nat, data: seq<byte>)
    requires A.ValidConfig(c) && Piece(c, op, total, data)
    ensures Tail(c, ops + [op], 1, total, data)
  {
    TailSnoc(c, ops, op, 0, total, [], data);
    assert [] + data == data;
  }

  /** What one packet does to a unit being collected. */
  lemma PackDoes(c: A.Config, s: A.State, op: Op)
    requires A.ValidConfig(c) && op.Pack?
    ensures var d := Apply(c, s, op);
            && (d.state.Partial? ==>
                  exists data :: Piece(c, op, d.state.total, data)
                    && (s.Partial? ==> s.total == d.state.total && d.state.frag == s.frag + data)
                    && (s.Idle? ==> d.state.frag == data))
            && (s.Partial? && d.units != [] ==>
                  exists data :: Piece(c, op, s.total, data) && d.units == [A.AU(s.frag + data, 0)]
                                 && |s.frag + data| == s.total)
  {
    hide A.Tile, A.ParseAUHeaders;
    var h := A.ParseAUHeaders(c, op.payload);
    if h.Ok? && |h.value.sizes| == 1 {
      assert h.value.sizes == [h.value.sizes[0]];
      assert Piece(c, op, h.value.sizes[0], op.payload[h.value.dataStart..]);
    }
  }

  /** One more packet of a unit being collected. */
  lemma CollectedOne(c: A.Config, init: seq<Op>, op: Op, n: nat) returns (m: nat)
    requires A.ValidConfig(c) && op.Pack?
    requires var s := After(c, init); s.Partial? ==> n > 0 && Tail(c, init, n, s.total, s.frag)
    ensures var t := Apply(c, After(c, init), op).state;
            t.Partial? ==> m > 0 && Tail(c, init + [op], m, t.total, t.frag)
  {
    hide Apply, Tail, Piece, After;
    var s := After(c, init);
    var t := Apply(c, s, op).state;
    m := 0;
    if t.Partial? {
      PackDoes(c, s, op);
      var data :| Piece(c, op, t.total, data)
        && (s.Partial? ==> s.total == t.total && t.frag == s.frag + data) && (s.Idle? ==> t.frag == data);
      if s.Partial? {
        TailSnoc(c, init, op, n, s.total, s.frag, data);
        m := n + 1;
      } else {
        FirstPiece(c, init, op, t.total, data);
        m := 1;
      }
    }
  }

  /** A unit being collected is what the latest packets carried, without a Reset among them. */
  lemma {:induction false} Collected(c: A.Config, ops: seq<Op>) returns (n: nat)
    requires A.ValidConfig(c)
    ensures var s := After(c, ops); s.Partial? ==> n > 0 && Tail(c, ops, n, s.total, s.frag)
    decreases |ops|
  {
    n := 0;
    if ops != [] {
      hide Apply, Tail, Piece, A.ValidConfig;
      var init, op := ops[..|ops| - 1], ops[|ops| - 1];
      assert ops == init + [op];
      if op.Pack? {
        n := Collected(c, init);
        n := CollectedOne(c, init, op, n);
      } else {
        ResetIdles(c, After(c, init), op);
      }
    }
  }

  lemma ResetIdles(c: A.Config, s: A.State, op: Op)
    requires A.ValidConfig(c)
    ensures op.Reset? ==> Apply(c, s, op).state.Idle?
  {
  }

  /**
   A fragmented access unit that is completed is what the latest packets carried, one behind the other,
   each declaring its size, without a reported gap or a new sender among them, and it has that size.
   */
  lemma AacNeverSplices(c: A.Config, ops: seq<Op>, op: Op) returns (n: nat)
    requires A.ValidConfig(c) && op.Pack?
    requires After(c, ops).Partial? && Apply(c, After(c, ops), op).units != []
    ensures var units := Apply(c, After(c, ops), op).units;
            && n >= 2 && |units| == 1 && Tail(c, ops + [op], n, |units[0].data|, units[0].data)
  {
    hide Apply, Tail, Piece, After;
    var s := After(c, ops);
    n := Collected(c, ops);
    PackDoes(c, s, op);
    var data :| Piece(c, op, s.total, data) && Apply(c, s, op).units == [A.AU(s.frag + data, 0)]
      && |s.frag + data| == s.total;
    TailSnoc(c, ops, op, n, s.total, s.frag, data);
    n := n + 1;
  }

  // ---- through the sources -------------------------------------------------

  /** What one arrival makes the AAC depacketizer do. */
  function AacOps(path: Path, gate: PT.Gate, a: Arrival): seq<Op>
  {
    var reset := if a.update.ssrcReset || a.update.gap > 0 then [Reset] else [];
    if !Admitted(path, gate, a) then []
    else if path.Udp? && a.update.duplicate then if a.update.ssrcReset then [Reset] else []
    else reset + [Pack(a.packet.payload, a.packet.marker)]
  }

  function AacHistory(path: Path, c: A.Config, arrivals: seq<Arrival>): seq<Op>
    requires A.ValidConfig(c)
  {
    if arrivals == [] then [] else
      var init := arrivals[..|arrivals| - 1];
      AacHistory(path, c, init)
      + AacOps(path, Run(path, AAC(c, A.Idle), init).gate, arrivals[|arrivals| - 1])
  }

  lemma AfterOne(c: A.Config, ops: seq<Op>, op: Op)
    requires A.ValidConfig(c)
    ensures After(c, ops + [op]) == Apply(c, After(c, ops), op).state
  {
    hide Apply;
    assert (ops + [op])[..|ops|] == ops;
  }

  lemma AacStepIs(c: A.Config, s: A.State, p: Packet)
    requires A.ValidConfig(c) && A.Bounded(s)
    ensures var d, did := AacStep(AAC(c, s), p), Apply(c, s, Pack(p.payload, p.marker));
            d.codec == AAC(c, did.state) && UnitsOf(d) == UnitsOfAAC(did.units)
  {
    hide A.Process;
  }

  lemma AacArrival(path: Path, c: A.Config, ops: seq<Op>, r: Running, a: Arrival)
    requires A.ValidConfig(c) && r.source.codec == AAC(c, After(c, ops)) && A.Bounded(After(c, ops))
    ensures var t, more := Handle(path, r, a).source, AacOps(path, r.gate, a);
            && t.codec == AAC(c, After(c, ops + more)) && A.Bounded(After(c, ops + more))
  {
    hide Handle, Apply, Found, Admitted, After;
    assert ops + [] == ops;
    var op := Pack(a.packet.payload, a.packet.marker);
    ArrivalHandsOn(path, r, a);
    var s := Found(r.source, a.update);
    AfterOne(c, ops, Reset);
    AfterOne(c, ops, op);
    AfterOne(c, ops + [Reset], op);
    ResetIdles(c, After(c, ops), Reset);
    assert ops + ([Reset] + [op]) == ops + [Reset] + [op] && ops + ([] + [op]) == ops + [op];
    FoundAac(path, c, r.source, a.update);
    AacStepIs(c, After(c, ops), a.packet);
    AacStepIs(c, A.Idle, a.packet);
  }

  lemma FoundAac(path: Path, c: A.Config, s: Source, u: Update)
    requires Valid(s) && s.codec.AAC? && s.codec.cfg == c
    ensures Found(s, u).codec == if u.ssrcReset || u.gap > 0 then AAC(c, A.Idle) else s.codec
    ensures Renewed(s).codec == AAC(c, A.Idle)
  {
  }

  lemma {:induction false} AacFollows(path: Path, c: A.Config, arrivals: seq<Arrival>)
    requires A.ValidConfig(c)
    ensures Carries(path, AAC(c, A.Idle))
    ensures var ops := AacHistory(path, c, arrivals);
            Run(path, AAC(c, A.Idle), arrivals).source.codec == AAC(c, After(c, ops)) && A.Bounded(After(c, ops))
  {
    hide Handle, AacOps, Apply;
    if arrivals != [] {
      hide After;
      var init, a := arrivals[..|arrivals| - 1], arrivals[|arrivals| - 1];
      AacFollows(path, c, init);
      AacArrival(path, c, AacHistory(path, c, init), Run(path, AAC(c, A.Idle), init), a);
    }
  }

  /** The depacketizer's history up to the packet of the arrival after these, a Reset for its gap included. */
  function Before(path: Path, c: A.Config, arrivals: seq<Arrival>, a: Arrival): seq<Op>
    requires A.ValidConfig(c)
  {
    AacHistory(path, c, arrivals) + if a.update.ssrcReset || a.update.gap > 0 then [Reset] else []
  }

  /** An arrival that reaches the AAC depacketizer adds the units it completes there, as frames. */
  lemma AacFrames(path: Path, c: A.Config, arrivals: seq<Arrival>, a: Arrival)
    requires A.ValidConfig(c)
    ensures Carries(path, AAC(c, A.Idle))
    ensures var r := Run(path, AAC(c, A.Idle), arrivals);
            Admitted(path, r.gate, a) && !(path.Udp? && a.update.duplicate) ==>
              var units := Apply(c, After(c, Before(path, c, arrivals, a)), Pack(a.packet.payload, a.packet.marker)).units;
              HandsOn(if a.update.ssrcReset then [] else r.source.frames, Handle(path, r, a).source.frames,
                      UnitsOfAAC(units), (if a.update.ssrcReset then 0 else r.source.pending) + a.update.gap)
  {
    hide Handle, Apply, After, AacHistory, Admitted, HandsOn, Before, UnitsOfAAC;
    AacFollows(path, c, arrivals);
    var r, ops := Run(path, AAC(c, A.Idle), arrivals), AacHistory(path, c, arrivals);
    hide Run, Carries;
    BeforeIs(path, c, arrivals, a);
    if Admitted(path, r.gate, a) && !(path.Udp? && a.update.duplicate) {
      AacArrivalFrames(path, c, After(c, ops), r, a);
    }
  }

  lemma BeforeIs(path: Path, c: A.Config, arrivals: seq<Arrival>, a: Arrival)
    requires A.ValidConfig(c)
    ensures After(c, Before(path, c, arrivals, a)) ==
            if a.update.ssrcReset || a.update.gap > 0 then A.Idle else After(c, AacHistory(path, c, arrivals))
  {
    hide Apply, After, AacHistory;
    var ops := AacHistory(path, c, arrivals);
    AfterOne(c, ops, Reset);
    ResetIdles(c, After(c, ops), Reset);
    assert ops + [] == ops;
  }

  lemma AacArrivalFrames(path: Path, c: A.Config, st: A.State, r: Running, a: Arrival)
    requires A.ValidConfig(c) && A.Bounded(st) && r.source.codec == AAC(c, st)
    requires Admitted(path, r.gate, a) && !(path.Udp? && a.update.duplicate)
    ensures Carries(path, r.source.codec)
    ensures var found := if a.update.ssrcReset || a.update.gap > 0 then A.Idle else st;
            HandsOn(if a.update.ssrcReset then [] else r.source.frames, Handle(path, r, a).source.frames,
                    UnitsOfAAC(Apply(c, found, Pack(a.packet.payload, a.packet.marker)).units),
                    (if a.update.ssrcReset then 0 else r.source.pending) + a.update.gap)
  {
    hide Handle, Apply, Admitted, HandsOn, Found, UnitsOfAAC, StepFor, UnitsOf, Carries, Silent;
    hide A.ValidConfig, A.Bounded;
    AacCarried(path, c, st);
    ArrivalHandsOn(path, r, a);
    FoundAac(path, c, r.source, a.update);
    FoundRest(r.source, a.update);
    AacUnits(path, c, if a.update.ssrcReset || a.update.gap > 0 then A.Idle else st, a.packet);
  }

  lemma AacCarried(path: Path, c: A.Config, st: A.State)
    requires A.ValidConfig(c) && A.Bounded(st)
    ensures Carries(path, AAC(c, st)) && ValidCodec(AAC(c, st)) && A.Bounded(A.Idle)
  {
  }

  lemma AacUnits(path: Path, c: A.Config, st: A.State, p: Packet)
    requires A.ValidConfig(c) && A.Bounded(st)
    ensures Carries(path, AAC(c, st)) && !Silent(path, AAC(c, st))
    ensures UnitsOf(StepFor(path, AAC(c, st), p)) == UnitsOfAAC(Apply(c, st, Pack(p.payload, p.marker)).units)
  {
    hide AacStep, UnitsOf, UnitsOfAAC, Apply;
    AacStepIs(c, st, p);
  }

  lemma FoundRest(s: Source, u: Update)
    requires Valid(s)
    ensures Found(s, u).frames == (if u.ssrcReset then [] else s.frames)
    ensures Found(s, u).pending == (if u.ssrcReset then 0 else s.pending)
  {
  }

  /**
   Fragmented AAC over a lossy network never splices: whatever is lost, repeated or reordered, the frame
   an arrival completes of a unit being collected is what the latest packets let through carried, each
   declaring its size, with no reported gap and no new sender among them.
   */
  lemma AacFrameWhole(path: Path, c: A.Config, arrivals: seq<Arrival>, a: Arrival) returns (n: nat, frame: seq<byte>)
    requires A.ValidConfig(c) && After(c, Before(path, c, arrivals, a)).Partial?
    requires Apply(c, After(c, Before(path, c, arrivals, a)), Pack(a.packet.payload, a.packet.marker)).units != []
    requires Admitted(path, Run(path, AAC(c, A.Idle), arrivals).gate, a) && !(path.Udp? && a.update.duplicate)
    ensures Carries(path, AAC(c, A.Idle))
    ensures var r := Run(path, AAC(c, A.Idle), arrivals);
            var before, after := if a.update.ssrcReset then [] else r.source.frames, Handle(path, r, a).source.frames;
            && |after| == |before| + 1 && before <= after && after[|before|].data == frame && n >= 2
            && Tail(c, Before(path, c, arrivals, a) + [Pack(a.packet.payload, a.packet.marker)], n, |frame|, frame)
  {
    hide Handle, Apply, After, AacHistory, Admitted, Before, Tail;
    var ops, op := Before(path, c, arrivals, a), Pack(a.packet.payload, a.packet.marker);
    AacFrames(path, c, arrivals, a);
    n := AacNeverSplices(c, ops, op);
    var units := Apply(c, After(c, ops), op).units;
    frame := units[0].data;
    assert UnitsOfAAC(units)[0].data == frame;
  }
}
