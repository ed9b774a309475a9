/**
 What reaches the callback when packets are lost: the guarantees of the fragmenting formats, carried
 through the sources that reset their depacketizers at gaps and new senders.
 */
module LossyDelivery {
  import opened Bits
  import opened CodecPaths
  import opened GapAccounting
  import PT = PayloadTypes
  import F = FlacRtp
  import M = Mp3Rtp

  // ---- MPEG audio ----------------------------------------------------------

  /** The packet a sender of these frames puts out for an op: any piece, or several whole frames. */
  predicate Sends(os: seq<M.Original>, op: M.Op, p: Packet)
  {
    && M.Sendable(os, op)
    && match op
       case Piece(k, off, len, mbz) =>
         p.payload == M.WithHeader(mbz, off, os[k].bytes[off..off + len]) && p.time == os[k].time
       case Aggregate(time, ks, mbz) =>
         p.payload == M.WithHeader(mbz, 0, M.Joined(os, ks)) && p.time == time
       case Reset => false
  }

  ghost predicate FromSender(os: seq<M.Original>, a: Arrival)
  {
    exists op :: Sends(os, op, a.packet)
  }

  predicate IsOriginal(os: seq<M.Original>, data: seq<byte>)
  {
    exists k :: 0 <= k < |os| && os[k].bytes == data
  }

  /** A track that has delivered originals only, and collects nothing but a prefix of one. */
  predicate Faithful(os: seq<M.Original>, s: Source)
  {
    && s.codec.MP3? && M.Faithful(os, s.codec.mp3)
    && forall i :: 0 <= i < |s.frames| ==> IsOriginal(os, s.frames[i].data)
  }

  lemma Mp3StepFaithful(os: seq<M.Original>, s: Source, op: M.Op, p: Packet, gap: nat)
    requires M.Originals(os) && Faithful(os, s) && Sends(os, op, p)
    ensures Faithful(os, GapAccounting.DeliverMP3(s, p, gap))
  {
    hide M.Process, M.Originals, M.Sendable, M.Faithful;
    M.DeliverExact(os, s.codec.clockRate, s.codec.mp3, op);
    ProcessIsDeliver(os, s.codec.clockRate, s.codec.mp3, op, p);
    var r := M.Process(s.codec.clockRate, s.codec.mp3, p.payload, p.time);
    if r.result.Ok? {
      UnitsOriginal(os, r.result.frames);
    }
  }

  lemma ProcessIsDeliver(os: seq<M.Original>, rate: nat, s: M.State, op: M.Op, p: Packet)
    requires Sends(os, op, p)
    ensures M.Process(rate, s, p.payload, p.time) == M.Deliver(os, rate, s, op)
  {
    hide M.Process, M.WithHeader;
  }

  lemma UnitsOriginal(os: seq<M.Original>, frames: seq<M.Frame>)
    requires M.AllOriginal(os, frames)
    ensures forall i :: 0 <= i < |frames| ==> IsOriginal(os, UnitsOfMP3(frames)[i].data)
  {
    forall i | 0 <= i < |frames|
      ensures IsOriginal(os, UnitsOfMP3(frames)[i].data)
    {
      assert M.IsOriginal(os, frames[i]);
    }
  }

  lemma Mp3HandleFaithful(path: Path, os: seq<M.Original>, r: Running, a: Arrival)
    requires path.Rtsp? && M.Originals(os) && Faithful(os, r.source) && FromSender(os, a)
    ensures Carries(path, r.source.codec) && Faithful(os, Handle(path, r, a).source)
  {
    hide M.Originals, PT.Admit, HandOver, Mp3Step, IsOriginal;
    var op :| Sends(os, op, a.packet);
    var s := if a.update.ssrcReset then Renewed(r.source) else r.source;
    assert Faithful(os, s);
    var t := Counted(s, a.update.gap);
    assert Faithful(os, t);
    Mp3StepFaithful(os, t, op, a.packet, a.update.gap);
  }

  /**
   RFC 2250 over a lossy network: whatever packets of the sender's frames reach an RTSP track, in
   whatever order, however often, with whatever gaps and new senders reported, every frame it completes
   is one of the originals, byte for byte.
   */
  lemma {:induction false} Mp3OnlyOriginals(path: Path, rate: nat, os: seq<M.Original>, arrivals: seq<Arrival>)
    requires path.Rtsp? && M.Originals(os) && forall i :: 0 <= i < |arrivals| ==> FromSender(os, arrivals[i])
    ensures Carries(path, MP3(rate, M.Idle)) && Faithful(os, Run(path, MP3(rate, M.Idle), arrivals).source)
  {
    hide Handle, M.Originals, FromSender;
    var c := MP3(rate, M.Idle);
    if arrivals != [] {
      var init, a := arrivals[..|arrivals| - 1], arrivals[|arrivals| - 1];
      Mp3OnlyOriginals(path, rate, os, init);
      Mp3HandleFaithful(path, os, Run(path, c, init), a);
    }
  }

  // ---- FLAC ----------------------------------------------------------------

  /** What one arrival makes the FLAC depacketizer do. */
  function FlacOps(path: Path, gate: PT.Gate, a: Arrival): seq<F.Op>
  {
    var admitted := if path.Udp? then a.payloadType == path.payloadType else PT.Admit(gate, a.payloadType).accepted;
    var op := F.Packet(a.packet.payload, a.packet.marker, a.packet.time);
    if !admitted then []
    else if path.Udp? && a.update.duplicate then if a.update.ssrcReset then [F.Reset] else []
    else if a.update.ssrcReset || a.update.gap > 0 then [F.Reset, op]
    else [op]
  }

  /** The depacketizer's whole history: the packets let through, and a Reset at every gap and new sender. */
  function FlacHistory(path: Path, arrivals: seq<Arrival>): seq<F.Op>
  {
    if arrivals == [] then [] else
      var init := arrivals[..|arrivals| - 1];
      FlacHistory(path, init)
      + FlacOps(path, Run(path, FLAC(F.Idle), init).gate, arrivals[|arrivals| - 1])
  }

  lemma AfterTwice(s: F.State, op: F.Op)
    ensures F.After(s, [op]) == F.Apply(s, op).state
    ensures F.After(s, [F.Reset, op]) == F.Apply(F.Idle, op).state
  {
    hide F.Process;
    assert [op][1..] == [] && [F.Reset, op][1..] == [op];
    assert F.After(F.Idle, [op]) == F.After(F.Apply(F.Idle, op).state, []);
    assert F.After(s, [F.Reset, op]) == F.After(F.Apply(s, F.Reset).state, [op]);
  }

  lemma {:induction false} AfterConcat(s: F.State, a: seq<F.Op>, b: seq<F.Op>)
    ensures F.After(s, a + b) == F.After(F.After(s, a), b)
    decreases |a|
  {
    hide F.Apply;
    if a == [] {
      assert a + b == b;
    } else {
      assert (a + b)[1..] == a[1..] + b;
      AfterConcat(F.Apply(s, a[0]).state, a[1..], b);
    }
  }

  /** A delivered packet is one op; a frame completed is its result. */
  lemma FlacDelivered(s: Source, p: Packet, gap: nat)
    requires s.codec.FLAC?
    ensures var t := GapAccounting.DeliverFLAC(s, p, gap);
            var o := F.Apply(s.codec.flac, F.Packet(p.payload, p.marker, p.time));
            && t.codec == FLAC(o.state)
            && (t.frames != s.frames ==> t.frames != [] && o.result == F.Frame(t.frames[|t.frames| - 1].data))
  {
    hide F.Process;
  }

  /** One arrival takes the codec where its ops take the depacketizer. */
  lemma FlacHandle(path: Path, r: Running, a: Arrival)
    requires r.source.codec.FLAC?
    ensures Carries(path, r.source.codec)
    ensures var q := Handle(path, r, a); var ops := FlacOps(path, r.gate, a); var st := r.source.codec.flac;
            && q.source.codec == FLAC(F.After(st, ops))
            && (q.source.frames != r.source.frames && q.source.frames != [] ==>
                  && ops != [] && ops[|ops| - 1] == F.Packet(a.packet.payload, a.packet.marker, a.packet.time)
                  && F.Apply(F.After(st, ops[..|ops| - 1]), ops[|ops| - 1]).result
                     == F.Frame(q.source.frames[|q.source.frames| - 1].data))
  {
    hide F.Apply, F.After, PT.Admit, GapAccounting.DeliverFLAC;
    var st, op := r.source.codec.flac, F.Packet(a.packet.payload, a.packet.marker, a.packet.time);
    NoOps(st);
    AfterTwice(st, op);
    AfterTwice(st, F.Reset);
    ResetIdles(st);
    assert [F.Reset, op][..1] == [F.Reset] && [op][..0] == [];
    var s := if a.update.ssrcReset then Renewed(r.source) else r.source;
    FlacDelivered(Counted(s, a.update.gap), a.packet, a.update.gap);
  }

  lemma ResetIdles(s: F.State)
    ensures F.Apply(s, F.Reset).state == F.Idle
  {
  }

  lemma NoOps(s: F.State)
    ensures F.After(s, []) == s
  {
  }

  lemma {:induction false} FlacFollows(path: Path, arrivals: seq<Arrival>)
    ensures Carries(path, FLAC(F.Idle))
    ensures Run(path, FLAC(F.Idle), arrivals).source.codec == FLAC(F.After(F.Idle, FlacHistory(path, arrivals)))
  {
    hide Handle, FlacOps, F.After;
    if arrivals == [] {
      NoOps(F.Idle);
    } else {
      var init, a := arrivals[..|arrivals| - 1], arrivals[|arrivals| - 1];
      FlacFollows(path, init);
      var r := Run(path, FLAC(F.Idle), init);
      FlacHandle(path, r, a);
      AfterConcat(F.Idle, FlacHistory(path, init), FlacOps(path, r.gate, a));
    }
  }

  /** Every frame completed on arrival `a` is that of the depacketizer's last op. */
  lemma FlacCompleted(path: Path, arrivals: seq<Arrival>, a: Arrival)
    requires var c := FLAC(F.Idle);
             && Carries(path, c)
             && Run(path, c, arrivals + [a]).source.frames != Run(path, c, arrivals).source.frames
             && Run(path, c, arrivals + [a]).source.frames != []
    ensures var ops := FlacHistory(path, arrivals + [a]); var n := |ops| - 1;
            var frames := Run(path, FLAC(F.Idle), arrivals + [a]).source.frames;
            && ops != [] && ops[n] == F.Packet(a.packet.payload, a.packet.marker, a.packet.time)
            && F.Results(F.Idle, ops)[n] == F.Frame(frames[|frames| - 1].data)
  {
    hide Handle, FlacOps, F.After, F.Apply, Run, Carries;
    var c := FLAC(F.Idle);
    RunSnoc(path, c, arrivals, a);
    FlacFollows(path, arrivals);
    var r := Run(path, c, arrivals);
    FlacHandle(path, r, a);
    var before, ops := FlacHistory(path, arrivals), FlacOps(path, r.gate, a);
    HistorySnoc(path, arrivals, a);
    var k := |ops| - 1;
    assert before + ops == (before + ops[..k]) + [ops[k]];
    AfterConcat(F.Idle, before, ops[..k]);
    F.AfterSnoc(F.Idle, before + ops[..k], ops[k]);
  }

  lemma HistorySnoc(path: Path, arrivals: seq<Arrival>, a: Arrival)
    requires Carries(path, FLAC(F.Idle))
    ensures FlacHistory(path, arrivals + [a])
            == FlacHistory(path, arrivals) + FlacOps(path, Run(path, FLAC(F.Idle), arrivals).gate, a)
  {
    hide Run, FlacOps, Carries;
    assert (arrivals + [a])[..|arrivals|] == arrivals;
  }

  /**
   FLAC over a lossy network never splices: whatever is lost, repeated or reordered, reported or not, a
   completed frame is the payloads of the latest packets let through, one run of the completing packet's
   timestamp without a reported gap in it.
   */
  lemma FlacNeverSplices(path: Path, arrivals: seq<Arrival>, a: Arrival) returns (n: nat)
    requires var c := FLAC(F.Idle);
             && Carries(path, c)
             && Run(path, c, arrivals + [a]).source.frames != Run(path, c, arrivals).source.frames
             && Run(path, c, arrivals + [a]).source.frames != []
    ensures var frames := Run(path, FLAC(F.Idle), arrivals + [a]).source.frames;
            F.TailIs(FlacHistory(path, arrivals + [a]), n, a.packet.time, frames[|frames| - 1].data)
  {
    hide Run, Carries, F.TailIs, F.Results, FlacHistory;
    FlacCompleted(path, arrivals, a);
    var ops := FlacHistory(path, arrivals + [a]);
    n := F.NeverSplices(ops, |ops| - 1);
    assert ops[..|ops|] == ops;
  }

  /**
   And when every loss within the frame is reported, that is, when packets of its timestamp that come
   through one after the other with no gap between them carry consecutive fragments, the completed
   frame is the sender's from some fragment on to its end.
   */
  lemma FlacDeliversSuffix(
    path: Path, arrivals: seq<Arrival>, a: Arrival, fs: seq<F.Fragment>, js: seq<nat>) returns (first: nat)
    requires var c := FLAC(F.Idle);
             && Carries(path, c)
             && Run(path, c, arrivals + [a]).source.frames != Run(path, c, arrivals).source.frames
             && Run(path, c, arrivals + [a]).source.frames != []
    requires F.IsFragmentation(fs) && |js| == |FlacHistory(path, arrivals + [a])|
    requires F.Carries(FlacHistory(path, arrivals + [a]), js, fs, a.packet.time)
    requires F.ResetAtGaps(FlacHistory(path, arrivals + [a]), js, a.packet.time)
    ensures var frames := Run(path, FLAC(F.Idle), arrivals + [a]).source.frames;
            first < |fs| && frames[|frames| - 1].data == F.Joined(fs[first..])
  {
    hide Run, Carries, F.Carries, F.ResetAtGaps, F.IsFragmentation, F.Results, F.Joined, FlacHistory;
    FlacCompleted(path, arrivals, a);
    var ops := FlacHistory(path, arrivals + [a]);
    first := F.ContiguousWithResets(ops, |ops| - 1, fs, js, a.packet.time);
  }
}
