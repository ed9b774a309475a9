/**
 The demultiplexer object: the control decisions of `TsDemux` carried out on fields and on a
 framer object, and what that delivers.
 */
module TsDemuxer {
  import opened Bits
  import opened TsPacket
  import opened TsDemux
  import F = AdtsFramer
  import A = Adts

  /** An access unit as handed to the callback, with the header it was framed by. */
  datatype AU = AU(data: seq<byte>, dur: nat, hdr: A.Header)

  function UnitOf(e: F.Event): AU
    requires e.Delivered?
  {
    AU(if e.hdr.headerLen <= |e.frame| then e.frame[e.hdr.headerLen..] else [], A.FrameDuration(e.hdr), e.hdr)
  }

  /** The access units a framer log delivered. */
  function Units(log: seq<F.Event>): seq<AU>
  {
    if log == [] then [] else
      Units(log[..|log| - 1]) + (if log[|log| - 1].Delivered? then [UnitOf(log[|log| - 1])] else [])
  }

  /** The framer in use, what earlier framers delivered, and the discards charged so far. */
  datatype Framing = Framing(framer: F.State, past: seq<AU>, gaps: nat)

  function Ended(s: F.State): F.State { F.Drain(s.(ended := true)) }

  function Perform(r: Framing, a: Action): Framing
  {
    match a
    case Feed(b) => r.(framer := F.Drain(F.Fed(r.framer, b)))
    case Loss => r.(gaps := r.gaps + 1)
    case Restart =>
      var e := Ended(r.framer);
      Framing(F.Start, r.past + Units(e.log), r.gaps + F.GapsAtEnd(e))
  }

  function Replay(acts: seq<Action>): Framing
  {
    if acts == [] then Framing(F.Start, [], 0)
    else Perform(Replay(acts[..|acts| - 1]), acts[|acts| - 1])
  }

  /** Everything delivered over an action list. */
  function Delivered(acts: seq<Action>): seq<AU>
  {
    Replay(acts).past + Units(Replay(acts).framer.log)
  }

  lemma ReplaySnoc(acts: seq<Action>, a: Action)
    ensures Replay(acts + [a]) == Perform(Replay(acts), a)
  {
    assert (acts + [a])[..|acts|] == acts;
  }

  lemma UnitsSnoc(log: seq<F.Event>, e: F.Event)
    ensures Units(log + [e]) == Units(log) + if e.Delivered? then [UnitOf(e)] else []
  {
    assert (log + [e])[..|log|] == log;
  }

  /** One framer call adds exactly the delivered unit, or none. */
  lemma {:induction false} NextUnits(s: F.State)
    ensures var r := F.Next(s);
            && (r.ok ==>
                  var e := r.state.log[|r.state.log| - 1];
                  e.Delivered? && Units(r.state.log) == Units(s.log) + [UnitOf(e)])
            && (!r.ok ==> Units(r.state.log) == Units(s.log))
    decreases |s.rem|
  {
    hide F.Judge;
    var v := F.Judge(s);
    if !v.Wait? {
      var s' := F.Act(s, v);
      assert s'.log == s.log + [s'.log[|s.log|]];
      UnitsSnoc(s.log, s'.log[|s.log|]);
      if !F.Delivers(v) {
        NextUnits(s');
      }
    }
  }

  // ---- delivery through the whole stack ------------------------------------

  /** Feeding non-empty chunks from a fresh framer is the framer's own round of chunks. */
  lemma {:induction false} ReplayIsRounds(acts: seq<Action>)
    requires forall i :: 0 <= i < |acts| ==> acts[i].Feed?
    ensures Replay(acts) == Framing(F.Rounds(F.Start, Chunks(acts)), [], 0)
    ensures FedOf(acts) == F.Concat(Chunks(acts))
  {
    if acts != [] {
      hide F.Drain, F.Rounds, F.Concat, F.Fed, Units;
      var init, last := acts[..|acts| - 1], acts[|acts| - 1];
      assert acts == init + [last];
      ReplayIsRounds(init);
      ReplaySnoc(init, last);
      assert Chunks(acts) == Chunks(init) + [last.bytes];
      RoundsSnoc(F.Start, Chunks(init), last.bytes);
      ConcatSnoc(Chunks(init), last.bytes);
    }
  }

  function Chunks(acts: seq<Action>): seq<seq<byte>>
    requires forall i :: 0 <= i < |acts| ==> acts[i].Feed?
  {
    seq(|acts|, i requires 0 <= i < |acts| => acts[i].bytes)
  }

  lemma {:induction false} RoundsSnoc(s: F.State, chunks: seq<seq<byte>>, b: seq<byte>)
    ensures F.Rounds(s, chunks + [b]) == F.Drain(F.Fed(F.Rounds(s, chunks), b))
    decreases |chunks|
  {
    hide F.Drain;
    if chunks == [] {
      assert ([] + [b])[1..] == [];
    } else {
      assert (chunks + [b])[1..] == chunks[1..] + [b];
      RoundsSnoc(F.Drain(F.Fed(s, chunks[0])), chunks[1..], b);
    }
  }

  lemma {:induction false} ConcatSnoc(ss: seq<seq<byte>>, b: seq<byte>)
    ensures F.Concat(ss + [b]) == F.Concat(ss) + b
  {
    if ss == [] {
      assert ([] + [b])[1..] == [];
      assert F.Concat([] + [b]) == b + F.Concat([]);
    } else {
      assert (ss + [b])[1..] == ss[1..] + [b];
      ConcatSnoc(ss[1..], b);
    }
  }

  lemma FedFromNothing(c: Control, c': Control, es: seq<byte>)
    requires c.acts == [] && FedMore(c, c', es)
    ensures (forall i :: 0 <= i < |c'.acts| ==> c'.acts[i].Feed?) && FedOf(c'.acts) == es
  {
    assert FedOf([]) == [] && [] + es == es;
  }

  /** Actions that fed a well-formed elementary stream, whatever the pieces, deliver its units. */
  lemma ReplayDelivers(acts: seq<Action>, fs: seq<F.Frame>)
    requires forall i :: 0 <= i < |acts| ==> acts[i].Feed?
    requires F.SameStream(fs) && FedOf(acts) == F.Concat(fs)
    ensures var e := Ended(Replay(acts).framer);
            && Replay(acts).past == [] && Replay(acts).gaps == 0
            && e.log == F.EventsOf(fs) && F.GapsAtEnd(e) == F.Gaps(F.EventsOf(fs))
  {
    hide F.Drain, F.Rounds, F.SameStream;
    ReplayIsRounds(acts);
    F.DeliveryTheorem(fs, Chunks(acts));
  }

  /** The frames of a well-formed stream are its bytes. */
  lemma {:induction false} EventsConsume(fs: seq<F.Frame>)
    ensures F.Consumed(F.EventsOf(fs)) == F.Concat(fs)
  {
    hide F.IsFrame;
    if fs != [] {
      assert F.EventsOf(fs) == [F.EventOf(fs[0])] + F.EventsOf(fs[1..]);
      assert F.EventsOf(fs)[1..] == F.EventsOf(fs[1..]);
      EventsConsume(fs[1..]);
    }
  }

  /** Whatever was fed, its frames are among the bytes fed. */
  lemma ReplayConsumes(acts: seq<Action>)
    requires forall i :: 0 <= i < |acts| ==> acts[i].Feed?
    ensures var e := Ended(Replay(acts).framer);
            Replay(acts).past == [] && Replay(acts).gaps == 0 && F.Consumed(e.log) + e.rem == FedOf(acts)
  {
    hide F.Drain, F.Rounds;
    ReplayIsRounds(acts);
    F.SessionExplains(Chunks(acts));
  }

  lemma ShortOf(front: seq<byte>, rest: seq<byte>, all: seq<byte>, other: seq<byte>)
    requires front + rest == all && |all| <= |other| && all != other
    ensures front != other
  {
    assert |front + rest| == |front| + |rest|;
    assert rest == [] ==> front + rest == front;
  }

  /**
   End to end: a new demultiplexer, given segments that open with the program's tables and carry a
   muxed elementary stream of valid, mutually consistent frames, and then ended, has charged no loss
   of its own and delivered exactly the single-block access units in order, with the multi-block
   frames the only gaps: if and only if no PES packet with bytes to feed has its fixed header split.
   */
  lemma EndToEnd(
    t: Tables, pmtPID: nat, audioPID: nat, qs: seq<PesPacket>, cut: seq<seq<Part>>, ts: seq<Sent>, fs: seq<F.Frame>)
    requires ValidTables(t) && 0 < pmtPID < NullPID && 0 < audioPID < NullPID && pmtPID != audioPID
    requires ts != [] && forall i :: 0 <= i < |ts| ==> ValidSent(ts[i], pmtPID, audioPID)
    requires [PsiSlot(PatPacket(t, pmtPID)), PsiSlot(PmtPacket(t, pmtPID, audioPID))] <= ts[0].slots
    requires AllRestated(Sections([], []), ts, pmtPID, audioPID)
    requires |cut| == |qs| && forall i :: 0 <= i < |qs| ==> Carries(cut[i], qs[i])
    requires SentParts(ts) == AllParts(cut)
    requires F.SameStream(fs) && EsOf(qs) == F.Concat(fs)
    ensures var h := DemuxAll(TsDemux.Fresh, Segments(ts, pmtPID, audioPID));
            var e := Ended(Replay(h.control.acts).framer);
            && h.error == None && Replay(h.control.acts).past == [] && Replay(h.control.acts).gaps == 0
            && (e.log == F.EventsOf(fs) && F.GapsAtEnd(e) == F.Gaps(F.EventsOf(fs)) <==>
                  forall i :: 0 <= i < |qs| ==> HeadFits(cut[i]) || qs[i].es == [])
  {
    hide DemuxAll, Carries, F.Drain, F.SameStream, F.Gaps, FedMore, FedOf, Replay, Ended, Segments, PatPacket, PmtPacket;
    hide AllRestated, ValidSent, HeadFits, SentParts, F.EventsOf;
    OpensWithTables(TsDemux.Fresh, t, ts, pmtPID, audioPID);
    Acquires(TsDemux.Fresh, t, pmtPID, audioPID);
    var c := Announced(TsDemux.Fresh, pmtPID, audioPID);
    DemuxInvertsMux(c, pmtPID, audioPID, qs, cut, ts);
    var c' := DemuxAll(c, Segments(ts, pmtPID, audioPID)).control;
    FedFromNothing(c, c', KeptOf(cut, qs));
    AllKeptExactly(cut, qs);
    ReplayConsumes(c'.acts);
    EventsConsume(fs);
    if KeptOf(cut, qs) == EsOf(qs) {
      ReplayDelivers(c'.acts, fs);
    } else {
      var e := Ended(Replay(c'.acts).framer);
      ShortOf(F.Consumed(e.log), e.rem, KeptOf(cut, qs), EsOf(qs));
    }
  }

  // ---- the object ----------------------------------------------------------

  class Demuxer {
    var pmtPID: nat
    var havePMT: bool
    var audioPID: nat
    var haveAudio: bool
    var patSec: seq<byte>
    var pmtSec: seq<byte>
    var pesHdrSkip: nat
    var pesDropping: bool
    var framer: F.Stream
    var asc: Option<seq<byte>>
    var accumGaps: nat
    var audioCC: nat
    var haveCC: bool
    var out: seq<AU>
    ghost var acts: seq<Action>

    ghost function View(): Control
      reads this
    {
      Control(if havePMT then Some(pmtPID) else None, if haveAudio then Some(audioPID) else None,
              patSec, pmtSec, pesHdrSkip, pesDropping, if haveCC then Some(audioCC) else None, acts)
    }

    /** The framer has replayed the actions, and the callback has seen what they deliver. */
    ghost predicate Valid()
      reads this, framer
    {
      && framer.Valid()
      && framer.View() == Replay(acts).framer
      && out == Delivered(acts)
      && accumGaps == Replay(acts).gaps
      && asc == AscOf(out)
    }

    constructor ()
      ensures Valid() && View() == TsDemux.Fresh && out == []
      ensures fresh(framer)
    {
      pmtPID, havePMT, audioPID, haveAudio := 0, false, 0, false;
      patSec, pmtSec, pesHdrSkip, pesDropping := [], [], 0, false;
      framer := new F.Stream();
      asc, accumGaps, audioCC, haveCC, out, acts := None, 0, 0, false, [], [];
    }

    /** Delivers every frame the framer can confirm, recording the config of the first. */
    method DrainFramer(ghost past: seq<AU>)
      requires framer.Valid() && asc == AscOf(out) && out == past + Units(framer.View().log)
      modifies this`out, this`asc, framer
      ensures framer.Valid() && asc == AscOf(out)
      ensures framer.View() == F.Drain(old(framer.View()))
      ensures out == past + Units(framer.View().log)
    {
      hide F.Next, F.Drain, Units, UnitOf;
      ghost var s0 := framer.View();
      while true
        invariant framer.Valid() && asc == AscOf(out)
        invariant F.Drain(framer.View()) == F.Drain(s0)
        invariant out == past + Units(framer.View().log)
        decreases |framer.View().rem|
      {
        ghost var s := framer.View();
        F.DrainByNext(s);
        NextUnits(s);
        var data, dur, ok := framer.NextFrame();
        if !ok {
          break;
        }
        var unit := AU(data, dur, framer.hdr.value);
        UnitIs(framer.View().log[|framer.View().log| - 1]);
        AscSnoc(out, unit);
        if asc == None {
          asc := Some(A.AudioSpecificConfig(framer.hdr.value));
        }
        assert past + Units(s.log) + [unit] == past + (Units(s.log) + [unit]);
        out := out + [unit];
      }
    }

    /** Appends elementary-stream bytes to the framer and delivers what they complete. */
    method FeedFramer(es: seq<byte>)
      requires Valid()
      modifies this`out, this`asc, this`acts, framer
      ensures Valid() && View() == FedBytes(old(View()), es)
    {
      hide Replay, Units, AscOf, F.Drain;
      if es == [] {
        return;
      }
      ReplaySnoc(acts, TsDemux.Feed(es));
      framer.Feed(es);
      DrainFramer(Replay(acts).past);
      framer.Compact();
      acts := acts + [TsDemux.Feed(es)];
    }

    /** Flushes the framer at stream end; a truncated final frame is charged once. */
    method End()
      requires Valid()
      modifies this`out, this`asc, framer
      ensures framer.gaps == F.GapsAtEnd(Ended(old(Replay(acts).framer)))
      ensures out == Replay(acts).past + Units(Ended(Replay(acts).framer).log) && asc == AscOf(out)
    {
      hide Replay, Units, AscOf, F.Drain;
      framer.SetEOF();
      DrainFramer(Replay(acts).past);
      framer.Finish();
    }

    /** Flushes and replaces the framer, keeping the acquired PIDs. */
    method ResetContinuity()
      requires Valid()
      modifies this, framer
      ensures Valid() && fresh(framer) && View() == Restarted(old(View()))
    {
      hide Replay, Units, AscOf, Ended, F.GapsAtEnd;
      ReplaySnoc(acts, TsDemux.Restart);
      End();
      accumGaps := accumGaps + framer.gaps;
      framer := new F.Stream();
      pesHdrSkip := 0;
      pesDropping := false;
      acts := acts + [TsDemux.Restart];
      assert out == out + Units([]) by { NoUnits(); }
    }

    method ResetDomain()
      requires Valid()
      modifies this, framer
      ensures Valid() && fresh(framer) && View() == DomainReset(old(View()))
    {
      hide Replay, Units, AscOf;
      ResetContinuity();
      patSec, pmtSec, havePMT, haveAudio, haveCC := [], [], false, false, false;
    }

    method HandlePES(payload: seq<byte>, pusi: bool)
      requires Valid()
      modifies this, framer
      ensures Valid() && framer == old(framer) && View() == Pes(old(View()), payload, pusi)
    {
      hide Replay, Units, AscOf;
      if pusi {
        pesHdrSkip := 0;
        pesDropping := false;
        if |payload| < 9 || payload[0] != 0 || payload[1] != 0 || payload[2] != 1 {
          pesDropping := true;
          return;
        }
        var esStart := 9 + payload[8] as int;
        if esStart <= |payload| {
          FeedFramer(payload[esStart..]);
        } else {
          pesHdrSkip := esStart - |payload|;
        }
        return;
      }
      if pesDropping {
        return;
      }
      var skip := 0;
      if pesHdrSkip > 0 {
        skip := if pesHdrSkip < |payload| then pesHdrSkip else |payload|;
        pesHdrSkip := pesHdrSkip - skip;
      }
      assert skip == 0 ==> payload[skip..] == payload;
      FeedFramer(payload[skip..]);
    }

    /** Restarts the framer after missing packets and charges the discard. */
    method ChargeLoss()
      requires Valid()
      modifies this, framer
      ensures Valid() && fresh(framer)
      ensures View() == Restarted(old(View())).(acts := old(acts) + [TsDemux.Restart, TsDemux.Loss])
    {
      hide Replay, Units, AscOf;
      ghost var before := acts;
      ResetContinuity();
      ReplaySnoc(acts, TsDemux.Loss);
      accumGaps := accumGaps + 1;
      acts := acts + [TsDemux.Loss];
      assert acts == before + [TsDemux.Restart, TsDemux.Loss];
    }

    method HandleAudio(payload: seq<byte>, pusi: bool, cc: nat)
      requires Valid()
      modifies this, framer
      ensures Valid() && (framer == old(framer) || fresh(framer))
      ensures View() == AudioPayload(old(View()), payload, pusi, cc)
    {
      hide Replay, Units, AscOf, Pes;
      if haveCC && cc == audioCC {
        return;
      }
      if haveCC && cc != (audioCC + 1) % 16 {
        ChargeLoss();
      }
      audioCC := cc;
      haveCC := true;
      HandlePES(payload, pusi);
    }

    method HandlePAT(payload: seq<byte>, pusi: bool)
      requires Valid()
      modifies this`patSec, this`pmtPID, this`havePMT
      ensures Valid() && View() == PatPayload(old(View()), payload, pusi)
    {
      hide Replay, Units, AscOf, ProgramMapPid, Assemble;
      var r := Assemble(patSec, payload, pusi);
      patSec := r.buf;
      if r.sec.Some? {
        var pid := ParsePAT(r.sec.value);
        if pid.Some? {
          pmtPID := pid.value;
          havePMT := true;
        }
      }
    }

    method HandlePMT(payload: seq<byte>, pusi: bool) returns (err: Option<Error>)
      requires Valid()
      modifies this`pmtSec, this`audioPID, this`haveAudio
      ensures Valid() && Handled(View(), err) == PmtPayload(old(View()), payload, pusi)
    {
      hide Replay, Units, AscOf, AudioOf, Assemble;
      var r := Assemble(pmtSec, payload, pusi);
      pmtSec := r.buf;
      if r.sec.None? {
        return None;
      }
      var audio := ParsePMT(r.sec.value);
      match audio
      case NoAudio => return None;
      case OtherOnly => return if haveAudio then None else Some(UnsupportedCodec);
      case AacAt(pid) =>
        audioPID := pid;
        haveAudio := true;
        return None;
    }

    /** Routes one packet by PID. */
    method HandlePacket(p: Packet) returns (err: Option<Error>)
      requires Valid()
      modifies this, framer
      ensures Valid() && (framer == old(framer) || fresh(framer))
      ensures Handled(View(), err) == Handle(old(View()), p)
    {
      hide Replay, Units, AscOf, AudioPayload, PatPayload, PmtPayload, Payload, Pid, Pusi, Continuity;
      hide TransportError, Scrambled, DiscontinuityIndicated;
      err := None;
      if TransportError(p) {
        return;
      }
      if Scrambled(p) {
        return Some(UnsupportedPlaylist);
      }
      var pid := Pid(p);
      if pid == NullPID {
        return;
      }
      if haveAudio && pid == audioPID && DiscontinuityIndicated(p) {
        ResetContinuity();
        haveCC := false;
      }
      var payload := Payload(p);
      if payload == None {
        return;
      }
      if pid == PatPID {
        HandlePAT(payload.value, Pusi(p));
      } else if havePMT && pid == pmtPID {
        err := HandlePMT(payload.value, Pusi(p));
      } else if haveAudio && pid == audioPID {
        HandleAudio(payload.value, Pusi(p), Continuity(p));
      }
    }

    /** Processes one whole segment. */
    method DemuxSegment(seg: seq<byte>, discontinuity: bool) returns (err: Option<Error>)
      requires Valid()
      modifies this, framer
      ensures Valid() && (framer == old(framer) || fresh(framer))
      ensures Handled(View(), err) == Demux(old(View()), seg, discontinuity)
    {
      hide Replay, Units, AscOf, Handle, Resync;
      if discontinuity {
        ResetDomain();
      }
      haveCC := false;
      var start := TsResync(seg);
      if start == None {
        return Some(MalformedSegment);
      }
      var off: nat := start.value;
      ghost var c1 := View();
      while off + PacketLen <= |seg|
        invariant Valid() && (framer == old(framer) || fresh(framer))
        invariant Segment(c1, seg, start.value) == Segment(View(), seg, off)
        decreases |seg| - off
      {
        var p := seg[off..off + PacketLen];
        if seg[off] != SyncByte {
          var r := TsResync(seg[off..]);
          if r == None {
            return None;
          }
          off := off + r.value;
          continue;
        }
        var e := HandlePacket(p);
        if e.Some? {
          return e;
        }
        off := off + PacketLen;
      }
      return None;
    }
  }

  lemma NoUnits()
    ensures Units([]) == []
  {
  }

  lemma UnitIs(e: F.Event)
    requires e.Delivered? && e.hdr.headerLen <= |e.frame|
    ensures UnitOf(e) == AU(e.frame[e.hdr.headerLen..], A.FrameDuration(e.hdr), e.hdr)
  {
  }

  /** The AudioSpecificConfig reported: that of the first unit ever delivered. */
  function AscOf(out: seq<AU>): Option<seq<byte>>
  {
    if out == [] then None else Some(A.AudioSpecificConfig(out[0].hdr))
  }

  lemma AscSnoc(out: seq<AU>, u: AU)
    ensures AscOf(out + [u]) == if out == [] then AscOf([u]) else AscOf(out)
  {
  }
}
