/**
 The MPEG-TS audio demultiplexer.  Its control state decides, packet by packet, what to do
 with the elementary-stream framer: feed it bytes, restart it, or count a loss.  `Actions`
 is that decision list; the framer's state is its replay.
 */
module TsDemux {
  import opened Bits
  import opened TsPacket

  datatype Error = MalformedSegment | UnsupportedCodec | UnsupportedPlaylist

  datatype Action = Feed(bytes: seq<byte>) | Restart | Loss

  /** Everything but the framer. */
  datatype Control = Control(
    pmtPID: Option<nat>, audioPID: Option<nat>, patSec: seq<byte>, pmtSec: seq<byte>,
    hdrSkip: nat, dropping: bool, cc: Option<nat>, acts: seq<Action>)

  const Fresh := Control(None, None, [], [], 0, false, None, [])

  /** PSI buffers can never hold a whole section of maximum size. */
  predicate Bounded(c: Control) { |c.patSec| < MaxSection && |c.pmtSec| < MaxSection }

  // ---- PES -----------------------------------------------------------------

  predicate StartCode(p: seq<byte>) { |p| >= 9 && p[0] == 0 && p[1] == 0 && p[2] == 1 }

  function FedBytes(c: Control, es: seq<byte>): Control
  {
    if es == [] then c else c.(acts := c.acts + [Feed(es)])
  }

  function Pes(c: Control, payload: seq<byte>, pusi: bool): (c': Control)
    ensures c'.(hdrSkip := c.hdrSkip, dropping := c.dropping, acts := c.acts) == c
  {
    if pusi then
      if !StartCode(payload) then c.(hdrSkip := 0, dropping := true)
      else
        var start := 9 + payload[8] as int;
        var c0 := c.(hdrSkip := 0, dropping := false);
        if start <= |payload| then FedBytes(c0, payload[start..]) else c0.(hdrSkip := start - |payload|)
    else if c.dropping then c
    else
      var skip := if c.hdrSkip < |payload| then c.hdrSkip else |payload|;
      FedBytes(c.(hdrSkip := c.hdrSkip - skip), payload[skip..])
  }

  // ---- one packet ----------------------------------------------------------

  function Restarted(c: Control): Control
  {
    c.(acts := c.acts + [Restart], hdrSkip := 0, dropping := false)
  }

  /** An audio packet's payload, after the continuity counter has been looked at. */
  function AudioPayload(c: Control, payload: seq<byte>, pusi: bool, cc: nat): Control
  {
    if c.cc == Some(cc) then c
    else
      var contiguous := c.cc.None? || cc == (c.cc.value + 1) % 16;
      var c1 := if contiguous then c else Restarted(c).(acts := c.acts + [Restart, Loss]);
      Pes(c1.(cc := Some(cc)), payload, pusi)
  }

  datatype Handled = Handled(control: Control, error: Option<Error>)

  function PatPayload(c: Control, payload: seq<byte>, pusi: bool): Control
  {
    var r := Assemble(c.patSec, payload, pusi);
    var pid := if r.sec.Some? then ProgramMapPid(r.sec.value) else None;
    c.(patSec := r.buf, pmtPID := if pid.Some? then pid else c.pmtPID)
  }

  function PmtPayload(c: Control, payload: seq<byte>, pusi: bool): Handled
  {
    var r := Assemble(c.pmtSec, payload, pusi);
    var c1 := c.(pmtSec := r.buf);
    match if r.sec.Some? then AudioOf(r.sec.value) else NoAudio
    case NoAudio => Handled(c1, None)
    case OtherOnly => Handled(c1, if c.audioPID.None? then Some(UnsupportedCodec) else None)
    case AacAt(pid) => Handled(c1.(audioPID := Some(pid)), None)
  }

  function Handle(c: Control, p: Packet): (h: Handled)
  {
    if TransportError(p) then Handled(c, None)
    else if Scrambled(p) then Handled(c, Some(UnsupportedPlaylist))
    else if Pid(p) == NullPID then Handled(c, None)
    else
      var c1 := if c.audioPID == Some(Pid(p)) && DiscontinuityIndicated(p) then Restarted(c).(cc := None) else c;
      var payload := Payload(p);
      if payload.None? then Handled(c1, None)
      else if Pid(p) == PatPID then Handled(PatPayload(c1, payload.value, Pusi(p)), None)
      else if c1.pmtPID == Some(Pid(p)) then PmtPayload(c1, payload.value, Pusi(p))
      else if c1.audioPID == Some(Pid(p)) then Handled(AudioPayload(c1, payload.value, Pusi(p), Continuity(p)), None)
      else Handled(c1, None)
  }

  /** Whatever a packet holds, the section buffers stay within their bound. */
  lemma HandleBounded(c: Control, p: Packet)
    requires Bounded(c)
    ensures Bounded(Handle(c, p).control)
  {
    hide AudioOf, ProgramMapPid, Payload, Complete, Assemble, Pes, Pid, Pusi, Continuity;
    hide TransportError, Scrambled, DiscontinuityIndicated;
  }

  // ---- one segment ---------------------------------------------------------

  /** The packets of a segment from offset `off`, realigning where the sync byte is lost. */
  function Segment(c: Control, seg: seq<byte>, off: nat): Handled
    decreases |seg| - off
  {
    if off + PacketLen > |seg| then Handled(c, None)
    else if seg[off] != SyncByte then
      var r := Resync(seg[off..], 0);
      if r.None? then Handled(c, None)
      else if r.value == 0 then assert false; Handled(c, None)
      else Segment(c, seg, off + r.value)
    else
      var h := Handle(c, seg[off..off + PacketLen]);
      if h.error.Some? then h else Segment(h.control, seg, off + PacketLen)
  }

  function DomainReset(c: Control): Control
  {
    Restarted(c).(patSec := [], pmtSec := [], pmtPID := None, audioPID := None, cc := None)
  }

  function Demux(c: Control, seg: seq<byte>, discontinuity: bool): Handled
  {
    var c1 := (if discontinuity then DomainReset(c) else c).(cc := None);
    var start := Resync(seg, 0);
    if start.None? then Handled(c1, Some(MalformedSegment)) else Segment(c1, seg, start.value)
  }

  lemma {:induction false} SegmentBounded(c: Control, seg: seq<byte>, off: nat)
    requires Bounded(c)
    ensures Bounded(Segment(c, seg, off).control)
    decreases |seg| - off
  {
    hide Handle;
    if off + PacketLen <= |seg| {
      if seg[off] != SyncByte {
        var r := Resync(seg[off..], 0);
        if r.Some? && r.value > 0 {
          SegmentBounded(c, seg, off + r.value);
        }
      } else {
        var p := seg[off..off + PacketLen];
        HandleBounded(c, p);
        if Handle(c, p).error.None? {
          SegmentBounded(Handle(c, p).control, seg, off + PacketLen);
        }
      }
    }
  }

  /** On any segments at all, the PSI buffers never exceed 4097 bytes. */
  lemma DemuxBounded(c: Control, seg: seq<byte>, discontinuity: bool)
    requires Bounded(c)
    ensures var c' := Demux(c, seg, discontinuity).control; |c'.patSec| <= 4097 && |c'.pmtSec| <= 4097
  {
    hide Segment;
    var c1 := (if discontinuity then DomainReset(c) else c).(cc := None);
    if Resync(seg, 0).Some? {
      SegmentBounded(c1, seg, Resync(seg, 0).value);
    }
  }

  // ---- muxing --------------------------------------------------------------

  /** An adaptation field: absent, or `len` bytes after its length byte, no discontinuity flagged. */
  datatype Adaptation = NoField | Field(bytes: seq<byte>)

  predicate ValidAdaptation(a: Adaptation)
  {
    a.Field? ==> |a.bytes| <= 182 && (a.bytes != [] ==> a.bytes[0] < 0x80)
  }

  /** Room left for payload. */
  function Room(a: Adaptation): nat
    requires ValidAdaptation(a)
  {
    if a.NoField? then 184 else 183 - |a.bytes|
  }

  /** A TS packet of the audio PID, with counter `cc`. */
  function AudioPacket(pid: nat, pusi: bool, cc: nat, a: Adaptation, payload: seq<byte>): (p: Packet)
    requires pid < 0x2000 && cc < 16 && ValidAdaptation(a) && |payload| == Room(a)
  {
    var b1 := (if pusi then 0x40 else 0) + pid / 256;
    match a
    case NoField => [SyncByte, b1, pid % 256, 0x10 + cc] + payload
    case Field(bytes) => [SyncByte, b1, pid % 256, 0x30 + cc, |bytes|] + bytes + payload
  }

  lemma AudioPacketFields(pid: nat, pusi: bool, cc: nat, a: Adaptation, payload: seq<byte>)
    requires pid < 0x2000 && cc < 16 && ValidAdaptation(a) && |payload| == Room(a)
    ensures var p := AudioPacket(pid, pusi, cc, a, payload);
            && p[0] == SyncByte && !TransportError(p) && !Scrambled(p) && !DiscontinuityIndicated(p)
            && Pid(p) == pid && Pusi(p) == pusi && Continuity(p) == cc && Payload(p) == Some(payload)
  {
    var p := AudioPacket(pid, pusi, cc, a, payload);
    match a
    case NoField =>
      assert p[4..] == payload;
    case Field(bytes) =>
      assert p[4] == |bytes|;
      assert p[5 + |bytes|..] == payload;
      if bytes != [] {
        assert p[5] == bytes[0];
      }
  }

  /** A PES packet: its header (with any header_data_length) and the elementary-stream bytes. */
  datatype PesPacket = PesPacket(streamInfo: seq<byte>, headerData: seq<byte>, es: seq<byte>)

  predicate ValidPes(q: PesPacket) { |q.streamInfo| == 5 && |q.headerData| <= 255 }

  function HeaderOf(q: PesPacket): (h: seq<byte>)
    requires ValidPes(q)
    ensures |h| == 9 + |q.headerData|
  {
    [0, 0, 1] + q.streamInfo + [|q.headerData|] + q.headerData
  }

  /** One TS packet's worth of a PES packet. */
  datatype Part = Part(pusi: bool, payload: seq<byte>)

  function PartBytes(parts: seq<Part>): seq<byte>
  {
    if parts == [] then [] else parts[0].payload + PartBytes(parts[1..])
  }

  /** `parts` carry `q`: the start flagged on the first alone. */
  predicate Carries(parts: seq<Part>, q: PesPacket)
  {
    && ValidPes(q) && parts != [] && parts[0].pusi
    && (forall i :: 0 < i < |parts| ==> !parts[i].pusi)
    && PartBytes(parts) == HeaderOf(q) + q.es
  }

  /** Does the first part hold the fixed nine bytes of the header? */
  predicate HeadFits(parts: seq<Part>)
  {
    parts != [] && |parts[0].payload| >= 9
  }

  function FedOf(acts: seq<Action>): seq<byte>
  {
    if acts == [] then [] else
      FedOf(acts[..|acts| - 1]) + (if acts[|acts| - 1].Feed? then acts[|acts| - 1].bytes else [])
  }

  /** `c'` differs from `c` only in having fed `es` more, and in what is pending. */
  predicate FedMore(c: Control, c': Control, es: seq<byte>)
  {
    && c.acts <= c'.acts
    && (forall i :: |c.acts| <= i < |c'.acts| ==> c'.acts[i].Feed? && c'.acts[i].bytes != [])
    && FedOf(c'.acts) == FedOf(c.acts) + es
    && SamePids(c, c')
  }

  predicate SamePids(c: Control, c': Control)
  {
    c'.pmtPID == c.pmtPID && c'.audioPID == c.audioPID
  }

  lemma FedOne(c: Control, c0: Control, es: seq<byte>)
    requires c0.acts == c.acts && SamePids(c, c0)
    ensures FedMore(c, FedBytes(c0, es), es)
  {
    if es == [] {
      assert FedOf(c.acts) + [] == FedOf(c.acts);
    } else {
      assert (c.acts + [Feed(es)])[..|c.acts|] == c.acts;
    }
  }

  lemma FedTrans(a: Control, b: Control, c: Control, x: seq<byte>, y: seq<byte>)
    requires FedMore(a, b, x) && FedMore(b, c, y)
    ensures FedMore(a, c, x + y)
  {
    assert FedOf(a.acts) + x + y == FedOf(a.acts) + (x + y);
    assert forall i :: |a.acts| <= i < |b.acts| ==> c.acts[i] == b.acts[i];
  }

  /** PES parts handled in turn, as if no packet layer were between. */
  function PesRun(c: Control, parts: seq<Part>): Control
    decreases |parts|
  {
    if parts == [] then c else PesRun(Pes(c, parts[0].payload, parts[0].pusi), parts[1..])
  }

  /** Continuation parts drop what is left of the header and feed the rest. */
  lemma {:induction false} ContinuationFeeds(c: Control, parts: seq<Part>)
    requires !c.dropping && c.hdrSkip <= |PartBytes(parts)|
    requires forall i :: 0 <= i < |parts| ==> !parts[i].pusi
    ensures var c' := PesRun(c, parts);
            FedMore(c, c', PartBytes(parts)[c.hdrSkip..]) && c'.hdrSkip == 0 && !c'.dropping
    decreases |parts|
  {
    hide FedMore, FedOf;
    if parts == [] {
      FedOne(c, c, []);
    } else {
      var p, rest := parts[0].payload, parts[1..];
      var skip := if c.hdrSkip < |p| then c.hdrSkip else |p|;
      var c1 := Pes(c, p, false);
      FedOne(c, c.(hdrSkip := c.hdrSkip - skip), p[skip..]);
      ContinuationFeeds(c1, rest);
      FedTrans(c, c1, PesRun(c1, rest), p[skip..], PartBytes(rest)[c1.hdrSkip..]);
      assert PartBytes(parts)[c.hdrSkip..] == p[skip..] + PartBytes(rest)[c1.hdrSkip..];
    }
  }

  /** A PES packet whose first part holds the fixed header feeds exactly its elementary-stream bytes. */
  lemma WholeHeadFeeds(c: Control, parts: seq<Part>, q: PesPacket)
    requires Carries(parts, q) && HeadFits(parts)
    ensures var c' := PesRun(c, parts); FedMore(c, c', q.es) && c'.hdrSkip == 0 && !c'.dropping
  {
    hide FedMore, FedOf;
    var h, p, rest := HeaderOf(q), parts[0].payload, parts[1..];
    assert PartBytes(parts) == p + PartBytes(rest) == h + q.es;
    assert forall i :: 0 <= i < 9 ==> p[i] == (p + PartBytes(rest))[i] == h[i];
    assert StartCode(p) && p[8] == |q.headerData|;
    var c1 := Pes(c, p, true);
    var c0 := c.(hdrSkip := 0, dropping := false);
    if |h| <= |p| {
      FedOne(c, c0, p[|h|..]);
      ContinuationFeeds(c1, rest);
      FedTrans(c, c1, PesRun(c1, rest), p[|h|..], PartBytes(rest)[0..]);
      assert (p + PartBytes(rest))[|h|..] == p[|h|..] + PartBytes(rest)[0..];
      assert (h + q.es)[|h|..] == q.es;
    } else {
      FedOne(c, c1, []);
      ContinuationFeeds(c1, rest);
      FedTrans(c, c1, PesRun(c1, rest), [], PartBytes(rest)[c1.hdrSkip..]);
      assert (p + PartBytes(rest))[|h|..] == [] + PartBytes(rest)[c1.hdrSkip..];
      assert (h + q.es)[|h|..] == q.es;
    }
  }

  lemma {:induction false} DroppedRun(c: Control, parts: seq<Part>)
    requires c.dropping && forall i :: 0 <= i < |parts| ==> !parts[i].pusi
    ensures PesRun(c, parts) == c
    decreases |parts|
  {
    if parts != [] {
      DroppedRun(c, parts[1..]);
    }
  }

  /** One whose first part is shorter is dropped whole, whatever it carries. */
  lemma SplitHeadFeedsNothing(c: Control, parts: seq<Part>)
    requires parts != [] && parts[0].pusi && !HeadFits(parts) && forall i :: 0 < i < |parts| ==> !parts[i].pusi
    ensures PesRun(c, parts) == c.(hdrSkip := 0, dropping := true)
  {
    DroppedRun(c.(hdrSkip := 0, dropping := true), parts[1..]);
  }

  /** The bytes a PES packet contributes, given how it was split. */
  function KeptEs(parts: seq<Part>, q: PesPacket): seq<byte>
  {
    if HeadFits(parts) then q.es else []
  }

  lemma FedOnce(c: Control, c': Control, x: seq<byte>, y: seq<byte>)
    requires FedMore(c, c', x)
    ensures FedMore(c, c', y) <==> x == y
  {
    if FedMore(c, c', y) {
      assert x == (FedOf(c.acts) + x)[|FedOf(c.acts)|..] == (FedOf(c.acts) + y)[|FedOf(c.acts)|..] == y;
    }
  }

  /**
   From any state the parts of one PES packet feed its elementary-stream bytes, or, when a large
   adaptation field split the fixed header, nothing: they feed exactly its bytes if and only if the
   first part holds nine bytes or there are none to feed.
   */
  lemma PesFeeds(c: Control, parts: seq<Part>, q: PesPacket)
    requires Carries(parts, q)
    ensures FedMore(c, PesRun(c, parts), KeptEs(parts, q))
    ensures FedMore(c, PesRun(c, parts), q.es) <==> HeadFits(parts) || q.es == []
  {
    hide FedMore, FedOf, PesRun;
    if HeadFits(parts) {
      WholeHeadFeeds(c, parts, q);
    } else {
      SplitHeadFeedsNothing(c, parts);
      FedOne(c, PesRun(c, parts), []);
    }
    FedOnce(c, PesRun(c, parts), KeptEs(parts, q), q.es);
  }

  // ---- streams of packets --------------------------------------------------

  /**
   What a sender puts on the wire: a part of audio, perhaps sent twice, a packet of the PAT or the
   program map, or one that concerns nobody.
   */
  datatype Slot =
    | AudioSlot(part: Part, adaptation: Adaptation, twice: bool)
    | PsiSlot(packet: Packet)
    | ForeignSlot(packet: Packet)

  /** A packet of another PID, or an audio packet without payload. */
  predicate Foreign(p: Packet, pmtPID: nat, audioPID: nat)
  {
    && p[0] == SyncByte && !Scrambled(p) && Pid(p) != PatPID && Pid(p) != pmtPID
    && (Pid(p) == audioPID ==> Payload(p).None? && !DiscontinuityIndicated(p))
  }

  predicate Announces(p: Packet, pmtPID: nat, audioPID: nat)
  {
    && p[0] == SyncByte && !TransportError(p) && !Scrambled(p)
    && (Pid(p) == PatPID || Pid(p) == pmtPID) && Pid(p) != audioPID
  }

  predicate ValidSlot(s: Slot, pmtPID: nat, audioPID: nat)
  {
    match s
    case AudioSlot(part, a, _) => ValidAdaptation(a) && |part.payload| == Room(a)
    case PsiSlot(p) => Announces(p, pmtPID, audioPID)
    case ForeignSlot(p) => Foreign(p, pmtPID, audioPID)
  }

  /** The sections being assembled. */
  datatype Sections = Sections(pat: seq<byte>, pmt: seq<byte>)

  function SectionsOf(c: Control): Sections { Sections(c.patSec, c.pmtSec) }

  /** The sections in progress behind one PSI packet. */
  function NextSections(b: Sections, p: Packet): Sections
  {
    if Pid(p) == NullPID || Payload(p).None? then b
    else if Pid(p) == PatPID then b.(pat := Assemble(b.pat, Payload(p).value, Pusi(p)).buf)
    else b.(pmt := Assemble(b.pmt, Payload(p).value, Pusi(p)).buf)
  }

  /** A section this packet completes names the PIDs already known, or none. */
  predicate SamePrograms(b: Sections, p: Packet, pmtPID: nat, audioPID: nat)
  {
    Payload(p).Some? ==>
      if Pid(p) == PatPID then
        var sec := Assemble(b.pat, Payload(p).value, Pusi(p)).sec;
        sec.Some? ==> ProgramMapPid(sec.value) == None || ProgramMapPid(sec.value) == Some(pmtPID)
      else
        var sec := Assemble(b.pmt, Payload(p).value, Pusi(p)).sec;
        sec.Some? && AudioOf(sec.value).AacAt? ==> AudioOf(sec.value) == AacAt(audioPID)
  }

  /** The sections in progress behind a slot list. */
  function SectionsAfter(b: Sections, slots: seq<Slot>): Sections
    decreases |slots|
  {
    if slots == [] then b
    else SectionsAfter(if slots[0].PsiSlot? then NextSections(b, slots[0].packet) else b, slots[1..])
  }

  /** Every section the slots complete, in one packet or in several, announces the same program. */
  predicate Restated(b: Sections, slots: seq<Slot>, pmtPID: nat, audioPID: nat)
    decreases |slots|
  {
    slots == [] ||
    (if slots[0].PsiSlot? then
       && SamePrograms(b, slots[0].packet, pmtPID, audioPID)
       && Restated(NextSections(b, slots[0].packet), slots[1..], pmtPID, audioPID)
     else Restated(b, slots[1..], pmtPID, audioPID))
  }

  /** The packets of a slot list, the audio packets numbered from `cc`. */
  function Packets(slots: seq<Slot>, pmtPID: nat, audioPID: nat, cc: nat): seq<Packet>
    requires audioPID < 0x2000 && cc < 16
    requires forall i :: 0 <= i < |slots| ==> ValidSlot(slots[i], pmtPID, audioPID)
    decreases |slots|
  {
    if slots == [] then [] else
      assert ValidSlot(slots[0], pmtPID, audioPID);
      match slots[0]
      case ForeignSlot(p) => [p] + Packets(slots[1..], pmtPID, audioPID, cc)
      case PsiSlot(p) => [p] + Packets(slots[1..], pmtPID, audioPID, cc)
      case AudioSlot(part, a, twice) =>
        var p := AudioPacket(audioPID, part.pusi, cc, a, part.payload);
        (if twice then [p, p] else [p]) + Packets(slots[1..], pmtPID, audioPID, (cc + 1) % 16)
  }

  function PartsOf(slots: seq<Slot>): seq<Part>
  {
    if slots == [] then []
    else (if slots[0].AudioSlot? then [slots[0].part] else []) + PartsOf(slots[1..])
  }

  function Run(c: Control, ps: seq<Packet>): Handled
    decreases |ps|
  {
    if ps == [] then Handled(c, None) else
      var h := Handle(c, ps[0]);
      if h.error.Some? then h else Run(h.control, ps[1..])
  }

  /** Acquired: the two PIDs are known, distinct, and neither is the PAT or the null PID. */
  predicate Acquired(c: Control, pmtPID: nat, audioPID: nat)
  {
    && c.pmtPID == Some(pmtPID) && c.audioPID == Some(audioPID) && pmtPID != audioPID
    && audioPID != PatPID && audioPID < NullPID
  }

  lemma HandleForeign(c: Control, p: Packet, pmtPID: nat, audioPID: nat)
    requires Acquired(c, pmtPID, audioPID) && Foreign(p, pmtPID, audioPID)
    ensures Handle(c, p) == Handled(c, None)
  {
    hide Payload;
  }

  /** A packet that announces nothing new only moves its section on. */
  lemma HandlePsi(c: Control, p: Packet, pmtPID: nat, audioPID: nat)
    requires Acquired(c, pmtPID, audioPID) && Announces(p, pmtPID, audioPID)
    requires SamePrograms(SectionsOf(c), p, pmtPID, audioPID)
    ensures var b := NextSections(SectionsOf(c), p);
            Handle(c, p) == Handled(c.(patSec := b.pat, pmtSec := b.pmt), None)
  {
    hide Payload, Assemble, ProgramMapPid, AudioOf, TransportError, Scrambled, DiscontinuityIndicated, Pid, Pusi;
  }

  lemma HandleAudio(c: Control, part: Part, a: Adaptation, cc: nat, pmtPID: nat, audioPID: nat)
    requires Acquired(c, pmtPID, audioPID) && cc < 16 && ValidAdaptation(a) && |part.payload| == Room(a)
    requires c.cc.None? || cc == (c.cc.value + 1) % 16
    requires c.cc.Some? ==> c.cc.value < 16
    ensures var p := AudioPacket(audioPID, part.pusi, cc, a, part.payload);
            var c' := Pes(c.(cc := Some(cc)), part.payload, part.pusi);
            Handle(c, p) == Handled(c', None) && Handle(c', p) == Handled(c', None)
  {
    hide Payload, Pes, TransportError, Scrambled, DiscontinuityIndicated, Pid, Pusi, Continuity, AudioPacket;
    AudioPacketFields(audioPID, part.pusi, cc, a, part.payload);
  }

  /** Control with another counter and other sections in progress. */
  function With(c: Control, cc: Option<nat>, b: Sections): Control
  {
    c.(cc := cc, patSec := b.pat, pmtSec := b.pmt)
  }

  lemma {:induction false} PesIgnoresRest(c: Control, parts: seq<Part>, cc: Option<nat>, b: Sections)
    ensures PesRun(With(c, cc, b), parts) == With(PesRun(c, parts), cc, b)
    decreases |parts|
  {
    if parts != [] {
      var p := parts[0];
      assert Pes(With(c, cc, b), p.payload, p.pusi) == With(Pes(c, p.payload, p.pusi), cc, b);
      hide Pes;
      PesIgnoresRest(Pes(c, p.payload, p.pusi), parts[1..], cc, b);
    }
  }

  /**
   Duplicates, foreign packets and repeated announcements are invisible: the packets act as the bare
   PES parts, on the section buffers apart.
   */
  lemma {:induction false} RunIsPesRun(c: Control, slots: seq<Slot>, cc: nat, pmtPID: nat, audioPID: nat)
    returns (last: Option<nat>)
    requires Acquired(c, pmtPID, audioPID) && cc < 16 && (c.cc.Some? ==> c.cc.value < 16)
    requires c.cc.None? || cc == (c.cc.value + 1) % 16
    requires forall i :: 0 <= i < |slots| ==> ValidSlot(slots[i], pmtPID, audioPID)
    requires Restated(SectionsOf(c), slots, pmtPID, audioPID)
    ensures Run(c, Packets(slots, pmtPID, audioPID, cc))
            == Handled(With(PesRun(c, PartsOf(slots)), last, SectionsAfter(SectionsOf(c), slots)), None)
    decreases |slots|
  {
    last := c.cc;
    if slots != [] {
      hide Restated, SectionsAfter, Packets, PartsOf, PesRun, ValidSlot, Run, With;
      var d, next := NextSlot(c, slots, cc, pmtPID, audioPID);
      last := RunIsPesRun(d, slots[1..], next, pmtPID, audioPID);
    }
  }

  /** One slot: what is left to run, and to what the rest adds up. */
  lemma NextSlot(c: Control, slots: seq<Slot>, cc: nat, pmtPID: nat, audioPID: nat) returns (d: Control, next: nat)
    requires Acquired(c, pmtPID, audioPID) && cc < 16 && (c.cc.Some? ==> c.cc.value < 16)
    requires c.cc.None? || cc == (c.cc.value + 1) % 16
    requires forall i :: 0 <= i < |slots| ==> ValidSlot(slots[i], pmtPID, audioPID)
    requires slots != [] && Restated(SectionsOf(c), slots, pmtPID, audioPID)
    ensures Acquired(d, pmtPID, audioPID) && next < 16 && (d.cc.Some? ==> d.cc.value < 16)
    ensures d.cc.None? || next == (d.cc.value + 1) % 16
    ensures Restated(SectionsOf(d), slots[1..], pmtPID, audioPID)
    ensures Run(c, Packets(slots, pmtPID, audioPID, cc)) == Run(d, Packets(slots[1..], pmtPID, audioPID, next))
    ensures SectionsAfter(SectionsOf(d), slots[1..]) == SectionsAfter(SectionsOf(c), slots)
    ensures forall last: Option<nat>, b: Sections ::
              With(PesRun(d, PartsOf(slots[1..])), last, b) == With(PesRun(c, PartsOf(slots)), last, b)
  {
    hide Packets, PesRun, Run, ValidSlot, NextSections, SamePrograms, PartsOf;
    match slots[0]
    case ForeignSlot(p) =>
      ForeignStep(c, slots, cc, pmtPID, audioPID);
      d, next := c, cc;
    case PsiSlot(p) =>
      PsiStep(c, slots, cc, pmtPID, audioPID);
      d, next := With(c, c.cc, NextSections(SectionsOf(c), p)), cc;
      PesIgnoresRest(c, PartsOf(slots), c.cc, SectionsOf(d));
    case AudioSlot(part, a, twice) =>
      hide Pes;
      AudioStep(c, slots, cc, pmtPID, audioPID);
      d, next := Pes(c.(cc := Some(cc)), part.payload, part.pusi), (cc + 1) % 16;
  }

  lemma ForeignStep(c: Control, slots: seq<Slot>, cc: nat, pmtPID: nat, audioPID: nat)
    requires Acquired(c, pmtPID, audioPID) && cc < 16 && slots != [] && slots[0].ForeignSlot?
    requires forall i :: 0 <= i < |slots| ==> ValidSlot(slots[i], pmtPID, audioPID)
    ensures Run(c, Packets(slots, pmtPID, audioPID, cc)) == Run(c, Packets(slots[1..], pmtPID, audioPID, cc))
    ensures PartsOf(slots) == PartsOf(slots[1..])
  {
    hide Handle, AudioPacket, Foreign;
    assert ValidSlot(slots[0], pmtPID, audioPID);
    HandleForeign(c, slots[0].packet, pmtPID, audioPID);
    assert Packets(slots, pmtPID, audioPID, cc)[1..] == Packets(slots[1..], pmtPID, audioPID, cc);
  }

  lemma PsiStep(c: Control, slots: seq<Slot>, cc: nat, pmtPID: nat, audioPID: nat)
    requires Acquired(c, pmtPID, audioPID) && cc < 16 && slots != [] && slots[0].PsiSlot?
    requires forall i :: 0 <= i < |slots| ==> ValidSlot(slots[i], pmtPID, audioPID)
    requires SamePrograms(SectionsOf(c), slots[0].packet, pmtPID, audioPID)
    ensures var d := With(c, c.cc, NextSections(SectionsOf(c), slots[0].packet));
            Run(c, Packets(slots, pmtPID, audioPID, cc)) == Run(d, Packets(slots[1..], pmtPID, audioPID, cc))
    ensures PartsOf(slots) == PartsOf(slots[1..])
  {
    hide Handle, AudioPacket, Announces, NextSections, SamePrograms;
    assert ValidSlot(slots[0], pmtPID, audioPID);
    HandlePsi(c, slots[0].packet, pmtPID, audioPID);
    assert Packets(slots, pmtPID, audioPID, cc)[1..] == Packets(slots[1..], pmtPID, audioPID, cc);
  }

  /** One audio packet, sent once or twice, is one PES part. */
  lemma AudioStep(c: Control, slots: seq<Slot>, cc: nat, pmtPID: nat, audioPID: nat)
    requires Acquired(c, pmtPID, audioPID) && cc < 16 && (c.cc.Some? ==> c.cc.value < 16)
    requires c.cc.None? || cc == (c.cc.value + 1) % 16
    requires forall i :: 0 <= i < |slots| ==> ValidSlot(slots[i], pmtPID, audioPID)
    requires slots != [] && slots[0].AudioSlot?
    ensures var part := slots[0].part; var c1 := Pes(c.(cc := Some(cc)), part.payload, part.pusi);
            && Acquired(c1, pmtPID, audioPID) && c1.cc == Some(cc) && SectionsOf(c1) == SectionsOf(c)
            && Run(c, Packets(slots, pmtPID, audioPID, cc))
            == Run(c1, Packets(slots[1..], pmtPID, audioPID, (cc + 1) % 16))
            && forall last: Option<nat>, b: Sections :: With(PesRun(c1, PartsOf(slots[1..])), last, b)
                                                        == With(PesRun(c, PartsOf(slots)), last, b)
  {
    hide Pes, Handle, AudioPacket;
    var ps := Packets(slots, pmtPID, audioPID, cc);
    assert ValidSlot(slots[0], pmtPID, audioPID);
    var part, a := slots[0].part, slots[0].adaptation;
    HandleAudio(c, part, a, cc, pmtPID, audioPID);
    var c1 := Pes(c.(cc := Some(cc)), part.payload, part.pusi);
    PesKeepsPids(c.(cc := Some(cc)), part.payload, part.pusi);
    var later := Packets(slots[1..], pmtPID, audioPID, (cc + 1) % 16);
    if slots[0].twice {
      assert ps[1..][1..] == later && ps[1..][0] == ps[0];
    } else {
      assert ps[1..] == later;
    }
    PesIgnoresRest(c, [part] + PartsOf(slots[1..]), Some(cc), SectionsOf(c));
    assert PartsOf(slots) == [part] + PartsOf(slots[1..]);
    assert ([part] + PartsOf(slots[1..]))[1..] == PartsOf(slots[1..]);
    assert c.(cc := Some(cc)) == With(c, Some(cc), SectionsOf(c));
    assert PesRun(c.(cc := Some(cc)), PartsOf(slots)) == PesRun(c1, PartsOf(slots[1..]));
  }

  lemma PesKeepsPids(c: Control, payload: seq<byte>, pusi: bool)
    ensures var d := Pes(c, payload, pusi);
            && d.pmtPID == c.pmtPID && d.audioPID == c.audioPID && d.cc == c.cc && SectionsOf(d) == SectionsOf(c)
  {
  }

  // ---- segments of whole packets -------------------------------------------

  function Bytes(ps: seq<Packet>): (r: seq<byte>)
    ensures |r| == PacketLen * |ps|
  {
    if ps == [] then [] else ps[0] + Bytes(ps[1..])
  }

  /** An aligned segment is handled packet by packet. */
  lemma {:induction false} SegmentIsRun(c: Control, pre: seq<byte>, ps: seq<Packet>)
    requires forall i :: 0 <= i < |ps| ==> ps[i][0] == SyncByte
    ensures Segment(c, pre + Bytes(ps), |pre|) == Run(c, ps)
    decreases |ps|
  {
    hide Handle;
    var seg := pre + Bytes(ps);
    if ps == [] {
    } else {
      assert seg == (pre + ps[0]) + Bytes(ps[1..]);
      assert seg[|pre|..|pre| + PacketLen] == ps[0];
      assert seg[|pre|] == ps[0][0];
      SegmentIsRun(Handle(c, ps[0]).control, pre + ps[0], ps[1..]);
    }
  }

  lemma AlignedStart(ps: seq<Packet>)
    requires ps != [] && forall i :: 0 <= i < |ps| ==> ps[i][0] == SyncByte
    ensures Resync(Bytes(ps), 0) == Some(0)
  {
    var b := Bytes(ps);
    assert b[0] == ps[0][0];
    if |ps| > 1 {
      assert Bytes(ps[1..]) == ps[1] + Bytes(ps[2..]) by { assert ps[1..][1..] == ps[2..]; }
      assert b[PacketLen] == ps[1][0];
    }
    assert SyncAt(b, 0);
  }

  // ---- demuxing undoes muxing ----------------------------------------------

  function EsOf(qs: seq<PesPacket>): seq<byte>
  {
    if qs == [] then [] else qs[0].es + EsOf(qs[1..])
  }

  /** The parts of several PES packets, one after the other. */
  function AllParts(cut: seq<seq<Part>>): seq<Part>
  {
    if cut == [] then [] else cut[0] + AllParts(cut[1..])
  }

  lemma {:induction false} PesRunConcat(c: Control, a: seq<Part>, b: seq<Part>)
    ensures PesRun(c, a + b) == PesRun(PesRun(c, a), b)
    decreases |a|
  {
    hide Pes;
    if a == [] {
      assert a + b == b;
    } else {
      assert (a + b)[1..] == a[1..] + b;
      PesRunConcat(Pes(c, a[0].payload, a[0].pusi), a[1..], b);
    }
  }

  /** The bytes of the PES packets whose first part holds the fixed header. */
  function KeptOf(cut: seq<seq<Part>>, qs: seq<PesPacket>): seq<byte>
    requires |cut| == |qs|
  {
    if qs == [] then [] else KeptEs(cut[0], qs[0]) + KeptOf(cut[1..], qs[1..])
  }

  /** Nothing is lost exactly when every PES packet with bytes to feed has its fixed header in one part. */
  lemma {:induction false} AllKeptExactly(cut: seq<seq<Part>>, qs: seq<PesPacket>)
    requires |cut| == |qs|
    ensures |KeptOf(cut, qs)| <= |EsOf(qs)|
    ensures KeptOf(cut, qs) == EsOf(qs) <==> forall i :: 0 <= i < |qs| ==> HeadFits(cut[i]) || qs[i].es == []
    decreases |qs|
  {
    hide HeadFits;
    if qs != [] {
      AllKeptExactly(cut[1..], qs[1..]);
      if HeadFits(cut[0]) || qs[0].es == [] {
        var x, y, z := qs[0].es, KeptOf(cut[1..], qs[1..]), EsOf(qs[1..]);
        assert (x + y)[|x|..] == y && (x + z)[|x|..] == z;
        assert forall i :: 0 < i < |qs| ==> cut[i] == cut[1..][i - 1] && qs[i] == qs[1..][i - 1];
      }
    }
  }

  lemma {:induction false} StreamFeeds(c: Control, qs: seq<PesPacket>, cut: seq<seq<Part>>)
    requires |cut| == |qs| && forall i :: 0 <= i < |qs| ==> Carries(cut[i], qs[i])
    ensures FedMore(c, PesRun(c, AllParts(cut)), KeptOf(cut, qs))
    decreases |qs|
  {
    hide FedMore, FedOf, Carries, PesRun, KeptEs;
    if qs == [] {
      FedOne(c, c, []);
      assert PesRun(c, []) == c by { EmptyPesRun(c); }
    } else {
      PesFeeds(c, cut[0], qs[0]);
      var c1 := PesRun(c, cut[0]);
      StreamFeeds(c1, qs[1..], cut[1..]);
      PesRunConcat(c, cut[0], AllParts(cut[1..]));
      FedTrans(c, c1, PesRun(c1, AllParts(cut[1..])), KeptEs(cut[0], qs[0]), KeptOf(cut[1..], qs[1..]));
    }
  }

  lemma EmptyPesRun(c: Control)
    ensures PesRun(c, []) == c
  {
  }

  // ---- whole programmes ----------------------------------------------------

  /** One segment as sent: its slots, and the counter of its first audio packet. */
  datatype Sent = Sent(slots: seq<Slot>, cc: nat)

  predicate ValidSent(t: Sent, pmtPID: nat, audioPID: nat)
  {
    t.cc < 16 && t.slots != [] && forall i :: 0 <= i < |t.slots| ==> ValidSlot(t.slots[i], pmtPID, audioPID)
  }

  function SegmentOf(t: Sent, pmtPID: nat, audioPID: nat): seq<byte>
    requires ValidSent(t, pmtPID, audioPID) && audioPID < 0x2000
  {
    Bytes(Packets(t.slots, pmtPID, audioPID, t.cc))
  }

  /** Segments demultiplexed one after the other, none of them marked discontinuous. */
  function DemuxAll(c: Control, segs: seq<seq<byte>>): Handled
    decreases |segs|
  {
    if segs == [] then Handled(c, None) else
      var h := Demux(c, segs[0], false);
      if h.error.Some? then h else DemuxAll(h.control, segs[1..])
  }

  function Segments(ts: seq<Sent>, pmtPID: nat, audioPID: nat): seq<seq<byte>>
    requires audioPID < 0x2000 && forall i :: 0 <= i < |ts| ==> ValidSent(ts[i], pmtPID, audioPID)
  {
    seq(|ts|, i requires 0 <= i < |ts| => SegmentOf(ts[i], pmtPID, audioPID))
  }

  /** The PES parts of all segments: a PES packet may run on from one segment into the next. */
  function SentParts(ts: seq<Sent>): seq<Part>
  {
    if ts == [] then [] else PartsOf(ts[0].slots) + SentParts(ts[1..])
  }

  predicate AllRestated(b: Sections, ts: seq<Sent>, pmtPID: nat, audioPID: nat)
    decreases |ts|
  {
    ts == [] ||
    (Restated(b, ts[0].slots, pmtPID, audioPID)
     && AllRestated(SectionsAfter(b, ts[0].slots), ts[1..], pmtPID, audioPID))
  }

  /** One segment acts as its PES parts. */
  lemma SegmentIsPesRun(c: Control, t: Sent, pmtPID: nat, audioPID: nat) returns (last: Option<nat>)
    requires Acquired(c, pmtPID, audioPID) && ValidSent(t, pmtPID, audioPID)
    requires Restated(SectionsOf(c), t.slots, pmtPID, audioPID)
    ensures Demux(c, SegmentOf(t, pmtPID, audioPID), false)
            == Handled(With(PesRun(c, PartsOf(t.slots)), last, SectionsAfter(SectionsOf(c), t.slots)), None)
  {
    hide Segment, Run, PesRun, Packets, Resync, Restated, SectionsAfter;
    var ps := Packets(t.slots, pmtPID, audioPID, t.cc);
    var c0 := c.(cc := None);
    PacketsSynced(t.slots, pmtPID, audioPID, t.cc);
    AlignedStart(ps);
    SegmentIsRun(c0, [], ps);
    assert [] + Bytes(ps) == Bytes(ps);
    assert c0 == With(c, None, SectionsOf(c));
    last := RunIsPesRun(c0, t.slots, t.cc, pmtPID, audioPID);
    PesIgnoresRest(c, PartsOf(t.slots), None, SectionsOf(c));
  }

  lemma {:induction false} SegmentsArePesRun(c: Control, ts: seq<Sent>, pmtPID: nat, audioPID: nat)
    returns (last: Option<nat>, b: Sections)
    requires Acquired(c, pmtPID, audioPID) && forall i :: 0 <= i < |ts| ==> ValidSent(ts[i], pmtPID, audioPID)
    requires AllRestated(SectionsOf(c), ts, pmtPID, audioPID)
    ensures DemuxAll(c, Segments(ts, pmtPID, audioPID)) == Handled(With(PesRun(c, SentParts(ts)), last, b), None)
    decreases |ts|
  {
    if ts == [] {
      last, b := c.cc, SectionsOf(c);
    } else {
      hide Demux, PesRun, Restated, SectionsAfter, SegmentOf, ValidSent, PartsOf;
      var segs := Segments(ts, pmtPID, audioPID);
      assert segs[0] == SegmentOf(ts[0], pmtPID, audioPID) && segs[1..] == Segments(ts[1..], pmtPID, audioPID);
      var first := SegmentIsPesRun(c, ts[0], pmtPID, audioPID);
      var sections := SectionsAfter(SectionsOf(c), ts[0].slots);
      var mid := PesRun(c, PartsOf(ts[0].slots));
      RunKeepsPids(c, PartsOf(ts[0].slots));
      var d := With(mid, first, sections);
      last, b := SegmentsArePesRun(d, ts[1..], pmtPID, audioPID);
      PesIgnoresRest(mid, SentParts(ts[1..]), first, sections);
      PesRunConcat(c, PartsOf(ts[0].slots), SentParts(ts[1..]));
    }
  }

  lemma {:induction false} RunKeepsPids(c: Control, parts: seq<Part>)
    ensures SamePids(c, PesRun(c, parts))
    decreases |parts|
  {
    if parts != [] {
      PesKeepsPids(c, parts[0].payload, parts[0].pusi);
      hide Pes;
      RunKeepsPids(Pes(c, parts[0].payload, parts[0].pusi), parts[1..]);
    }
  }

  /**
   The inversion theorem: with the PIDs acquired, segments carrying any PES packets, cut into TS
   packets anywhere (any header_data_length, headers running past the first packet or the segment, any
   adaptation fields), each packet possibly repeated and interleaved with foreign ones and with
   announcements of the same program, feed the framer, without a restart or a loss, the elementary
   stream; all of it exactly when no PES packet with bytes to feed starts in a TS packet with room for
   fewer than nine.
   */
  lemma DemuxInvertsMux(
    c: Control, pmtPID: nat, audioPID: nat, qs: seq<PesPacket>, cut: seq<seq<Part>>, ts: seq<Sent>)
    requires Acquired(c, pmtPID, audioPID) && forall i :: 0 <= i < |ts| ==> ValidSent(ts[i], pmtPID, audioPID)
    requires AllRestated(SectionsOf(c), ts, pmtPID, audioPID)
    requires |cut| == |qs| && forall i :: 0 <= i < |qs| ==> Carries(cut[i], qs[i])
    requires SentParts(ts) == AllParts(cut)
    ensures var h := DemuxAll(c, Segments(ts, pmtPID, audioPID));
            && h.error == None && FedMore(c, h.control, KeptOf(cut, qs))
            && (FedMore(c, h.control, EsOf(qs)) <==>
                  forall i :: 0 <= i < |qs| ==> HeadFits(cut[i]) || qs[i].es == [])
  {
    hide PesRun, FedMore, FedOf, Carries, KeptOf, HeadFits, Segments, AllRestated, ValidSent, DemuxAll;
    var last, b := SegmentsArePesRun(c, ts, pmtPID, audioPID);
    StreamFeeds(c, qs, cut);
    var c1 := PesRun(c, AllParts(cut));
    FedIgnoresRest(c, c1, KeptOf(cut, qs), last, b);
    FedOnce(c, With(c1, last, b), KeptOf(cut, qs), EsOf(qs));
    AllKeptExactly(cut, qs);
  }

  lemma FedIgnoresRest(c: Control, c1: Control, es: seq<byte>, last: Option<nat>, b: Sections)
    requires FedMore(c, c1, es)
    ensures FedMore(c, With(c1, last, b), es)
  {
  }

  lemma {:induction false} PacketsSynced(slots: seq<Slot>, pmtPID: nat, audioPID: nat, cc: nat)
    requires audioPID < 0x2000 && cc < 16
    requires forall i :: 0 <= i < |slots| ==> ValidSlot(slots[i], pmtPID, audioPID)
    ensures var ps := Packets(slots, pmtPID, audioPID, cc);
            (slots != [] ==> ps != []) && forall i :: 0 <= i < |ps| ==> ps[i][0] == SyncByte
    decreases |slots|
  {
    hide Payload;
    if slots != [] {
      assert ValidSlot(slots[0], pmtPID, audioPID);
      PacketsSynced(slots[1..], pmtPID, audioPID, if slots[0].AudioSlot? then (cc + 1) % 16 else cc);
    }
  }

  // ---- acquiring the program -----------------------------------------------

  /** A section in a packet of its own: pointer field 0, stuffing behind. */
  function PsiPacket(pid: nat, section: seq<byte>): (p: Packet)
    requires pid < 0x2000 && |section| <= 183
  {
    [SyncByte, 0x40 + pid / 256, pid % 256, 0x10, 0] + section + seq(183 - |section|, _ => 0xFF)
  }

  /** What a sender is free to choose in its tables. */
  datatype Tables = Tables(stream: (byte, byte), program: nat, clockPID: nat, patCrc: seq<byte>, pmtCrc: seq<byte>)

  predicate ValidTables(t: Tables)
  {
    0 < t.program < 65536 && t.clockPID < 0x2000 && |t.patCrc| == 4 && |t.pmtCrc| == 4
  }

  /** A program association section with one program. */
  function PatSection(t: Tables, pmtPID: nat): (s: seq<byte>)
    requires ValidTables(t) && pmtPID < 0x2000
    ensures |s| == 16
  {
    [0x00, 0xB0, 13, t.stream.0, t.stream.1, 0xC1, 0, 0,
     t.program / 256, t.program % 256, 0xE0 + pmtPID / 256, pmtPID % 256] + t.patCrc
  }

  /** A program map section with one AAC stream. */
  function PmtSection(t: Tables, audioPID: nat): (s: seq<byte>)
    requires ValidTables(t) && audioPID < 0x2000
    ensures |s| == 21
  {
    [0x02, 0xB0, 18, t.program / 256, t.program % 256, 0xC1, 0, 0,
     0xE0 + t.clockPID / 256, t.clockPID % 256, 0xF0, 0,
     StreamTypeAAC, 0xE0 + audioPID / 256, audioPID % 256, 0xF0, 0] + t.pmtCrc
  }

  lemma PatReadsBack(t: Tables, pmtPID: nat)
    requires ValidTables(t) && pmtPID < 0x2000
    ensures ProgramMapPid(PatSection(t, pmtPID)) == Some(pmtPID)
  {
    var s := PatSection(t, pmtPID);
    assert s[8..12] == [t.program / 256, t.program % 256, 0xE0 + pmtPID / 256, pmtPID % 256];
  }

  lemma PmtReadsBack(t: Tables, audioPID: nat)
    requires ValidTables(t) && audioPID < 0x2000
    ensures AudioOf(PmtSection(t, audioPID)) == AacAt(audioPID)
  {
    var s := PmtSection(t, audioPID);
    assert s[8..17] == [0xE0 + t.clockPID / 256, t.clockPID % 256, 0xF0, 0,
                        StreamTypeAAC, 0xE0 + audioPID / 256, audioPID % 256, 0xF0, 0];
  }

  lemma PsiPacketFields(pid: nat, section: seq<byte>)
    requires pid < 0x2000 && |section| <= 183
    ensures var p := PsiPacket(pid, section);
            && p[0] == SyncByte && !TransportError(p) && !Scrambled(p) && !DiscontinuityIndicated(p) && Pusi(p)
            && Pid(p) == pid && Payload(p) == Some([0] + section + seq(183 - |section|, _ => 0xFF))
  {
    var p := PsiPacket(pid, section);
    assert p[4..] == [0] + section + seq(183 - |section|, _ => 0xFF);
  }

  /** A section that fills its declared length is assembled from its one packet. */
  lemma SectionAssembled(buf: seq<byte>, section: seq<byte>, stuffing: seq<byte>)
    requires 3 <= |section| == 3 + Length12(section[1], section[2])
    ensures Assemble(buf, [0] + section + stuffing, true) == Psi([], Some(section))
  {
    var payload := [0] + section + stuffing;
    assert payload[0] == 0 && payload[1..] == section + stuffing;
    assert (section + stuffing)[..|section|] == section;
  }

  function PatPacket(t: Tables, pmtPID: nat): Packet
    requires ValidTables(t) && pmtPID < 0x2000
  {
    PsiPacket(PatPID, PatSection(t, pmtPID))
  }

  function PmtPacket(t: Tables, pmtPID: nat, audioPID: nat): Packet
    requires ValidTables(t) && pmtPID < 0x2000 && audioPID < 0x2000
  {
    PsiPacket(pmtPID, PmtSection(t, audioPID))
  }

  function Announced(c: Control, pmtPID: nat, audioPID: nat): Control
  {
    c.(pmtPID := Some(pmtPID), audioPID := Some(audioPID), patSec := [], pmtSec := [])
  }

  /** The two tables acquire the program, whatever was known before. */
  lemma Acquires(c: Control, t: Tables, pmtPID: nat, audioPID: nat)
    requires ValidTables(t) && 0 < pmtPID < NullPID && 0 < audioPID < NullPID && pmtPID != audioPID
    ensures var c1 := c.(pmtPID := Some(pmtPID), patSec := []);
            && Handle(c, PatPacket(t, pmtPID)) == Handled(c1, None)
            && Handle(c1, PmtPacket(t, pmtPID, audioPID)) == Handled(Announced(c, pmtPID, audioPID), None)
    ensures Acquired(Announced(c, pmtPID, audioPID), pmtPID, audioPID)
  {
    hide Payload, Assemble, ProgramMapPid, AudioOf, TransportError, Scrambled, DiscontinuityIndicated, Pid, Pusi;
    hide PatSection, PmtSection, PsiPacket;
    var pat, pmt := PatSection(t, pmtPID), PmtSection(t, audioPID);
    PsiPacketFields(PatPID, pat);
    PsiPacketFields(pmtPID, pmt);
    PatLength(t, pmtPID);
    PmtLength(t, audioPID);
    SectionAssembled(c.patSec, pat, seq(183 - |pat|, _ => 0xFF));
    SectionAssembled(c.pmtSec, pmt, seq(183 - |pmt|, _ => 0xFF));
    PatReadsBack(t, pmtPID);
    PmtReadsBack(t, audioPID);
  }

  lemma PatLength(t: Tables, pmtPID: nat)
    requires ValidTables(t) && pmtPID < 0x2000
    ensures var s := PatSection(t, pmtPID); |s| == 3 + Length12(s[1], s[2])
  {
  }

  lemma PmtLength(t: Tables, audioPID: nat)
    requires ValidTables(t) && audioPID < 0x2000
    ensures var s := PmtSection(t, audioPID); |s| == 3 + Length12(s[1], s[2])
  {
  }

  lemma PsiFirst(slots: seq<Slot>, pmtPID: nat, audioPID: nat, cc: nat)
    requires audioPID < 0x2000 && cc < 16 && slots != [] && slots[0].PsiSlot?
    requires forall i :: 0 <= i < |slots| ==> ValidSlot(slots[i], pmtPID, audioPID)
    ensures Packets(slots, pmtPID, audioPID, cc) == [slots[0].packet] + Packets(slots[1..], pmtPID, audioPID, cc)
  {
  }

  /** Segments that open with the two tables leave a demultiplexer where one that knew them would be. */
  lemma OpensWithTables(c: Control, t: Tables, ts: seq<Sent>, pmtPID: nat, audioPID: nat)
    requires ValidTables(t) && 0 < pmtPID < NullPID && 0 < audioPID < NullPID && pmtPID != audioPID
    requires ts != [] && forall i :: 0 <= i < |ts| ==> ValidSent(ts[i], pmtPID, audioPID)
    requires [PsiSlot(PatPacket(t, pmtPID)), PsiSlot(PmtPacket(t, pmtPID, audioPID))] <= ts[0].slots
    ensures DemuxAll(c, Segments(ts, pmtPID, audioPID))
            == DemuxAll(Announced(c, pmtPID, audioPID), Segments(ts, pmtPID, audioPID))
  {
    hide Handle, Segment, Resync, PatPacket, PmtPacket, DemuxAll, Packets, Payload;
    var slots, a := ts[0].slots, Announced(c, pmtPID, audioPID);
    var ps := Packets(slots, pmtPID, audioPID, ts[0].cc);
    var rest := Packets(slots[2..], pmtPID, audioPID, ts[0].cc);
    assert ValidSlot(slots[0], pmtPID, audioPID) && ValidSlot(slots[1], pmtPID, audioPID);
    assert slots[0] == PsiSlot(PatPacket(t, pmtPID)) && slots[1] == PsiSlot(PmtPacket(t, pmtPID, audioPID));
    PsiFirst(slots, pmtPID, audioPID, ts[0].cc);
    PsiFirst(slots[1..], pmtPID, audioPID, ts[0].cc);
    assert slots[1..][1..] == slots[2..];
    PacketsSynced(slots, pmtPID, audioPID, ts[0].cc);
    AlignedStart(ps);
    assert [] + Bytes(ps) == Bytes(ps);
    forall c0 | c0 == c.(cc := None) || c0 == a.(cc := None)
      ensures Segment(c0, Bytes(ps), 0) == Run(a.(cc := None), rest)
    {
      SegmentIsRun(c0, [], ps);
      Acquires(c0, t, pmtPID, audioPID);
      assert ps == [PatPacket(t, pmtPID)] + ([PmtPacket(t, pmtPID, audioPID)] + rest);
      assert ps[1..] == [PmtPacket(t, pmtPID, audioPID)] + rest && ps[1..][1..] == rest;
      assert Announced(c0, pmtPID, audioPID) == a.(cc := None);
    }
    SameFirst(c, a, Segments(ts, pmtPID, audioPID));
  }

  lemma SameFirst(c: Control, a: Control, segs: seq<seq<byte>>)
    requires segs != [] && Demux(c, segs[0], false) == Demux(a, segs[0], false)
    ensures DemuxAll(c, segs) == DemuxAll(a, segs)
  {
    hide Demux;
  }
}
