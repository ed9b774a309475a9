/**
 The program tables as a sender writes them (ISO/IEC 13818-1 sections 2.4.4.3 and 2.4.4.8), and what
 the demultiplexer reads in them.
 */
module TsTables {
  import opened Bits
  import opened TsPacket
  import opened TsDemux

  // ---- writing -------------------------------------------------------------

  /** A long-form section: five bytes of table id extension, version and numbering, then `body` and a CRC. */
  function Section(tableID: byte, ext: seq<byte>, body: seq<byte>, crc: seq<byte>): (s: seq<byte>)
    requires |ext| == 5 && |crc| == 4 && |body| <= 4086
    ensures |s| == 12 + |body|
  {
    var len := |body| + 9;
    [tableID, 0xB0 + len / 256, len % 256] + ext + body + crc
  }

  datatype Program = Program(number: nat, pid: nat)

  predicate ValidProgram(p: Program) { p.number < 65536 && p.pid < 0x2000 }

  function ProgramBytes(p: Program): (s: seq<byte>)
    requires ValidProgram(p)
    ensures |s| == 4
  {
    [p.number / 256, p.number % 256, 0xE0 + p.pid / 256, p.pid % 256]
  }

  function PatBody(ps: seq<Program>): (s: seq<byte>)
    requires forall i :: 0 <= i < |ps| ==> ValidProgram(ps[i])
    ensures |s| == 4 * |ps|
  {
    if ps == [] then [] else ProgramBytes(ps[0]) + PatBody(ps[1..])
  }

  datatype Stream = Stream(kind: byte, pid: nat, info: seq<byte>)

  predicate ValidStream(s: Stream) { s.pid < 0x2000 && |s.info| < 4096 }

  function StreamBytes(s: Stream): (r: seq<byte>)
    requires ValidStream(s)
    ensures |r| == 5 + |s.info|
  {
    [s.kind, 0xE0 + s.pid / 256, s.pid % 256, 0xF0 + |s.info| / 256, |s.info| % 256] + s.info
  }

  function StreamsBytes(ss: seq<Stream>): seq<byte>
    requires forall i :: 0 <= i < |ss| ==> ValidStream(ss[i])
  {
    if ss == [] then [] else StreamBytes(ss[0]) + StreamsBytes(ss[1..])
  }

  function PmtBody(clockPID: nat, info: seq<byte>, ss: seq<Stream>): seq<byte>
    requires clockPID < 0x2000 && |info| < 4096 && forall i :: 0 <= i < |ss| ==> ValidStream(ss[i])
  {
    [0xE0 + clockPID / 256, clockPID % 256, 0xF0 + |info| / 256, |info| % 256] + info + StreamsBytes(ss)
  }

  // ---- what is meant -------------------------------------------------------

  /** The first entry that names a program; number 0 is the network's. */
  function FirstNamed(ps: seq<Program>): Option<nat>
  {
    if ps == [] then None else if ps[0].number != 0 then Some(ps[0].pid) else FirstNamed(ps[1..])
  }

  /** The first AAC stream of a list. */
  function AacIn(ss: seq<Stream>): Option<nat>
  {
    if ss == [] then None else if ss[0].kind == StreamTypeAAC then Some(ss[0].pid) else AacIn(ss[1..])
  }

  predicate OtherIn(ss: seq<Stream>) { exists i :: 0 <= i < |ss| && OtherAudio(ss[i].kind) }

  // ---- reading back --------------------------------------------------------

  lemma SectionReadsBack(tableID: byte, ext: seq<byte>, body: seq<byte>, crc: seq<byte>)
    requires |ext| == 5 && |crc| == 4 && |body| <= 4086
    ensures var s := Section(tableID, ext, body, crc);
            SectionBody(s, tableID) == Some(body) && |s| == 3 + Length12(s[1], s[2])
  {
    var s := Section(tableID, ext, body, crc);
    assert s[8..8 + |body|] == body;
  }

  lemma {:induction false} ProgramsReadBack(ps: seq<Program>, pre: seq<byte>)
    requires forall i :: 0 <= i < |ps| ==> ValidProgram(ps[i])
    ensures FirstProgram(pre + PatBody(ps), |pre|) == FirstNamed(ps)
    decreases |ps|
  {
    var body := pre + PatBody(ps);
    if ps != [] {
      var b := ProgramBytes(ps[0]);
      assert body == (pre + b) + PatBody(ps[1..]);
      assert body[|pre|..|pre| + 4] == b;
      ProgramsReadBack(ps[1..], pre + b);
    }
  }

  /** Behind any network entries, the first program's map is the one taken. */
  lemma PatMeans(ext: seq<byte>, ps: seq<Program>, crc: seq<byte>)
    requires |ext| == 5 && |crc| == 4 && |ps| <= 1021 && forall i :: 0 <= i < |ps| ==> ValidProgram(ps[i])
    ensures ProgramMapPid(Section(0x00, ext, PatBody(ps), crc)) == FirstNamed(ps)
  {
    SectionReadsBack(0x00, ext, PatBody(ps), crc);
    ProgramsReadBack(ps, []);
    assert [] + PatBody(ps) == PatBody(ps);
  }

  function AudioMeant(ss: seq<Stream>, other: bool): Audio
  {
    if AacIn(ss).Some? then AacAt(AacIn(ss).value) else if other || OtherIn(ss) then OtherOnly else NoAudio
  }

  lemma AudioMeantStep(ss: seq<Stream>, other: bool)
    requires ss != [] && ss[0].kind != StreamTypeAAC
    ensures AudioMeant(ss, other) == AudioMeant(ss[1..], other || OtherAudio(ss[0].kind))
  {
    if OtherIn(ss[1..]) {
      var i :| 0 <= i < |ss[1..]| && OtherAudio(ss[1..][i].kind);
      assert OtherAudio(ss[i + 1].kind);
    }
    if OtherIn(ss) {
      var i :| 0 <= i < |ss| && OtherAudio(ss[i].kind);
      assert i > 0 ==> ss[1..][i - 1] == ss[i];
    }
  }

  lemma TwelveBits(n: nat)
    requires n < 4096
    ensures Length12(0xF0 + n / 256, n % 256) == n
  {
  }

  lemma ThirteenBits(n: nat)
    requires n < 0x2000
    ensures Pid13(0xE0 + n / 256, n % 256) == n
  {
  }

  /** One stream entry, wherever it stands. */
  lemma StreamReads(s: Stream, pre: seq<byte>, more: seq<byte>, other: bool)
    requires ValidStream(s)
    ensures FirstAac(pre + (StreamBytes(s) + more), |pre|, other) ==
            if s.kind == StreamTypeAAC then AacAt(s.pid)
            else FirstAac(pre + (StreamBytes(s) + more), |pre| + 5 + |s.info|, other || OtherAudio(s.kind))
  {
    var b, body := StreamBytes(s), pre + (StreamBytes(s) + more);
    assert body[|pre|] == b[0] && body[|pre| + 1] == b[1] && body[|pre| + 2] == b[2];
    assert body[|pre| + 3] == b[3] && body[|pre| + 4] == b[4];
    TwelveBits(|s.info|);
    ThirteenBits(s.pid);
    hide Pid13, Length12, OtherAudio;
  }

  lemma {:induction false} StreamsReadBack(ss: seq<Stream>, pre: seq<byte>, other: bool)
    requires forall i :: 0 <= i < |ss| ==> ValidStream(ss[i])
    ensures FirstAac(pre + StreamsBytes(ss), |pre|, other) == AudioMeant(ss, other)
    decreases |ss|
  {
    if ss != [] {
      hide AudioMeant, OtherAudio, StreamBytes, FirstAac;
      var b := StreamBytes(ss[0]);
      assert pre + StreamsBytes(ss) == (pre + b) + StreamsBytes(ss[1..]);
      StreamReads(ss[0], pre, StreamsBytes(ss[1..]), other);
      StreamsReadBack(ss[1..], pre + b, other || OtherAudio(ss[0].kind));
      if ss[0].kind == StreamTypeAAC {
        FirstIsAac(ss, other);
      } else {
        AudioMeantStep(ss, other);
      }
    } else {
      assert pre + StreamsBytes(ss) == pre;
    }
  }

  lemma FirstIsAac(ss: seq<Stream>, other: bool)
    requires ss != [] && ss[0].kind == StreamTypeAAC
    ensures AudioMeant(ss, other) == AacAt(ss[0].pid)
  {
  }

  /**
   Whatever descriptors and other streams come with it, the first AAC stream of a program map is
   found; without one, whether the map has audio of another kind.
   */
  lemma PmtMeans(ext: seq<byte>, clockPID: nat, info: seq<byte>, ss: seq<Stream>, crc: seq<byte>)
    requires |ext| == 5 && |crc| == 4 && clockPID < 0x2000 && |info| < 4096
    requires forall i :: 0 <= i < |ss| ==> ValidStream(ss[i])
    requires |PmtBody(clockPID, info, ss)| <= 4086
    ensures AudioOf(Section(0x02, ext, PmtBody(clockPID, info, ss), crc)) == AudioMeant(ss, false)
  {
    hide FirstAac, AudioMeant, Section, SectionBody;
    var body := PmtBody(clockPID, info, ss);
    SectionReadsBack(0x02, ext, body, crc);
    var pre := [0xE0 + clockPID / 256, clockPID % 256, 0xF0 + |info| / 256, |info| % 256] + info;
    assert body == pre + StreamsBytes(ss);
    TwelveBits(|info|);
    StreamsReadBack(ss, pre, false);
    hide Length12;
    assert body[2] == pre[2] == 0xF0 + |info| / 256 && body[3] == pre[3] == |info| % 256;
  }

  /**
   A program map in a packet of its own: its AAC stream becomes the audio, and one that has only audio
   of other kinds is refused exactly when no audio was known.
   */
  lemma MapHandled(
    c: Control, pmtPID: nat, ext: seq<byte>, clockPID: nat, info: seq<byte>, ss: seq<Stream>, crc: seq<byte>)
    requires |ext| == 5 && |crc| == 4 && clockPID < 0x2000 && |info| < 4096
    requires forall i :: 0 <= i < |ss| ==> ValidStream(ss[i])
    requires |PmtBody(clockPID, info, ss)| <= 171
    requires c.pmtPID == Some(pmtPID) && 0 < pmtPID < NullPID
    ensures var h := Handle(c, PsiPacket(pmtPID, Section(0x02, ext, PmtBody(clockPID, info, ss), crc)));
            && (h.error == Some(UnsupportedCodec) <==> AacIn(ss).None? && OtherIn(ss) && c.audioPID.None?)
            && (h.error == None || h.error == Some(UnsupportedCodec))
            && h.control.audioPID == (if AacIn(ss).Some? then AacIn(ss) else c.audioPID)
            && h.control == c.(pmtSec := [], audioPID := h.control.audioPID)
  {
    hide Payload, Assemble, AudioOf, TransportError, Scrambled, DiscontinuityIndicated, Pid, Pusi;
    hide PsiPacket, Section, PmtBody, AacIn, OtherIn, Restarted;
    var section := Section(0x02, ext, PmtBody(clockPID, info, ss), crc);
    PsiPacketFields(pmtPID, section);
    SectionReadsBack(0x02, ext, PmtBody(clockPID, info, ss), crc);
    SectionAssembled(c.pmtSec, section, seq(183 - |section|, _ => 0xFF));
    PmtMeans(ext, clockPID, info, ss, crc);
  }

  // ---- sections in several packets -----------------------------------------

  /** The pieces of a section taken up one after the other, the first behind a pointer field. */
  function Assembling(first: seq<byte>, pieces: seq<seq<byte>>): Psi
    decreases |pieces|
  {
    if pieces == [] then Assemble([], [0] + first, true)
    else Assemble(Assembling(first, pieces[..|pieces| - 1]).buf, pieces[|pieces| - 1], false)
  }

  function Together(pieces: seq<seq<byte>>): seq<byte>
  {
    if pieces == [] then [] else Together(pieces[..|pieces| - 1]) + pieces[|pieces| - 1]
  }

  lemma PointedAt(first: seq<byte>)
    ensures Assemble([], [0] + first, true) == Complete(first)
  {
    assert ([0] + first)[1..] == first;
  }

  /** Nothing is complete before the length the first three bytes declare. */
  lemma {:induction false} NotYet(first: seq<byte>, pieces: seq<seq<byte>>)
    requires |first| >= 3 && |first + Together(pieces)| < 3 + Length12(first[1], first[2])
    ensures Assembling(first, pieces) == Psi(first + Together(pieces), None)
    decreases |pieces|
  {
    if pieces == [] {
      PointedAt(first);
      assert first + [] == first;
    } else {
      var init := pieces[..|pieces| - 1];
      assert first + Together(pieces) == first + Together(init) + pieces[|pieces| - 1];
      NotYet(first, init);
      var buf := first + Together(pieces);
      assert buf[1] == first[1] && buf[2] == first[2];
    }
  }

  /**
   A section sent in pieces, stuffing behind, is assembled by the piece that completes it and by none
   before.
   */
  lemma SectionInPieces(section: seq<byte>, first: seq<byte>, pieces: seq<seq<byte>>, stuffing: seq<byte>)
    requires 3 <= |section| == 3 + Length12(section[1], section[2]) && |first| >= 3 && pieces != []
    requires first + Together(pieces) == section + stuffing
    requires |first + Together(pieces[..|pieces| - 1])| < |section|
    ensures Assembling(first, pieces) == Psi([], Some(section))
    ensures Assembling(first, pieces[..|pieces| - 1]).sec == None
  {
    hide Assemble, Length12, Assembling, Together;
    var init, last := pieces[..|pieces| - 1], pieces[|pieces| - 1];
    SameStart(first, Together(pieces), section, stuffing);
    NotYet(first, init);
    LastPiece(first, pieces);
    Completes(first + Together(init), last, section, stuffing);
  }

  lemma SameStart(first: seq<byte>, more: seq<byte>, section: seq<byte>, stuffing: seq<byte>)
    requires first + more == section + stuffing && |first| >= 3 && |section| >= 3
    ensures first[1] == section[1] && first[2] == section[2]
  {
    var all := first + more;
    assert all[1] == first[1] && all[2] == first[2] && all[1] == section[1] && all[2] == section[2];
  }

  lemma LastPiece(first: seq<byte>, pieces: seq<seq<byte>>)
    requires pieces != []
    ensures var init, last := pieces[..|pieces| - 1], pieces[|pieces| - 1];
            && Assembling(first, pieces) == Assemble(Assembling(first, init).buf, last, false)
            && first + Together(init) + last == first + Together(pieces)
  {
    hide Assemble;
  }

  lemma Completes(buf: seq<byte>, last: seq<byte>, section: seq<byte>, stuffing: seq<byte>)
    requires 3 <= |section| == 3 + Length12(section[1], section[2]) && buf != []
    requires buf + last == section + stuffing
    ensures Assemble(buf, last, false) == Psi([], Some(section))
  {
    var all := section + stuffing;
    assert all[1] == section[1] && all[2] == section[2] && all[..|section|] == section;
  }
}
