/** MPEG-TS packets and program-specific information (ISO/IEC 13818-1 section 2.4). */
module TsPacket {
  import opened Bits

  const PacketLen: nat := 188
  const SyncByte: byte := 0x47
  const NullPID: nat := 0x1FFF
  const PatPID: nat := 0
  const MaxSection: nat := 3 + 4095

  datatype Option<+T> = None | Some(value: T)

  type Packet = p: seq<byte> | |p| == 188 witness seq(188, _ => 0x47)

  // ---- packet fields -------------------------------------------------------

  predicate TransportError(p: Packet) { p[1] >= 0x80 }

  predicate Scrambled(p: Packet) { p[3] >= 0x40 }

  predicate Pusi(p: Packet) { (p[1] / 64) % 2 == 1 }

  function Pid(p: Packet): nat { (p[1] as int % 32) * 256 + p[2] as int }

  function Continuity(p: Packet): nat { p[3] % 16 }

  function AdaptationControl(p: Packet): nat { (p[3] / 16) % 4 }

  /** The payload, or nothing when there is none or the adaptation field overruns the packet. */
  function Payload(p: Packet): Option<seq<byte>>
  {
    match AdaptationControl(p)
    case 1 => Some(p[4..])
    case 3 => if 5 + p[4] as int >= PacketLen then None else Some(p[5 + p[4] as int..])
    case _ => None
  }

  predicate DiscontinuityIndicated(p: Packet)
  {
    (AdaptationControl(p) == 2 || AdaptationControl(p) == 3) && p[4] != 0 && p[5] >= 0x80
  }

  // ---- alignment -----------------------------------------------------------

  predicate SyncAt(b: seq<byte>, i: nat)
  {
    i < |b| && b[i] == SyncByte && (i + PacketLen >= |b| || b[i + PacketLen] == SyncByte)
  }

  /** The first position at or after `i` from which the sync byte recurs. */
  function Resync(b: seq<byte>, i: nat): (r: Option<nat>)
    requires i <= |b|
    ensures r.Some? ==> i <= r.value && SyncAt(b, r.value) && forall j: nat :: i <= j < r.value ==> !SyncAt(b, j)
    ensures r.None? ==> forall j: nat :: i <= j ==> !SyncAt(b, j)
    decreases |b| - i
  {
    if i == |b| then None else if SyncAt(b, i) then Some(i) else Resync(b, i + 1)
  }

  method TsResync(b: seq<byte>) returns (r: Option<nat>)
    ensures r == Resync(b, 0)
  {
    for i := 0 to |b|
      invariant Resync(b, 0) == Resync(b, i)
    {
      if b[i] != SyncByte {
        continue;
      }
      var next := i + PacketLen;
      if next >= |b| || b[next] == SyncByte {
        return Some(i);
      }
    }
    return None;
  }

  // ---- PSI sections --------------------------------------------------------

  function Length12(hi: byte, lo: byte): (r: nat)
    ensures r <= 4095
  {
    (hi as int % 16) * 256 + lo as int
  }

  /** The section buffer afterwards and the section completed, if any. */
  datatype Psi = Psi(buf: seq<byte>, sec: Option<seq<byte>>)

  function Complete(buf: seq<byte>): (r: Psi)
    ensures |r.buf| < MaxSection
    ensures r.sec.Some? ==> r.buf == [] && r.sec.value <= buf && |r.sec.value| <= MaxSection
  {
    if |buf| < 3 then Psi(buf, None) else
      var total := 3 + Length12(buf[1], buf[2]);
      if |buf| < total then Psi(buf, None) else Psi([], Some(buf[..total]))
  }

  /** Assembles a section: a PUSI packet starts one after its pointer field, others append. */
  function Assemble(buf: seq<byte>, payload: seq<byte>, pusi: bool): (r: Psi)
    ensures |buf| < MaxSection ==> |r.buf| < MaxSection
  {
    if pusi then
      if payload == [] || 1 + payload[0] as int > |payload| then Psi(buf, None)
      else Complete(payload[1 + payload[0] as int..])
    else if buf == [] then Psi(buf, None)
    else Complete(buf + payload)
  }

  /** The bytes between a section's header and its CRC, when the table id matches. */
  function SectionBody(sec: seq<byte>, tableID: byte): Option<seq<byte>>
  {
    if |sec| < 12 || sec[0] != tableID then None else
      var end := 3 + Length12(sec[1], sec[2]);
      if end > |sec| || end < 12 then None else Some(sec[8..end - 4])
  }

  function Pid13(hi: byte, lo: byte): nat { (hi as int % 32) * 256 + lo as int }

  /** The program map PID of the first program at or after entry offset `i`. */
  function FirstProgram(body: seq<byte>, i: nat): Option<nat>
    decreases |body| - i
  {
    if i + 4 > |body| then None
    else if body[i] != 0 || body[i + 1] != 0 then Some(Pid13(body[i + 2], body[i + 3]))
    else FirstProgram(body, i + 4)
  }

  function ProgramMapPid(sec: seq<byte>): Option<nat>
  {
    var body := SectionBody(sec, 0x00);
    if body.None? then None else FirstProgram(body.value, 0)
  }

  method ParsePAT(sec: seq<byte>) returns (r: Option<nat>)
    ensures r == ProgramMapPid(sec)
  {
    var b := SectionBody(sec, 0x00);
    if b.None? {
      return None;
    }
    var body := b.value;
    var i: nat := 0;
    while i + 4 <= |body|
      invariant FirstProgram(body, 0) == FirstProgram(body, i)
    {
      var prog := 256 * (body[i] as int) + body[i + 1] as int;
      if prog != 0 {
        return Some(Pid13(body[i + 2], body[i + 3]));
      }
      i := i + 4;
    }
    return None;
  }

  const StreamTypeAAC: byte := 0x0F

  predicate OtherAudio(t: byte) { t == 0x03 || t == 0x04 || t == 0x11 }

  /** What a program map says about audio. */
  datatype Audio = NoAudio | OtherOnly | AacAt(pid: nat)

  /** The first AAC stream at or after `i`; otherwise whether another audio type was seen. */
  function FirstAac(body: seq<byte>, i: nat, other: bool): Audio
    decreases |body| - i
  {
    if i + 5 > |body| then (if other then OtherOnly else NoAudio)
    else if body[i] == StreamTypeAAC then AacAt(Pid13(body[i + 1], body[i + 2]))
    else FirstAac(body, i + 5 + Length12(body[i + 3], body[i + 4]), other || OtherAudio(body[i]))
  }

  function AudioOf(sec: seq<byte>): Audio
  {
    var body := SectionBody(sec, 0x02);
    if body.None? || |body.value| < 4 then NoAudio
    else FirstAac(body.value, 4 + Length12(body.value[2], body.value[3]), false)
  }

  method ParsePMT(sec: seq<byte>) returns (r: Audio)
    ensures r == AudioOf(sec)
  {
    var b := SectionBody(sec, 0x02);
    if b.None? || |b.value| < 4 {
      return NoAudio;
    }
    var body := b.value;
    var i: nat := 4 + Length12(body[2], body[3]);
    var other := false;
    ghost var start := i;
    while i + 5 <= |body|
      invariant FirstAac(body, start, false) == FirstAac(body, i, other)
      decreases |body| - i
    {
      var streamType, pid := body[i], Pid13(body[i + 1], body[i + 2]);
      var esil := Length12(body[i + 3], body[i + 4]);
      i := i + 5 + esil;
      if streamType == StreamTypeAAC {
        return AacAt(pid);
      }
      other := other || OtherAudio(streamType);
    }
    return if other then OtherOnly else NoAudio;
  }
}
