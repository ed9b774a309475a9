/**
 RTSP/1.0 messages and interleaved frames at the front of a byte stream (RFC 2326).
 The parsers are pure functions of the bytes seen so far; what matters to a stream
 reader is how their verdict on a prefix relates to their verdict on more bytes.
 */
module RtspMessage {
  import opened Bits

  const MaxHeaderBytes: nat := 64 * 1024
  const MaxHeaderLines: nat := 255
  const MaxHeaderNameLen: nat := 512
  const MaxHeaderValueLen: nat := 2048
  const MaxMethodLen: nat := 64
  const MaxVersionLen: nat := 64
  const MaxRequestURILen: nat := 2048
  const MaxReasonLen: nat := 512
  const MaxBodySize: nat := 128 * 1024
  const MaxInterleavedFrame: nat := 65535

  datatype Error =
    | Incomplete
    | HeadersTooLarge
    | TooManyHeaders
    | HeaderNameTooLong
    | HeaderValueTooLong
    | BodyTooLarge
    | MalformedStatusLine
    | MalformedRequestLine
    | MalformedHeader
    | BadContentLength
    | NotInterleaved
    | InterleavedTooLarge

  datatype Result<+T> = Ok(value: T) | Err(error: Error) {
    predicate IsFailure() { Err? }
    function PropagateFailure<U>(): Result<U> requires Err? { Err(error) }
    function Extract(): T requires Ok? { value }
  }

  type text = seq<byte>

  // ---- text helpers --------------------------------------------------------

  const LF: byte := 10
  const CR: byte := 13
  const Space: byte := 32
  const Tab: byte := 9
  const Colon: byte := 58
  const Dollar: byte := 36

  /** The ASCII bytes of a literal. */
  function Ascii(s: string): (r: text)
    ensures |r| == |s|
  {
    seq(|s|, i requires 0 <= i < |s| => (s[i] as int) % 256)
  }

  /** Index of the first `b`, or |s| when there is none. */
  function IndexOf(s: text, b: byte): (i: nat)
    ensures i <= |s| && b !in s[..i] && (i < |s| ==> s[i] == b)
  {
    if s == [] || s[0] == b then 0 else
      var i := 1 + IndexOf(s[1..], b);
      assert s[..i] == [s[0]] + s[1..][..i - 1];
      i
  }

  function Split(s: text, b: byte): (r: seq<text>)
    ensures |r| > 0
    decreases |s|
  {
    var i := IndexOf(s, b);
    if i == |s| then [s] else [s[..i]] + Split(s[i + 1..], b)
  }

  /** Split into at most three pieces at the first two occurrences of `b`. */
  function Split3(s: text, b: byte): (r: seq<text>)
    ensures 1 <= |r| <= 3
  {
    var i := IndexOf(s, b);
    if i == |s| then [s] else
      var t := s[i + 1..];
      var j := IndexOf(t, b);
      if j == |t| then [s[..i], t] else [s[..i], t[..j], t[j + 1..]]
  }

  function TrimSuffix(s: text, b: byte): text
  {
    if s != [] && s[|s| - 1] == b then s[..|s| - 1] else s
  }

  predicate IsSpace(b: byte) { b == Space || 9 <= b <= 13 }

  function TrimSpace(s: text): text
    decreases |s|
  {
    if s != [] && IsSpace(s[0]) then TrimSpace(s[1..])
    else if s != [] && IsSpace(s[|s| - 1]) then TrimSpace(s[..|s| - 1])
    else s
  }

  function Lower(s: text): (r: text)
    ensures |r| == |s|
  {
    seq(|s|, i requires 0 <= i < |s| => if 65 <= s[i] <= 90 then s[i] + 32 else s[i])
  }

  predicate IsDigit(b: byte) { 48 <= b <= 57 }

  function Digits(s: text): (v: nat)
    requires forall i :: 0 <= i < |s| ==> IsDigit(s[i])
  {
    if s == [] then 0 else
      var last := s[|s| - 1];
      assert IsDigit(last);
      10 * Digits(s[..|s| - 1]) + (last as int - 48)
  }

  datatype Number = NotANumber | Int(value: int)

  const MaxInt64: int := 0x7FFF_FFFF_FFFF_FFFF

  /** Decimal integer with an optional sign that fits 64 bits. */
  function Atoi(s: text): Number
  {
    var negative := s != [] && s[0] == 45;
    var digits := if s != [] && (s[0] == 45 || s[0] == 43) then s[1..] else s;
    if digits == [] || exists i :: 0 <= i < |digits| && !IsDigit(digits[i]) then NotANumber
    else
      var v: int := Digits(digits);
      if negative then (if v > MaxInt64 + 1 then NotANumber else Int(-v))
      else if v > MaxInt64 then NotANumber else Int(v)
  }

  // ---- message heads -------------------------------------------------------

  /** A blank line ends at index `i`: a bare LF LF, or CR LF CR LF. */
  predicate BareTerminator(buf: text, i: nat)
  {
    1 <= i < |buf| && buf[i] == LF && buf[i - 1] == LF
  }

  predicate CrlfTerminator(buf: text, i: nat)
  {
    3 <= i < |buf| && buf[i] == LF && buf[i - 1] == CR && buf[i - 2] == LF && buf[i - 3] == CR
  }

  predicate Terminator(buf: text, i: nat) { BareTerminator(buf, i) || CrlfTerminator(buf, i) }

  /** Extent of a head: its text ends at `end`, the body starts at `body`. */
  datatype Extent = Extent(end: nat, body: nat)

  function ExtentAt(buf: text, i: nat): Extent
    requires Terminator(buf, i)
  {
    Extent(if BareTerminator(buf, i) then i - 1 else i - 3, i + 1)
  }

  /** The first terminator at or after `i`, among the first `limit` bytes. */
  function ScanHead(buf: text, i: nat, limit: nat): (r: Result<Extent>)
    requires i <= limit == (if |buf| < MaxHeaderBytes then |buf| else MaxHeaderBytes)
    ensures r.Ok? ==> r.value.end < r.value.body <= limit && i < r.value.body
    ensures r.Ok? ==> Terminator(buf, r.value.body - 1) && r.value == ExtentAt(buf, r.value.body - 1)
    ensures r.Ok? ==> forall j: nat :: i <= j < r.value.body - 1 ==> !Terminator(buf, j)
    ensures r.Err? ==> forall j: nat :: i <= j < limit ==> !Terminator(buf, j)
    ensures r.Err? ==> r.error == if limit == MaxHeaderBytes then HeadersTooLarge else Incomplete
    decreases limit - i
  {
    if i == limit then
      if |buf| >= MaxHeaderBytes then Err(HeadersTooLarge) else Err(Incomplete)
    else if Terminator(buf, i) then Ok(ExtentAt(buf, i))
    else ScanHead(buf, i + 1, limit)
  }

  function FindHead(buf: text): (r: Result<Extent>)
    ensures r.Ok? ==> r.value.end < r.value.body <= |buf| && r.value.body <= MaxHeaderBytes
    ensures r == Err(Incomplete) ==> |buf| < MaxHeaderBytes
  {
    ScanHead(buf, 0, if |buf| < MaxHeaderBytes then |buf| else MaxHeaderBytes)
  }

  /** The scanning loop finds exactly the first blank line. */
  method ScanForHead(buf: text) returns (r: Result<Extent>)
    ensures r == FindHead(buf)
  {
    var limit := if |buf| < MaxHeaderBytes then |buf| else MaxHeaderBytes;
    for i := 0 to limit
      invariant FindHead(buf) == ScanHead(buf, i, limit)
    {
      if buf[i] == LF {
        if i >= 1 && buf[i - 1] == LF {
          return Ok(Extent(i - 1, i + 1));
        }
        if i >= 3 && buf[i - 1] == CR && buf[i - 2] == LF && buf[i - 3] == CR {
          return Ok(Extent(i - 3, i + 1));
        }
      }
    }
    if |buf| >= MaxHeaderBytes {
      return Err(HeadersTooLarge);
    }
    return Err(Incomplete);
  }

  // ---- header fields -------------------------------------------------------

  /** Fields keyed by lower-cased name: two names are one field exactly when they differ only in case. */
  type Header = map<text, seq<text>>

  function Values(h: Header, name: text): seq<text>
  {
    if Lower(name) in h then h[Lower(name)] else []
  }

  function Add(h: Header, name: text, v: text): Header
  {
    h[Lower(name) := Values(h, name) + [v]]
  }

  predicate IsTokenChar(b: byte)
  {
    || b in Ascii("!#$%&'*+-.^_`|~")
    || IsDigit(b) || 65 <= b <= 90 || 97 <= b <= 122
  }

  predicate IsValidHeaderName(name: text)
  {
    name != [] && forall i :: 0 <= i < |name| ==> IsTokenChar(name[i])
  }

  datatype Field = Field(name: text, value: text)

  function ParseField(line: text): Result<Field>
  {
    if line == [] || line[0] == Space || line[0] == Tab then Err(MalformedHeader) else
      var c := IndexOf(line, Colon);
      if c == |line| then Err(MalformedHeader) else
        var name, after := line[..c], line[c + 1..];
        if !IsValidHeaderName(name) then Err(MalformedHeader) else
          var value := if after != [] && after[0] == Space then after[1..] else after;
          if |name| > MaxHeaderNameLen then Err(HeaderNameTooLong)
          else if |value| > MaxHeaderValueLen then Err(HeaderValueTooLong)
          else Ok(Field(name, value))
  }

  function ParseFields(lines: seq<text>, h: Header): Result<Header>
  {
    if lines == [] then Ok(h) else
      var f :- ParseField(lines[0]);
      ParseFields(lines[1..], Add(h, f.name, f.value))
  }

  /** The loop that fills the field map. */
  method ParseHeaderLines(lines: seq<text>) returns (r: Result<Header>)
    ensures r == ParseFields(lines, map[])
  {
    var h: Header := map[];
    for i := 0 to |lines|
      invariant ParseFields(lines, map[]) == ParseFields(lines[i..], h)
    {
      var f := ParseField(lines[i]);
      if f.Err? {
        return Err(f.error);
      }
      h := Add(h, f.value.name, f.value.value);
    }
    return Ok(h);
  }

  function HeadLines(head: text): (r: seq<text>)
    ensures |r| > 0
  {
    var raw := Split(head, LF);
    seq(|raw|, i requires 0 <= i < |raw| => TrimSuffix(raw[i], CR))
  }

  datatype Head = Head(first: text, header: Header)

  function ParseHeadText(head: text): Result<Head>
  {
    var lines := HeadLines(head);
    if |lines| - 1 > MaxHeaderLines then Err(TooManyHeaders) else
      var h :- ParseFields(lines[1..], map[]);
      Ok(Head(lines[0], h))
  }

  // ---- bodies --------------------------------------------------------------

  /** The declared body length; 0 when there is no Content-Length. */
  function BodyLength(h: Header): (r: Result<nat>)
    ensures r.Ok? ==> r.value <= MaxBodySize
    ensures r.Err? ==> r.error != Incomplete
  {
    var cls := Values(h, Ascii("Content-Length"));
    if cls == [] then Ok(0)
    else if exists i :: 1 <= i < |cls| && TrimSpace(cls[i]) != TrimSpace(cls[0]) then Err(BadContentLength)
    else match Atoi(TrimSpace(cls[0]))
      case NotANumber => Err(BadContentLength)
      case Int(v) =>
        if v < 0 then Err(BadContentLength)
        else if v > MaxBodySize then Err(BodyTooLarge)
        else Ok(v)
  }

  function CSeqOf(h: Header): int
  {
    var vs := Values(h, Ascii("CSeq"));
    match Atoi(TrimSpace(if vs == [] then [] else vs[0]))
    case NotANumber => 0
    case Int(v) => v
  }

  // ---- units ---------------------------------------------------------------

  datatype Unit =
    | Frame(channel: byte, payload: text)
    | Response(code: int, reason: text, cseq: int, header: Header, body: text)
    | Request(verb: text, url: text, cseq: int, header: Header, body: text)

  /** A parsed unit and the number of bytes it occupies. */
  datatype Parsed = Parsed(unit: Unit, n: nat)

  datatype StatusLine = StatusLine(code: int, reason: text)

  function ParseStatusLine(line: text): Result<StatusLine>
  {
    var parts := Split3(line, Space);
    if |parts| < 2 then Err(MalformedStatusLine)
    else if !(Ascii("RTSP/") <= parts[0]) || |parts[0]| > MaxVersionLen then Err(MalformedStatusLine)
    else if |parts[1]| != 3 then Err(MalformedStatusLine)
    else
      var code := Atoi(parts[1]);
      var reason := if |parts| == 3 then parts[2] else [];
      if code.NotANumber? || code.value < 100 || code.value > 999 then Err(MalformedStatusLine)
      else if |reason| > MaxReasonLen then Err(MalformedStatusLine)
      else Ok(StatusLine(code.value, reason))
  }

  datatype RequestLine = RequestLine(verb: text, url: text)

  function ParseRequestLine(line: text): Result<RequestLine>
  {
    var parts := Split3(line, Space);
    if |parts| < 3 then Err(MalformedRequestLine)
    else if parts[0] == [] || |parts[0]| > MaxMethodLen then Err(MalformedRequestLine)
    else if parts[1] == [] || |parts[1]| > MaxRequestURILen then Err(MalformedRequestLine)
    else if !(Ascii("RTSP/") <= parts[2]) || |parts[2]| > MaxVersionLen then Err(MalformedRequestLine)
    else Ok(RequestLine(parts[0], parts[1]))
  }

  /** What a head says before its body is looked at: the unit without its body, and the body length. */
  datatype Declared = Declared(unit: Unit, bodyLen: nat)

  function DeclaredResponse(head: text): (r: Result<Declared>)
    ensures r.Ok? ==> r.value.unit.Response? && r.value.bodyLen <= MaxBodySize
    ensures r.Err? ==> r.error != Incomplete
  {
    HeadNeverIncomplete(head);
    var h :- ParseHeadText(head);
    var s :- ParseStatusLine(h.first);
    var n :- BodyLength(h.header);
    Ok(Declared(Response(s.code, s.reason, CSeqOf(h.header), h.header, []), n))
  }

  function DeclaredRequest(head: text): (r: Result<Declared>)
    ensures r.Ok? ==> r.value.unit.Request? && r.value.bodyLen <= MaxBodySize
    ensures r.Err? ==> r.error != Incomplete
  {
    HeadNeverIncomplete(head);
    var h :- ParseHeadText(head);
    var s :- ParseRequestLine(h.first);
    var n :- BodyLength(h.header);
    Ok(Declared(Request(s.verb, s.url, CSeqOf(h.header), h.header, []), n))
  }

  lemma {:induction false} FieldsNeverIncomplete(lines: seq<text>, h: Header)
    ensures ParseFields(lines, h) != Err(Incomplete)
  {
    if lines != [] && ParseField(lines[0]).Ok? {
      var f := ParseField(lines[0]).value;
      FieldsNeverIncomplete(lines[1..], Add(h, f.name, f.value));
    }
  }

  lemma HeadNeverIncomplete(head: text)
    ensures ParseHeadText(head) != Err(Incomplete)
  {
    FieldsNeverIncomplete(HeadLines(head)[1..], map[]);
  }

  function WithBody(u: Unit, body: text): Unit
    requires !u.Frame?
  {
    match u
    case Response(code, reason, cseq, header, _) => Response(code, reason, cseq, header, body)
    case Request(verb, url, cseq, header, _) => Request(verb, url, cseq, header, body)
  }

  /** A message whose head is parsed by `declared`: the head, then exactly the declared body. */
  function ParseMessage(declared: text -> Result<Declared>, buf: text): (r: Result<Parsed>)
    requires forall h :: declared(h).Ok? ==> !declared(h).value.unit.Frame?
    ensures r.Ok? ==> 0 < r.value.n <= |buf|
  {
    var e :- FindHead(buf);
    var d :- declared(buf[..e.end]);
    if e.body + d.bodyLen > |buf| then Err(Incomplete)
    else Ok(Parsed(WithBody(d.unit, buf[e.body..e.body + d.bodyLen]), e.body + d.bodyLen))
  }

  function ParseResponse(buf: text): (r: Result<Parsed>)
    ensures r.Ok? ==> 0 < r.value.n <= |buf|
  {
    ParseMessage(DeclaredResponse, buf)
  }

  function ParseRequest(buf: text): (r: Result<Parsed>)
    ensures r.Ok? ==> 0 < r.value.n <= |buf|
  {
    ParseMessage(DeclaredRequest, buf)
  }

  function ParseInterleaved(buf: text): (r: Result<Parsed>)
    ensures r.Ok? ==> 4 <= r.value.n <= |buf|
  {
    if buf == [] || buf[0] != Dollar then Err(NotInterleaved)
    else if |buf| < 4 then Err(Incomplete)
    else
      var end := 4 + (256 * (buf[2] as int) + buf[3] as int);
      if |buf| < end then Err(Incomplete) else Ok(Parsed(Frame(buf[1], buf[4..end]), end))
  }

  function MarshalInterleaved(channel: int, payload: text): (r: Result<text>)
    ensures r.Ok? <==> 0 <= channel <= 255 && |payload| <= MaxInterleavedFrame
  {
    if channel < 0 || channel > 255 || |payload| > MaxInterleavedFrame then Err(InterleavedTooLarge)
    else Ok([Dollar, channel, |payload| / 256, |payload| % 256] + payload)
  }

  /** Marshalling then parsing gives the frame back, whatever follows it. */
  lemma InterleavedRoundTrip(channel: byte, payload: text, rest: text)
    requires |payload| <= MaxInterleavedFrame
    ensures ParseInterleaved(MarshalInterleaved(channel, payload).value + rest)
            == Ok(Parsed(Frame(channel, payload), 4 + |payload|))
  {
    var w := MarshalInterleaved(channel, payload).value;
    assert (w + rest)[4..4 + |payload|] == payload;
  }

  // ---- classification ------------------------------------------------------

  datatype FrameKind = KindNeedMore | KindInterleaved | KindResponse | KindRequest | KindUnknown

  const RequestPrefixes: set<text> :=
    {Ascii("OP"), Ascii("GE"), Ascii("TE"), Ascii("AN"), Ascii("SE"), Ascii("RE"), Ascii("PL"), Ascii("PA"), Ascii("DE")}

  function ClassifyStream(buf: text): FrameKind
  {
    if buf == [] then KindNeedMore
    else if buf[0] == Dollar then KindInterleaved
    else if |buf| < 2 then KindNeedMore
    else if buf[..2] == Ascii("RT") then KindResponse
    else if buf[..2] in RequestPrefixes then KindRequest
    else KindUnknown
  }

  // ---- verdicts are stable under more input --------------------------------

  lemma ClassifyStable(b: text, s: text)
    requires ClassifyStream(b) != KindNeedMore
    ensures ClassifyStream(b + s) == ClassifyStream(b)
  {
    if |b| >= 2 {
      assert (b + s)[..2] == b[..2];
    }
  }

  lemma TerminatorStable(b: text, s: text, i: nat)
    requires i < |b|
    ensures BareTerminator(b + s, i) == BareTerminator(b, i)
    ensures CrlfTerminator(b + s, i) == CrlfTerminator(b, i)
  {
  }

  lemma {:induction false} ScanHeadStable(b: text, s: text, i: nat, limit: nat, limit': nat)
    requires i <= limit == (if |b| < MaxHeaderBytes then |b| else MaxHeaderBytes)
    requires limit' == (if |b + s| < MaxHeaderBytes then |b + s| else MaxHeaderBytes)
    requires ScanHead(b, i, limit) != Err(Incomplete)
    ensures i <= limit' && ScanHead(b + s, i, limit') == ScanHead(b, i, limit)
    decreases limit - i
  {
    if i < limit {
      TerminatorStable(b, s, i);
      if !Terminator(b, i) {
        ScanHeadStable(b, s, i + 1, limit, limit');
      }
    }
  }

  lemma MessageStable(declared: text -> Result<Declared>, b: text, s: text)
    requires forall h :: declared(h).Ok? ==> !declared(h).value.unit.Frame?
    requires ParseMessage(declared, b) != Err(Incomplete)
    ensures ParseMessage(declared, b + s) == ParseMessage(declared, b)
  {
    ScanHeadStable(b, s, 0, if |b| < MaxHeaderBytes then |b| else MaxHeaderBytes,
                   if |b + s| < MaxHeaderBytes then |b + s| else MaxHeaderBytes);
    if FindHead(b).Ok? {
      var e := FindHead(b).value;
      assert (b + s)[..e.end] == b[..e.end];
      var d := declared(b[..e.end]);
      if d.Ok? {
        assert (b + s)[e.body..e.body + d.value.bodyLen] == b[e.body..e.body + d.value.bodyLen];
      }
    }
  }

  lemma InterleavedStable(b: text, s: text)
    requires ParseInterleaved(b) != Err(Incomplete) && b != []
    ensures ParseInterleaved(b + s) == ParseInterleaved(b)
  {
    if ParseInterleaved(b).Ok? {
      var end := ParseInterleaved(b).value.n;
      assert (b + s)[4..end] == b[4..end];
    }
  }

  /** An incomplete message is shorter than the largest message the caps admit. */
  lemma IncompleteMessageIsShort(declared: text -> Result<Declared>, b: text)
    requires forall h :: declared(h).Ok? ==> !declared(h).value.unit.Frame? && declared(h).value.bodyLen <= MaxBodySize
    requires forall h :: declared(h).Err? ==> declared(h).error != Incomplete
    requires ParseMessage(declared, b) == Err(Incomplete)
    ensures |b| < MaxHeaderBytes + MaxBodySize
  {
  }

  lemma IncompleteFrameIsShort(b: text)
    requires ParseInterleaved(b) == Err(Incomplete)
    ensures |b| < 4 + MaxInterleavedFrame
  {
  }
}
