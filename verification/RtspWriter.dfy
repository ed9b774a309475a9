/**
 RTSP messages as they are written: a start line, header fields, a decimal Content-Length, a blank
 line and the body.  What the parser and the stream reader make of written messages is stated in terms
 of what was written.
 */
module RtspWriter {
  import opened Bits
  import opened RtspMessage
  import R = RtspReader

  // ---- decimal numbers -----------------------------------------------------

  function Decimal(n: nat): (r: text)
    ensures r != [] && forall i :: 0 <= i < |r| ==> IsDigit(r[i])
  {
    if n < 10 then [48 + n] else Decimal(n / 10) + [48 + n % 10]
  }

  function Itoa(v: int): (r: text)
    ensures r != []
  {
    if v < 0 then [45] + Decimal(-v) else Decimal(v)
  }

  lemma {:induction false} DigitsOfDecimal(n: nat)
    ensures Digits(Decimal(n)) == n
  {
    if n < 10 {
      assert Decimal(n) == [48 + n] && Digits([]) == 0;
      assert Decimal(n)[..0] == [];
    } else {
      DigitsOfDecimal(n / 10);
      assert Decimal(n)[..|Decimal(n)| - 1] == Decimal(n / 10);
    }
  }

  predicate Int64(v: int) { -MaxInt64 - 1 <= v <= MaxInt64 }

  /** What is printed is read, without regard to white space around it. */
  lemma AtoiOfItoa(v: int, pre: text, post: text)
    requires Int64(v) && Blank(pre) && Blank(post)
    ensures TrimSpace(pre + Itoa(v) + post) == Itoa(v) && Atoi(Itoa(v)) == Int(v)
  {
    var n := if v < 0 then -v else v;
    DigitsOfDecimal(n);
    var s := Itoa(v);
    assert IsDigit(Decimal(n)[0]) && IsDigit(Decimal(n)[|Decimal(n)| - 1]);
    assert s[|s| - 1] == Decimal(n)[|Decimal(n)| - 1];
    if v < 0 {
      assert s[0] == 45 && s[1..] == Decimal(n);
    } else {
      assert s == Decimal(n);
    }
    hide Decimal, Digits;
    Trimmed(pre, s, post);
  }

  predicate Blank(s: text) { forall i :: 0 <= i < |s| ==> IsSpace(s[i]) }

  lemma {:induction false} Trimmed(pre: text, s: text, post: text)
    requires Blank(pre) && Blank(post) && s != [] && !IsSpace(s[0]) && !IsSpace(s[|s| - 1])
    ensures TrimSpace(pre + s + post) == s
    decreases |pre| + |post|
  {
    var all := pre + s + post;
    if pre != [] {
      assert all[1..] == pre[1..] + s + post;
      Trimmed(pre[1..], s, post);
    } else if post != [] {
      assert all[0] == s[0];
      assert all[..|all| - 1] == pre + s + post[..|post| - 1];
      Trimmed(pre, s, post[..|post| - 1]);
    } else {
      assert all == s;
    }
  }

  // ---- lines ---------------------------------------------------------------

  /** No carriage return and no line feed. */
  predicate OneLine(s: text) { CR !in s && LF !in s }

  const Crlf: text := [CR, LF]

  /** Lines joined by CR LF. */
  function Joined(lines: seq<text>): text
    requires lines != []
  {
    if |lines| == 1 then lines[0] else lines[0] + Crlf + Joined(lines[1..])
  }

  lemma {:induction false} IndexOfFirst(a: text, b: byte, c: text)
    requires b !in a
    ensures IndexOf(a + ([b] + c), b) == |a|
  {
    if a != [] {
      assert (a + ([b] + c))[1..] == a[1..] + ([b] + c);
      IndexOfFirst(a[1..], b, c);
    }
  }

  lemma {:induction false} IndexOfNone(a: text, b: byte)
    requires b !in a
    ensures IndexOf(a, b) == |a|
  {
    if a != [] {
      IndexOfNone(a[1..], b);
    }
  }

  /** The lines of a joined head are the lines joined. */
  lemma {:induction false} LinesOfJoined(lines: seq<text>)
    requires lines != [] && forall i :: 0 <= i < |lines| ==> OneLine(lines[i])
    ensures HeadLines(Joined(lines)) == lines
  {
    if |lines| == 1 {
      LastLine(lines[0]);
    } else {
      hide HeadLines, OneLine;
      FirstLine(lines[0], Joined(lines[1..]));
      LinesOfJoined(lines[1..]);
    }
  }

  lemma LastLine(line: text)
    requires OneLine(line)
    ensures HeadLines(line) == [line]
  {
    IndexOfNone(line, LF);
  }

  lemma FirstLine(line: text, rest: text)
    requires OneLine(line)
    ensures HeadLines(line + Crlf + rest) == [line] + HeadLines(rest)
  {
    FirstSplit(line, rest);
    hide Split, TrimSuffix;
    var raw := Split(line + Crlf + rest, LF);
    assert raw[0] == line + [CR] && raw[1..] == Split(rest, LF);
  }

  lemma FirstSplit(line: text, rest: text)
    requires OneLine(line)
    ensures Split(line + Crlf + rest, LF) == [line + [CR]] + Split(rest, LF)
    ensures TrimSuffix(line + [CR], CR) == line
  {
    var n := |line| + 1;
    var s := line + Crlf + rest;
    assert s == (line + [CR]) + ([LF] + rest);
    IndexOfFirst(line + [CR], LF, rest);
    assert s[..n] == line + [CR] && s[n + 1..] == rest;
  }

  /** Every line feed ends, with its carriage return, a line that is not empty. */
  predicate Spaced(s: text)
  {
    forall i :: 0 <= i < |s| && s[i] == LF ==> i >= 2 && s[i - 1] == CR && s[i - 2] != LF && s[i - 2] != CR
  }

  lemma SpacedLine(line: text, rest: text)
    requires line != [] && OneLine(line) && Spaced(rest)
    ensures Spaced(line + Crlf + rest)
  {
    var s := line + Crlf + rest;
    forall i | 0 <= i < |s| && s[i] == LF
      ensures i >= 2 && s[i - 1] == CR && s[i - 2] != LF && s[i - 2] != CR
    {
      if i < |line| + 2 {
        assert s[..|line|] == line && s[|line| - 1] == line[|line| - 1];
        assert i == |line| + 1;
      } else {
        var k := i - |line| - 2;
        assert s[i] == rest[k];
        assert s[i - 1] == rest[k - 1] && s[i - 2] == rest[k - 2];
      }
    }
  }

  lemma {:induction false} JoinedSpaced(lines: seq<text>)
    requires lines != [] && forall i :: 0 <= i < |lines| ==> OneLine(lines[i]) && lines[i] != []
    ensures Spaced(Joined(lines) + Crlf)
  {
    if |lines| == 1 {
      SpacedLine(lines[0], []);
      assert lines[0] + Crlf + [] == lines[0] + Crlf;
    } else {
      JoinedSpaced(lines[1..]);
      SpacedLine(lines[0], Joined(lines[1..]) + Crlf);
      assert lines[0] + Crlf + (Joined(lines[1..]) + Crlf) == Joined(lines) + Crlf;
    }
  }

  /** So the blank line that ends a head is the first one. */
  lemma FirstBlankLine(head: text)
    requires Spaced(head + Crlf)
    ensures forall i: nat :: i < |head| + 3 ==> !Terminator(head + [CR, LF, CR, LF], i)
    ensures !BareTerminator(head + [CR, LF, CR, LF], |head| + 3)
  {
    var front, all := head + Crlf, head + [CR, LF, CR, LF];
    assert forall i :: 0 <= i < |front| ==> all[i] == front[i];
    forall i: nat | i < |head| + 3
      ensures !Terminator(all, i)
    {
      if all[i] == LF {
        assert front[i] == LF;
      }
    }
  }

  // ---- fields --------------------------------------------------------------

  /** A field the parser's caps admit, on one line. */
  predicate ValidField(f: Field)
  {
    IsValidHeaderName(f.name) && |f.name| <= MaxHeaderNameLen && |f.value| <= MaxHeaderValueLen && OneLine(f.value)
  }

  function FieldLine(f: Field): text { f.name + [Colon, Space] + f.value }

  function FieldLines(fs: seq<Field>): (r: seq<text>)
    ensures |r| == |fs| && forall i :: 0 <= i < |fs| ==> r[i] == FieldLine(fs[i])
  {
    seq(|fs|, i requires 0 <= i < |fs| => FieldLine(fs[i]))
  }

  /** Token characters leave out white space, the colon and the line ends. */
  lemma TokenIs(b: byte)
    requires IsTokenChar(b)
    ensures b != Colon && b != Space && b != Tab && b != CR && b != LF
  {
    var marks := "!#$%&'*+-.^_`|~";
    if b in Ascii(marks) {
      var i :| 0 <= i < |Ascii(marks)| && Ascii(marks)[i] == b;
      assert b == marks[i] as int % 256;
    }
  }

  lemma NameIs(name: text)
    requires IsValidHeaderName(name)
    ensures Colon !in name && OneLine(name) && name[0] != Space && name[0] != Tab
  {
    forall i | 0 <= i < |name|
      ensures name[i] != Colon && name[i] != Space && name[i] != Tab && name[i] != CR && name[i] != LF
    {
      TokenIs(name[i]);
    }
  }

  lemma FieldReadsBack(f: Field)
    requires ValidField(f)
    ensures ParseField(FieldLine(f)) == Ok(f) && OneLine(FieldLine(f)) && FieldLine(f) != []
  {
    hide IsTokenChar;
    NameIs(f.name);
    var line := FieldLine(f);
    assert line == f.name + ([Colon] + ([Space] + f.value));
    IndexOfFirst(f.name, Colon, [Space] + f.value);
    assert line[..|f.name|] == f.name && line[|f.name| + 1..] == [Space] + f.value;
    assert ([Space] + f.value)[1..] == f.value;
    assert line[0] == f.name[0];
  }

  /** The header that fields written in this order make up. */
  function HeaderOf(fs: seq<Field>): Header
  {
    if fs == [] then map[] else Add(HeaderOf(fs[..|fs| - 1]), fs[|fs| - 1].name, fs[|fs| - 1].value)
  }

  /** The values written under `name`, whatever its case, in order. */
  function ValuesIn(fs: seq<Field>, name: text): seq<text>
  {
    if fs == [] then [] else
      (if Lower(fs[0].name) == Lower(name) then [fs[0].value] else []) + ValuesIn(fs[1..], name)
  }

  lemma {:induction false} ValuesInSnoc(fs: seq<Field>, f: Field, name: text)
    ensures ValuesIn(fs + [f], name) == ValuesIn(fs, name) + if Lower(f.name) == Lower(name) then [f.value] else []
  {
    hide Lower;
    if fs == [] {
      assert fs + [f] == [f] && [f][1..] == [];
    } else {
      assert (fs + [f])[1..] == fs[1..] + [f];
      ValuesInSnoc(fs[1..], f, name);
    }
  }

  /** Looking a name up finds exactly what was written under it. */
  lemma {:induction false} HeaderMeans(fs: seq<Field>, name: text)
    ensures Values(HeaderOf(fs), name) == ValuesIn(fs, name)
  {
    hide Lower;
    if fs != [] {
      var init, f := fs[..|fs| - 1], fs[|fs| - 1];
      HeaderMeans(init, name);
      HeaderMeans(init, f.name);
      ValuesInSnoc(init, f, name);
      assert fs == init + [f];
      SameValues(init, f.name, name);
    }
  }

  lemma {:induction false} SameValues(fs: seq<Field>, a: text, b: text)
    ensures Lower(a) == Lower(b) ==> ValuesIn(fs, a) == ValuesIn(fs, b)
  {
    hide Lower;
    if fs != [] {
      SameValues(fs[1..], a, b);
    }
  }

  lemma HeaderSnoc(fs: seq<Field>, f: Field)
    ensures HeaderOf(fs + [f]) == Add(HeaderOf(fs), f.name, f.value)
  {
    assert (fs + [f])[..|fs|] == fs;
  }

  lemma {:induction false} FieldsReadBack(fs: seq<Field>, done: seq<Field>)
    requires forall i :: 0 <= i < |fs| ==> ValidField(fs[i])
    ensures ParseFields(FieldLines(fs), HeaderOf(done)) == Ok(HeaderOf(done + fs))
    decreases |fs|
  {
    hide ValidField, FieldLine, HeaderOf, Add, ParseField;
    if fs == [] {
      assert done + fs == done;
    } else {
      FieldReadsBack(fs[0]);
      assert FieldLines(fs)[1..] == FieldLines(fs[1..]);
      HeaderSnoc(done, fs[0]);
      FieldsReadBack(fs[1..], done + [fs[0]]);
      assert done + [fs[0]] + fs[1..] == done + fs;
    }
  }

  // ---- messages ------------------------------------------------------------

  /** The text before the blank line. */
  function HeadOf(first: text, fs: seq<Field>): text
  {
    Joined([first] + FieldLines(fs))
  }

  function Written(first: text, fs: seq<Field>, body: text): text
  {
    HeadOf(first, fs) + [CR, LF, CR, LF] + body
  }

  predicate ValidHead(first: text, fs: seq<Field>)
  {
    && first != [] && OneLine(first)
    && |fs| <= MaxHeaderLines && (forall i :: 0 <= i < |fs| ==> ValidField(fs[i]))
    && |HeadOf(first, fs)| + 4 <= MaxHeaderBytes
  }

  /** A written head has exactly its start line and fields, and its blank line is found. */
  lemma HeadReadsBack(first: text, fs: seq<Field>)
    requires ValidHead(first, fs)
    ensures var head := HeadOf(first, fs);
            && ParseHeadText(head) == Ok(Head(first, HeaderOf(fs)))
            && (forall i: nat :: i < |head| + 3 ==> !Terminator(head + [CR, LF, CR, LF], i))
            && !BareTerminator(head + [CR, LF, CR, LF], |head| + 3)
  {
    hide ValidField, FieldLine, Joined, Spaced, HeadLines, Terminator, BareTerminator, ParseFields, HeaderOf, OneLine;
    var lines := [first] + FieldLines(fs);
    HeadLinesValid(first, fs);
    LinesOfJoined(lines);
    FieldsReadBack(fs, []);
    assert lines[1..] == FieldLines(fs) && [] + fs == fs;
    assert HeaderOf([]) == map[] by { NoFields(); }
    JoinedSpaced(lines);
    FirstBlankLine(HeadOf(first, fs));
  }

  lemma NoFields()
    ensures HeaderOf([]) == map[]
  {
  }

  lemma HeadLinesValid(first: text, fs: seq<Field>)
    requires first != [] && OneLine(first) && forall i :: 0 <= i < |fs| ==> ValidField(fs[i])
    ensures var lines := [first] + FieldLines(fs); forall i :: 0 <= i < |lines| ==> OneLine(lines[i]) && lines[i] != []
  {
    hide ValidField, FieldLine, OneLine;
    var lines := [first] + FieldLines(fs);
    forall i | 0 <= i < |lines|
      ensures OneLine(lines[i]) && lines[i] != []
    {
      if i > 0 {
        FieldReadsBack(fs[i - 1]);
      }
    }
  }

  /** Content-Length fields as sent: nothing, or printed numbers with any white space about them. */
  predicate Lengths(h: Header, ns: seq<int>, pre: seq<text>, post: seq<text>)
  {
    var cls := Values(h, Ascii("Content-Length"));
    && |cls| == |ns| == |pre| == |post|
    && forall i :: 0 <= i < |ns| ==>
         Int64(ns[i]) && Blank(pre[i]) && Blank(post[i]) && cls[i] == pre[i] + Itoa(ns[i]) + post[i]
  }

  /**
   The declared length: none is 0, repeats must agree in number, a negative one is refused as bad and
   one above the cap as too large.
   */
  lemma BodyLengthMeans(h: Header, ns: seq<int>, pre: seq<text>, post: seq<text>)
    requires Lengths(h, ns, pre, post)
    ensures BodyLength(h) ==
            if ns == [] then Ok(0)
            else if exists i :: 0 <= i < |ns| && ns[i] != ns[0] then Err(BadContentLength)
            else if ns[0] < 0 then Err(BadContentLength)
            else if ns[0] > MaxBodySize then Err(BodyTooLarge)
            else Ok(ns[0])
  {
    hide TrimSpace, Atoi, Itoa, Blank, Values;
    var cls := Values(h, Ascii("Content-Length"));
    forall i | 0 <= i < |ns|
      ensures TrimSpace(cls[i]) == Itoa(ns[i]) && Atoi(Itoa(ns[i])) == Int(ns[i])
    {
      AtoiOfItoa(ns[i], pre[i], post[i]);
    }
    if i :| 0 <= i < |ns| && ns[i] != ns[0] {
      assert Itoa(ns[i]) != Itoa(ns[0]);
      assert 1 <= i < |cls| && TrimSpace(cls[i]) != TrimSpace(cls[0]);
    }
  }

  // ---- what the marshallers write ------------------------------------------

  predicate Named(f: Field, name: string) { Lower(f.name) == Lower(Ascii(name)) }

  /** The computed fields: the sequence number and, for a body, its length. */
  function Control(cseq: int, bodyLen: nat): seq<Field>
  {
    [Field(Ascii("CSeq"), Itoa(cseq))]
    + if bodyLen > 0 then [Field(Ascii("Content-Length"), Itoa(bodyLen))] else []
  }

  /** The fields given, without those that are computed. */
  function Others(fs: seq<Field>): seq<Field>
  {
    if fs == [] then [] else
      (if Named(fs[0], "CSeq") || Named(fs[0], "Content-Length") then [] else [fs[0]]) + Others(fs[1..])
  }

  function AllFields(cseq: int, fs: seq<Field>, bodyLen: nat): seq<Field>
  {
    Control(cseq, bodyLen) + Others(fs)
  }

  predicate OneLineFields(fs: seq<Field>) { forall i :: 0 <= i < |fs| ==> OneLine(fs[i].name) && OneLine(fs[i].value) }

  /** "RTSP/1.0" */
  const Version: text := [82, 84, 83, 80, 47, 49, 46, 48]

  function StatusText(code: int, reason: text): text
  {
    Version + [Space] + Itoa(code) + [Space] + reason
  }

  function RequestText(verb: text, url: text): text
  {
    verb + [Space] + url + [Space] + Version
  }

  predicate ForbiddenInUrl(b: byte) { b <= Space || b == 127 }

  datatype Refusal = InvalidRequest | InvalidResponse

  datatype Marshalled = Bytes(wire: text) | Refused(why: Refusal)

  /** Answers a request; the fields are written in the order given. */
  function MarshalResponse(code: int, reason: text, cseq: int, fs: seq<Field>, body: text): Marshalled
  {
    if code < 100 || code > 999 then Refused(InvalidResponse)
    else if |reason| > MaxReasonLen || |body| > MaxBodySize then Refused(InvalidResponse)
    else if !OneLine(reason) || !OneLineFields(fs) then Refused(InvalidResponse)
    else Bytes(Written(StatusText(code, reason), AllFields(cseq, fs, |body|), body))
  }

  function MarshalRequest(verb: text, url: text, cseq: int, fs: seq<Field>, body: text): Marshalled
  {
    if verb == [] || url == [] then Refused(InvalidRequest)
    else if |verb| > MaxMethodLen || |url| > MaxRequestURILen || |body| > MaxBodySize then Refused(InvalidRequest)
    else if !OneLine(verb) || (exists i :: 0 <= i < |url| && ForbiddenInUrl(url[i])) || !OneLineFields(fs) then
      Refused(InvalidRequest)
    else Bytes(Written(RequestText(verb, url), AllFields(cseq, fs, |body|), body))
  }

  // ---- reading back what was marshalled ------------------------------------

  lemma {:induction false} ShortDecimal(n: nat, k: nat)
    requires k > 0 && n < Pow10(k)
    ensures |Decimal(n)| <= k
  {
    if n >= 10 {
      ShortDecimal(n / 10, k - 1);
    }
  }

  function Pow10(k: nat): nat { if k == 0 then 1 else 10 * Pow10(k - 1) }

  lemma ItoaFits(v: int)
    requires Int64(v)
    ensures |Itoa(v)| <= 20 && OneLine(Itoa(v)) && Space !in Itoa(v)
  {
    var n := if v < 0 then -v else v;
    assert Pow10(5) == 100_000;
    assert Pow10(10) == 10_000_000_000;
    assert Pow10(15) == 1_000_000_000_000_000;
    assert Pow10(19) == 10_000_000_000_000_000_000;
    ShortDecimal(n, 19);
    var d := Decimal(n);
    hide Decimal, Pow10;
    assert forall b :: b in d ==> IsDigit(b);
  }

  lemma {:induction false} ValuesInConcat(a: seq<Field>, b: seq<Field>, name: text)
    ensures ValuesIn(a + b, name) == ValuesIn(a, name) + ValuesIn(b, name)
  {
    hide Lower;
    if a == [] {
      assert a + b == b;
    } else {
      assert (a + b)[1..] == a[1..] + b;
      ValuesInConcat(a[1..], b, name);
    }
  }

  predicate Computed(name: text)
  {
    Lower(name) == Lower(Ascii("CSeq")) || Lower(name) == Lower(Ascii("Content-Length"))
  }

  lemma {:induction false} OthersMean(fs: seq<Field>, name: text)
    ensures ValuesIn(Others(fs), name) == if Computed(name) then [] else ValuesIn(fs, name)
    ensures forall f :: f in Others(fs) ==> f in fs
    ensures |Others(fs)| <= |fs|
  {
    hide Lower, Ascii;
    if fs != [] {
      OthersMean(fs[1..], name);
      assert [fs[0]][1..] == [] && ValuesIn([], name) == [];
      assert ValuesIn([fs[0]], name) == if Lower(fs[0].name) == Lower(name) then [fs[0].value] else [];
      if Computed(fs[0].name) {
        assert Others(fs) == Others(fs[1..]);
      } else {
        assert Others(fs) == [fs[0]] + Others(fs[1..]);
        ValuesInConcat([fs[0]], Others(fs[1..]), name);
      }
    }
  }

  lemma TwoNames()
    ensures Lower(Ascii("CSeq")) != Lower(Ascii("Content-Length"))
    ensures IsValidHeaderName(Ascii("CSeq")) && IsValidHeaderName(Ascii("Content-Length"))
  {
    assert |Ascii("CSeq")| == 4 && |Ascii("Content-Length")| == 14;
    forall b | b in Ascii("CSeq") || b in Ascii("Content-Length")
      ensures IsTokenChar(b)
    {
      assert b == 45 ==> Ascii("!#$%&'*+-.^_`|~")[8] == b;
    }
  }

  lemma ControlMeans(cseq: int, bodyLen: nat, name: text)
    ensures Lower(name) == Lower(Ascii("CSeq")) ==> ValuesIn(Control(cseq, bodyLen), name) == [Itoa(cseq)]
    ensures Lower(name) == Lower(Ascii("Content-Length")) ==>
              ValuesIn(Control(cseq, bodyLen), name) == if bodyLen > 0 then [Itoa(bodyLen)] else []
    ensures !Computed(name) ==> ValuesIn(Control(cseq, bodyLen), name) == []
  {
    TwoNames();
    hide Lower, Ascii, Itoa;
    var c, l := Field(Ascii("CSeq"), Itoa(cseq)), Field(Ascii("Content-Length"), Itoa(bodyLen));
    assert [c][1..] == [] && [c, l][1..] == [l] && [l][1..] == [] && ValuesIn([], name) == [];
    assert ValuesIn([l], name) == if Lower(l.name) == Lower(name) then [l.value] else [];
    assert ValuesIn([c], name) == if Lower(c.name) == Lower(name) then [c.value] else [];
    assert ValuesIn([c, l], name) == (if Lower(c.name) == Lower(name) then [c.value] else []) + ValuesIn([l], name);
    assert Control(cseq, bodyLen) == if bodyLen > 0 then [c, l] else [c];
  }

  /** The header a written message has, name by name. */
  lemma WrittenHeaderMeans(cseq: int, fs: seq<Field>, bodyLen: nat, name: text)
    ensures var h := HeaderOf(AllFields(cseq, fs, bodyLen));
            && (Lower(name) == Lower(Ascii("CSeq")) ==> Values(h, name) == [Itoa(cseq)])
            && (Lower(name) == Lower(Ascii("Content-Length")) ==>
                  Values(h, name) == if bodyLen > 0 then [Itoa(bodyLen)] else [])
            && (!Computed(name) ==> Values(h, name) == ValuesIn(fs, name))
  {
    hide Control, Others, HeaderOf, ValuesIn, Itoa, Lower, Ascii, Values;
    HeaderMeans(AllFields(cseq, fs, bodyLen), name);
    ValuesInConcat(Control(cseq, bodyLen), Others(fs), name);
    OthersMean(fs, name);
    ControlMeans(cseq, bodyLen, name);
  }

  /** Its sequence number and body length are those written. */
  lemma ControlReadsBack(cseq: int, fs: seq<Field>, bodyLen: nat)
    requires Int64(cseq) && bodyLen <= MaxBodySize
    ensures var h := HeaderOf(AllFields(cseq, fs, bodyLen)); CSeqOf(h) == cseq && BodyLength(h) == Ok(bodyLen)
  {
    hide AllFields, HeaderOf, Itoa, Lower, Ascii, TrimSpace, Atoi, Values, BodyLength;
    var h := HeaderOf(AllFields(cseq, fs, bodyLen));
    WrittenHeaderMeans(cseq, fs, bodyLen, Ascii("CSeq"));
    WrittenHeaderMeans(cseq, fs, bodyLen, Ascii("Content-Length"));
    AtoiOfItoa(cseq, [], []);
    assert [] + Itoa(cseq) + [] == Itoa(cseq);
    if bodyLen > 0 {
      assert [] + Itoa(bodyLen) + [] == Itoa(bodyLen);
      BodyLengthMeans(h, [bodyLen], [[]], [[]]);
    } else {
      BodyLengthMeans(h, [], [], []);
    }
  }

  /** Fields the receiver's caps admit beside the computed ones, in a head of at most 64 KiB. */
  predicate Admitted(first: text, cseq: int, fs: seq<Field>, bodyLen: nat)
  {
    && Int64(cseq) && |fs| <= MaxHeaderLines - 2 && (forall i :: 0 <= i < |fs| ==> ValidField(fs[i]))
    && |HeadOf(first, AllFields(cseq, fs, bodyLen))| + 4 <= MaxHeaderBytes
  }

  lemma ControlValid(cseq: int, bodyLen: nat)
    requires Int64(cseq) && bodyLen <= MaxBodySize
    ensures forall i :: 0 <= i < |Control(cseq, bodyLen)| ==> ValidField(Control(cseq, bodyLen)[i])
  {
    hide Itoa, IsValidHeaderName, OneLine;
    ItoaFits(cseq);
    ItoaFits(bodyLen);
    TwoNames();
  }

  lemma WrittenHeadValid(first: text, cseq: int, fs: seq<Field>, bodyLen: nat)
    requires Admitted(first, cseq, fs, bodyLen) && first != [] && OneLine(first) && bodyLen <= MaxBodySize
    ensures ValidHead(first, AllFields(cseq, fs, bodyLen))
  {
    hide ValidField, HeadOf, OneLine;
    ControlValid(cseq, bodyLen);
    OthersMean(fs, []);
    var all := AllFields(cseq, fs, bodyLen);
    forall i | 0 <= i < |all|
      ensures ValidField(all[i])
    {
      if i >= |Control(cseq, bodyLen)| {
        assert all[i] in Others(fs);
      }
    }
  }

  /** Splitting at the first two spaces. */
  lemma ThreePieces(a: text, b: text, c: text)
    requires Space !in a && Space !in b
    ensures Split3(a + [Space] + b + [Space] + c, Space) == [a, b, c]
  {
    hide IndexOf;
    var t := b + ([Space] + c);
    assert a + [Space] + b + [Space] + c == a + ([Space] + t);
    FirstPiece(a, t);
    FirstPiece(b, c);
    TwoCuts(a + ([Space] + t), a, t, b, c);
  }

  lemma TwoCuts(s: text, a: text, t: text, b: text, c: text)
    requires IndexOf(s, Space) == |a| < |s| && s[..|a|] == a && s[|a| + 1..] == t
    requires IndexOf(t, Space) == |b| < |t| && t[..|b|] == b && t[|b| + 1..] == c
    ensures Split3(s, Space) == [a, b, c]
  {
    hide IndexOf;
  }

  lemma FirstPiece(a: text, rest: text)
    requires Space !in a
    ensures var s := a + ([Space] + rest);
            IndexOf(s, Space) == |a| && |a| < |s| && s[..|a|] == a && s[|a| + 1..] == rest
  {
    IndexOfFirst(a, Space, rest);
  }

  lemma VersionIs()
    ensures Space !in Version && OneLine(Version) && Ascii("RTSP/") <= Version && Version[..2] == Ascii("RT")
  {
  }

  lemma StatusReadsBack(code: int, reason: text)
    requires 100 <= code <= 999 && |reason| <= MaxReasonLen && OneLine(reason)
    ensures var line := StatusText(code, reason);
            && ParseStatusLine(line) == Ok(StatusLine(code, reason)) && OneLine(line)
            && |line| >= 2 && line[..2] == Ascii("RT")
  {
    var line := StatusText(code, reason);
    VersionIs();
    ItoaFits(code);
    AtoiOfItoa(code, [], []);
    assert |Itoa(code)| == 3 by {
      assert |Decimal(code / 10 / 10)| == 1 && |Decimal(code / 10)| == 2;
    }
    hide Itoa, Atoi;
    ThreePieces(Version, Itoa(code), reason);
    assert line[..2] == Version[..2];
  }

  lemma RequestReadsBack(verb: text, url: text)
    requires verb != [] && |verb| <= MaxMethodLen && Space !in verb && OneLine(verb)
    requires url != [] && |url| <= MaxRequestURILen && forall i :: 0 <= i < |url| ==> !ForbiddenInUrl(url[i])
    ensures var line := RequestText(verb, url); ParseRequestLine(line) == Ok(RequestLine(verb, url)) && OneLine(line)
  {
    VersionIs();
    assert Space !in url && OneLine(url) by {
      assert forall b :: b in url ==> !ForbiddenInUrl(b);
    }
    ThreePieces(verb, url, Version);
  }

  /** The bytes a written message starts with are those of its start line. */
  lemma WrittenStarts(first: text, fs: seq<Field>, body: text, rest: text)
    requires |first| >= 2
    ensures (Written(first, fs, body) + rest)[..2] == first[..2]
  {
    var lines := [first] + FieldLines(fs);
    assert lines[0] == first && first <= Joined(lines);
  }

  /** What the client answers reads back at the other end: every field, the body and the length. */
  lemma ResponseReadsBack(code: int, reason: text, cseq: int, fs: seq<Field>, body: text, rest: text)
    requires MarshalResponse(code, reason, cseq, fs, body).Bytes?
    requires Admitted(StatusText(code, reason), cseq, fs, |body|)
    ensures var wire := MarshalResponse(code, reason, cseq, fs, body).wire;
            && ClassifyStream(wire + rest) == KindResponse
            && ParseResponse(wire + rest)
            == Ok(Parsed(Response(code, reason, cseq, HeaderOf(AllFields(cseq, fs, |body|)), body), |wire|))
  {
    hide HeadOf, AllFields, HeaderOf, CSeqOf, BodyLength, StatusText, ParseStatusLine, OneLine, ParseHeadText;
    hide Terminator, BareTerminator, ParseMessage, FieldLines, OneLineFields, Joined;
    var first, all := StatusText(code, reason), AllFields(cseq, fs, |body|);
    StatusReadsBack(code, reason);
    WrittenHeadValid(first, cseq, fs, |body|);
    HeadReadsBack(first, all);
    ControlReadsBack(cseq, fs, |body|);
    R.MessageParses(DeclaredResponse, HeadOf(first, all), body);
    MessageStable(DeclaredResponse, Written(first, all, body), rest);
    WrittenStarts(first, all, body, rest);
    assert KindOfPrefix(first[..2]) == KindResponse by { ResponsePrefix(); }
    ClassifiedBy(Written(first, all, body) + rest);
  }

  function KindOfPrefix(two: text): FrameKind
  {
    if two == Ascii("RT") then KindResponse else if two in RequestPrefixes then KindRequest else KindUnknown
  }

  lemma ResponsePrefix()
    ensures KindOfPrefix(Ascii("RT")) == KindResponse
  {
  }

  lemma ClassifiedBy(buf: text)
    requires |buf| >= 2 && KindOfPrefix(buf[..2]) != KindUnknown
    ensures ClassifyStream(buf) == KindOfPrefix(buf[..2])
  {
  }

  /** Does a request with this method classify as one? */
  predicate Recognised(verb: text) { |verb| >= 2 && verb[..2] in RequestPrefixes && Space !in verb }

  /** The methods of RFC 2326 section 10. */
  const Methods: seq<string> :=
    ["OPTIONS", "DESCRIBE", "ANNOUNCE", "SETUP", "PLAY", "PAUSE", "TEARDOWN", "GET_PARAMETER", "SET_PARAMETER",
     "REDIRECT", "RECORD"]

  lemma Starts(m: string, two: string)
    requires |two| == 2 && two <= m && ' ' !in m && Ascii(two) in RequestPrefixes
    requires forall c :: c in m ==> c as int < 128
    ensures Recognised(Ascii(m))
  {
    assert Ascii(m)[..2] == Ascii(two);
    forall i | 0 <= i < |m|
      ensures Ascii(m)[i] != Space
    {
      assert m[i] in m;
      assert Ascii(m)[i] == m[i] as int;
    }
  }

  lemma FirstMethods(i: nat)
    requires i < 4
    ensures Recognised(Ascii(Methods[i]))
  {
    hide Recognised;
    var m := Methods[i];
    match i
    case 0 => Starts(m, "OP");
    case 1 => Starts(m, "DE");
    case 2 => Starts(m, "AN");
    case _ => Starts(m, "SE");
  }

  lemma MiddleMethods(i: nat)
    requires 4 <= i < 8
    ensures Recognised(Ascii(Methods[i]))
  {
    hide Recognised;
    var m := Methods[i];
    match i
    case 4 => Starts(m, "PL");
    case 5 => Starts(m, "PA");
    case 6 => Starts(m, "TE");
    case _ => Starts(m, "GE");
  }

  lemma LastMethods(i: nat)
    requires 8 <= i < |Methods|
    ensures Recognised(Ascii(Methods[i]))
  {
    hide Recognised;
    var m := Methods[i];
    match i
    case 8 => Starts(m, "SE");
    case _ => Starts(m, "RE");
  }

  /** All of them do. */
  lemma MethodsRecognised(i: nat)
    requires i < |Methods|
    ensures Recognised(Ascii(Methods[i]))
  {
    hide Recognised;
    if i < 4 {
      FirstMethods(i);
    } else if i < 8 {
      MiddleMethods(i);
    } else {
      LastMethods(i);
    }
  }

  lemma RequestPrefix(two: text)
    requires two in RequestPrefixes
    ensures KindOfPrefix(two) == KindRequest
  {
    assert Ascii("RT")[0] == 82 && Ascii("RT")[1] == 84;
    assert Ascii("RE")[1] == 69;
  }

  /** A request reads back at the other end likewise. */
  lemma RequestRoundTrip(verb: text, url: text, cseq: int, fs: seq<Field>, body: text, rest: text)
    requires MarshalRequest(verb, url, cseq, fs, body).Bytes? && Recognised(verb)
    requires Admitted(RequestText(verb, url), cseq, fs, |body|)
    ensures var wire := MarshalRequest(verb, url, cseq, fs, body).wire;
            && ClassifyStream(wire + rest) == KindRequest
            && ParseRequest(wire + rest)
            == Ok(Parsed(Request(verb, url, cseq, HeaderOf(AllFields(cseq, fs, |body|)), body), |wire|))
  {
    hide HeadOf, AllFields, HeaderOf, CSeqOf, BodyLength, ParseRequestLine, OneLine, ParseHeadText;
    hide Terminator, BareTerminator, ParseMessage, FieldLines, OneLineFields, Joined, ForbiddenInUrl;
    var first, all := RequestText(verb, url), AllFields(cseq, fs, |body|);
    RequestReadsBack(verb, url);
    WrittenHeadValid(first, cseq, fs, |body|);
    HeadReadsBack(first, all);
    ControlReadsBack(cseq, fs, |body|);
    R.MessageParses(DeclaredRequest, HeadOf(first, all), body);
    MessageStable(DeclaredRequest, Written(first, all, body), rest);
    WrittenStarts(first, all, body, rest);
    assert first[..2] == verb[..2];
    RequestPrefix(verb[..2]);
    ClassifiedBy(Written(first, all, body) + rest);
  }

  // ---- written streams -----------------------------------------------------

  /** One thing a server sends. */
  datatype Sent =
    | Media(channel: byte, payload: text)
    | Answer(code: int, reason: text, cseq: int, fs: seq<Field>, body: text)
    | Ask(verb: text, url: text, cseq: int, fs: seq<Field>, body: text)

  predicate Sendable(x: Sent)
  {
    match x
    case Media(_, payload) => |payload| <= MaxInterleavedFrame
    case Answer(code, reason, cseq, fs, body) =>
      MarshalResponse(code, reason, cseq, fs, body).Bytes? && Admitted(StatusText(code, reason), cseq, fs, |body|)
    case Ask(verb, url, cseq, fs, body) =>
      && MarshalRequest(verb, url, cseq, fs, body).Bytes? && Admitted(RequestText(verb, url), cseq, fs, |body|)
      && Recognised(verb) && !R.IsTeardown(verb)
  }

  function WireOf(x: Sent): text
    requires Sendable(x)
  {
    match x
    case Media(channel, payload) => MarshalInterleaved(channel, payload).value
    case Answer(code, reason, cseq, fs, body) => MarshalResponse(code, reason, cseq, fs, body).wire
    case Ask(verb, url, cseq, fs, body) => MarshalRequest(verb, url, cseq, fs, body).wire
  }

  function UnitOf(x: Sent): Unit
  {
    match x
    case Media(channel, payload) => Frame(channel, payload)
    case Answer(code, reason, cseq, fs, body) =>
      Response(code, reason, cseq, HeaderOf(AllFields(cseq, fs, |body|)), body)
    case Ask(verb, url, cseq, fs, body) =>
      Request(verb, url, cseq, HeaderOf(AllFields(cseq, fs, |body|)), body)
  }

  lemma SentIsWellFormed(x: Sent)
    requires Sendable(x)
    ensures R.WellFormed(WireOf(x), UnitOf(x))
  {
    hide MarshalResponse, MarshalRequest, Admitted, ParseResponse, ParseRequest, HeaderOf, AllFields, ClassifyStream;
    hide MarshalInterleaved, ParseInterleaved, StatusText, RequestText, Recognised;
    match x
    case Media(channel, payload) =>
      R.MarshalledFrameIsWellFormed(channel, payload);
    case Answer(code, reason, cseq, fs, body) =>
      ResponseReadsBack(code, reason, cseq, fs, body, []);
      NotNothing(WireOf(x));
    case Ask(verb, url, cseq, fs, body) =>
      RequestRoundTrip(verb, url, cseq, fs, body, []);
      NotNothing(WireOf(x));
  }

  lemma NotNothing(wire: text)
    ensures wire + [] == wire && (ClassifyStream(wire) != KindNeedMore ==> wire != [])
  {
  }

  function Items(xs: seq<Sent>): (r: seq<R.Item>)
    requires forall i :: 0 <= i < |xs| ==> Sendable(xs[i])
    ensures |r| == |xs| && forall i :: 0 <= i < |xs| ==> r[i] == R.Item(WireOf(xs[i]), UnitOf(xs[i]))
  {
    seq(|xs|, i requires 0 <= i < |xs| => R.Item(WireOf(xs[i]), UnitOf(xs[i])))
  }

  /**
   Whatever responses, requests and media frames a server writes, in any order and cut into reads
   anywhere, the reader dispatches exactly those, with the fields and bodies written, skips nothing,
   and ends with the connection.
   */
  lemma WrittenStream(env: R.Env, xs: seq<Sent>, chunks: seq<text>)
    requires forall i :: 0 <= i < |xs| ==> Sendable(xs[i])
    requires forall log, u :: env.replies(log, u)
    requires R.Concat(chunks) == R.Wire(Items(xs))
    ensures R.Session(env, R.Start, [], chunks).state
            == R.State(R.Events(Items(xs)), 0, R.Option.Some(R.ConnectionClosed))
  {
    hide Sendable, WireOf, UnitOf, R.WellFormed, R.Session;
    forall i | 0 <= i < |xs|
      ensures R.WellFormed(Items(xs)[i].wire, Items(xs)[i].unit)
    {
      SentIsWellFormed(xs[i]);
    }
    R.WellFormedStream(env, Items(xs), chunks);
  }

  // ---- bare line feeds -----------------------------------------------------

  /** Lines joined by bare line feeds, as some devices send them. */
  function BareJoined(lines: seq<text>): text
    requires lines != []
  {
    if |lines| == 1 then lines[0] else lines[0] + [LF] + BareJoined(lines[1..])
  }

  lemma {:induction false} BareLines(lines: seq<text>)
    requires lines != [] && forall i :: 0 <= i < |lines| ==> OneLine(lines[i])
    ensures HeadLines(BareJoined(lines)) == lines
  {
    if |lines| == 1 {
      LastLine(lines[0]);
    } else {
      hide HeadLines, OneLine;
      FirstBare(lines[0], BareJoined(lines[1..]));
      BareLines(lines[1..]);
    }
  }

  lemma FirstBare(line: text, rest: text)
    requires OneLine(line)
    ensures HeadLines(line + [LF] + rest) == [line] + HeadLines(rest)
  {
    BareSplit(line, rest);
    hide Split, TrimSuffix, OneLine;
    var raw := Split(line + [LF] + rest, LF);
    assert raw[0] == line && raw[1..] == Split(rest, LF);
  }

  lemma BareSplit(line: text, rest: text)
    requires OneLine(line)
    ensures Split(line + [LF] + rest, LF) == [line] + Split(rest, LF)
    ensures TrimSuffix(line, CR) == line
  {
    var s := line + [LF] + rest;
    assert s == line + ([LF] + rest);
    IndexOfFirst(line, LF, rest);
    assert s[..|line|] == line && s[|line| + 1..] == rest;
  }

  /** No carriage return, and no line feed at the start or behind another. */
  predicate BareSpaced(s: text)
  {
    CR !in s && forall i :: 0 <= i < |s| && s[i] == LF ==> i >= 1 && s[i - 1] != LF
  }

  lemma BareSpacedLine(line: text, rest: text)
    requires line != [] && OneLine(line) && BareSpaced(rest)
    ensures BareSpaced(line + [LF] + rest)
  {
    var s := line + [LF] + rest;
    forall i | 0 <= i < |s| && s[i] == LF
      ensures i >= 1 && s[i - 1] != LF
    {
      if i <= |line| {
        assert s[..|line|] == line && s[|line| - 1] == line[|line| - 1];
        assert i == |line|;
      } else {
        assert s[i] == rest[i - |line| - 1] && s[i - 1] == rest[i - |line| - 2];
      }
    }
  }

  lemma {:induction false} BareJoinedSpaced(lines: seq<text>)
    requires lines != [] && forall i :: 0 <= i < |lines| ==> OneLine(lines[i]) && lines[i] != []
    ensures BareSpaced(BareJoined(lines) + [LF])
  {
    if |lines| == 1 {
      BareSpacedLine(lines[0], []);
      assert lines[0] + [LF] + [] == lines[0] + [LF];
    } else {
      BareJoinedSpaced(lines[1..]);
      BareSpacedLine(lines[0], BareJoined(lines[1..]) + [LF]);
      assert lines[0] + [LF] + (BareJoined(lines[1..]) + [LF]) == BareJoined(lines) + [LF];
    }
  }

  lemma BareHeadFound(head: text, body: text)
    requires |head| + 2 <= MaxHeaderBytes && BareSpaced(head + [LF])
    ensures FindHead(head + [LF, LF] + body) == Ok(Extent(|head|, |head| + 2))
  {
    var front := head + [LF, LF];
    var buf := front + body;
    var spaced := head + [LF];
    assert forall i :: 0 <= i < |spaced| ==> front[i] == spaced[i];
    forall i: nat | i < |head| + 1
      ensures !Terminator(front, i)
    {
      if front[i] == LF {
        assert spaced[i] == LF;
      }
    }
    assert BareTerminator(front, |head| + 1);
    hide ScanHead, CrlfTerminator, BareTerminator;
    R.ScanFinds(front, 0, |head| + 1);
    ScanHeadStable(front, body, 0, |front|, if |buf| < MaxHeaderBytes then |buf| else MaxHeaderBytes);
  }

  function BareHead(first: text, fs: seq<Field>): text { BareJoined([first] + FieldLines(fs)) }

  /** A message with bare line feeds reads as the one with CR LF, fields, body and all. */
  lemma BareMessageReads(first: text, fs: seq<Field>, body: text, rest: text)
    requires ValidHead(first, fs) && |BareHead(first, fs)| + 2 <= MaxHeaderBytes
    requires BodyLength(HeaderOf(fs)) == Ok(|body|)
    ensures var bare := BareHead(first, fs) + [LF, LF] + body;
            && (ParseStatusLine(first).Ok? ==>
                  ParseResponse(bare + rest).Ok? && ParseResponse(bare + rest).value.n == |bare|
                  && ParseResponse(Written(first, fs, body)).Ok?
                  && ParseResponse(bare + rest).value.unit == ParseResponse(Written(first, fs, body)).value.unit)
            && (ParseRequestLine(first).Ok? ==>
                  ParseRequest(bare + rest).Ok? && ParseRequest(bare + rest).value.n == |bare|
                  && ParseRequest(Written(first, fs, body)).Ok?
                  && ParseRequest(bare + rest).value.unit == ParseRequest(Written(first, fs, body)).value.unit)
  {
    hide HeadOf, BareHead, HeaderOf, CSeqOf, BodyLength, ParseStatusLine, ParseRequestLine, OneLine, ParseHeadText;
    hide Terminator, BareTerminator, FieldLines, BareSpaced, ParseMessage, WithBody;
    BareHeadReads(first, fs);
    HeadReadsBack(first, fs);
    var head := BareHead(first, fs);
    if ParseStatusLine(first).Ok? {
      BareParses(DeclaredResponse, head, body, rest);
      R.MessageParses(DeclaredResponse, HeadOf(first, fs), body);
    }
    if ParseRequestLine(first).Ok? {
      BareParses(DeclaredRequest, head, body, rest);
      R.MessageParses(DeclaredRequest, HeadOf(first, fs), body);
    }
  }

  lemma BareHeadReads(first: text, fs: seq<Field>)
    requires ValidHead(first, fs)
    ensures ParseHeadText(BareHead(first, fs)) == Ok(Head(first, HeaderOf(fs)))
    ensures BareSpaced(BareHead(first, fs) + [LF])
  {
    hide ValidField, FieldLine, BareJoined, BareSpaced, HeadLines, ParseFields, HeaderOf, OneLine;
    var lines := [first] + FieldLines(fs);
    HeadLinesValid(first, fs);
    BareLines(lines);
    FieldsReadBack(fs, []);
    assert lines[1..] == FieldLines(fs) && [] + fs == fs;
    assert HeaderOf([]) == map[] by { NoFields(); }
    BareJoinedSpaced(lines);
  }

  lemma BareParses(declared: text -> Result<Declared>, head: text, body: text, rest: text)
    requires forall h :: declared(h).Ok? ==> !declared(h).value.unit.Frame?
    requires |head| + 2 <= MaxHeaderBytes && BareSpaced(head + [LF])
    requires declared(head).Ok? && declared(head).value.bodyLen == |body|
    ensures ParseMessage(declared, head + [LF, LF] + body + rest)
            == Ok(Parsed(WithBody(declared(head).value.unit, body), |head| + 2 + |body|))
  {
    hide FindHead, WithBody;
    var buf := head + [LF, LF] + body + rest;
    assert buf == head + [LF, LF] + (body + rest);
    BareHeadFound(head, body + rest);
    assert buf[..|head|] == head && buf[|head| + 2..|head| + 2 + |body|] == body;
  }
}
