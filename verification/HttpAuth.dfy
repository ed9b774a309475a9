/**
 WWW-Authenticate challenges and the Digest answer (RFC 7616, RFC 7617): the segment splitter, the
 auth-param parser, the printer, and the choice among challenges.
 */
module HttpAuth {
  import opened Bits
  import opened RtspMessage

  const Comma: byte := 44
  const Quote: byte := 34
  const Backslash: byte := 92
  const Equals: byte := 61

  // ---- splitting on commas outside quotes ----------------------------------

  /** Where a scan is: outside quotes, inside, or just after a backslash inside. */
  datatype Scan = Outside | Inside | Escaped

  function Next(q: Scan, b: byte): Scan
  {
    match q
    case Escaped => Inside
    case Inside => if b == Backslash then Escaped else if b == Quote then Outside else Inside
    case Outside => if b == Quote then Inside else Outside
  }

  function ScanFrom(q: Scan, s: text): Scan
  {
    if s == [] then q else Next(ScanFrom(q, s[..|s| - 1]), s[|s| - 1])
  }

  /** Is the byte at `i` a comma that separates segments? */
  predicate Separates(s: text, i: nat)
    requires i < |s|
  {
    s[i] == Comma && ScanFrom(Outside, s[..i]) == Outside
  }

  /** The segments between separating commas. */
  function Segments(s: text): (r: seq<text>)
    ensures |r| > 0
  {
    if s == [] then [[]] else
      var init, b := s[..|s| - 1], s[|s| - 1];
      var r := Segments(init);
      if b == Comma && ScanFrom(Outside, init) == Outside then r + [[]]
      else r[|r| - 1 := r[|r| - 1] + [b]]
  }

  function Join(parts: seq<text>): text
    requires parts != []
  {
    if |parts| == 1 then parts[0] else Join(parts[..|parts| - 1]) + [Comma] + parts[|parts| - 1]
  }

  /** The splitter's loop over a quote flag and an escape flag. */
  method SplitChallengeSegments(value: text) returns (segments: seq<text>)
    ensures segments == Segments(value)
  {
    segments := [];
    var b: text := [];
    var inQuotes, escaped := false, false;
    for i := 0 to |value|
      invariant segments + [b] == Segments(value[..i])
      invariant escaped ==> inQuotes
      invariant ScanFrom(Outside, value[..i]) == if escaped then Escaped else if inQuotes then Inside else Outside
    {
      var ch := value[i];
      assert value[..i + 1][..i] == value[..i];
      if escaped {
        b := b + [ch];
        escaped := false;
      } else if ch == Backslash && inQuotes {
        b := b + [ch];
        escaped := true;
      } else if ch == Quote {
        inQuotes := !inQuotes;
        b := b + [ch];
      } else if ch == Comma && !inQuotes {
        segments := segments + [b];
        b := [];
      } else {
        b := b + [ch];
      }
    }
    assert value[..|value|] == value;
    segments := segments + [b];
  }

  lemma JoinSnoc(parts: seq<text>, p: text)
    requires parts != []
    ensures Join(parts + [p]) == Join(parts) + [Comma] + p
  {
    assert (parts + [p])[..|parts|] == parts;
  }

  lemma JoinExtend(parts: seq<text>, b: byte)
    requires parts != []
    ensures Join(parts[|parts| - 1 := parts[|parts| - 1] + [b]]) == Join(parts) + [b]
  {
    var n := |parts| - 1;
    var longer := parts[n := parts[n] + [b]];
    if n > 0 {
      assert longer[..n] == parts[..n];
      assert Join(parts[..n]) + [Comma] + (parts[n] + [b]) == Join(parts[..n]) + [Comma] + parts[n] + [b];
    }
  }

  /** Nothing is lost by splitting: joining the segments with commas gives back any input. */
  lemma {:induction false} JoinOfSegments(s: text)
    ensures Join(Segments(s)) == s
  {
    if s != [] {
      var init, b := s[..|s| - 1], s[|s| - 1];
      JoinOfSegments(init);
      JoinSnoc(Segments(init), []);
      JoinExtend(Segments(init), b);
      assert init + [b] == s && init + [Comma] + [] == init + [Comma];
    }
  }

  /** No comma of `s` separates. */
  predicate Whole(s: text)
  {
    forall i :: 0 <= i < |s| ==> !Separates(s, i)
  }

  /** Whole, with all quotes closed at the end. */
  predicate Balanced(s: text)
  {
    Whole(s) && ScanFrom(Outside, s) == Outside
  }

  lemma {:induction false} ScanConcat(q: Scan, s: text, t: text)
    ensures ScanFrom(q, s + t) == ScanFrom(ScanFrom(q, s), t)
  {
    if t == [] {
      assert s + t == s;
    } else {
      assert (s + t)[..|s + t| - 1] == s + t[..|t| - 1];
      ScanConcat(q, s, t[..|t| - 1]);
    }
  }

  /** A whole piece scanned after balanced text only extends the last segment. */
  lemma {:induction false} SegmentsExtend(s: text, p: text)
    requires ScanFrom(Outside, s) == Outside && Whole(p)
    ensures var r := Segments(s); Segments(s + p) == r[|r| - 1 := r[|r| - 1] + p]
  {
    var r := Segments(s);
    if p == [] {
      assert s + p == s && r[|r| - 1] + [] == r[|r| - 1];
    } else {
      var init, b := p[..|p| - 1], p[|p| - 1];
      assert Whole(init) by {
        forall i | 0 <= i < |init|
          ensures !Separates(init, i)
        {
          assert init[..i] == p[..i];
          assert !Separates(p, i);
        }
      }
      SegmentsExtend(s, init);
      ScanConcat(Outside, s, init);
      assert (s + p)[..|s + p| - 1] == s + init;
      assert !Separates(p, |init|) && p[..|init|] == init;
      assert r[|r| - 1] + init + [b] == r[|r| - 1] + p by { assert init + [b] == p; }
    }
  }

  lemma SegmentsComma(s: text)
    requires ScanFrom(Outside, s) == Outside
    ensures Segments(s + [Comma]) == Segments(s) + [[]]
    ensures ScanFrom(Outside, s + [Comma]) == Outside
  {
    assert (s + [Comma])[..|s|] == s;
  }

  /** The other direction: splitting what was joined gives back pieces whose quotes are closed. */
  lemma {:induction false} SegmentsOfJoin(parts: seq<text>)
    requires parts != [] && forall i :: 0 <= i < |parts| ==> Balanced(parts[i])
    ensures Segments(Join(parts)) == parts
    ensures ScanFrom(Outside, Join(parts)) == Outside
  {
    var n := |parts| - 1;
    var last := parts[n];
    if n == 0 {
      assert parts == [last];
      SegmentsOfOne(last);
    } else {
      hide Segments, ScanFrom, Whole, Join;
      var init := parts[..n];
      assert parts == init + [last];
      JoinSnoc(init, last);
      SegmentsOfJoin(init);
      SegmentsComma(Join(init));
      SegmentsExtend(Join(init) + [Comma], last);
      ScanConcat(Outside, Join(init) + [Comma], last);
      assert [] + last == last;
    }
  }

  lemma SegmentsOfOne(s: text)
    requires Balanced(s)
    ensures Segments(s) == [s] && ScanFrom(Outside, s) == Outside
  {
    SegmentsExtend([], s);
    assert [] + s == s && Segments([]) == [[]];
  }

  // ---- auth-param values ---------------------------------------------------

  /** The text up to the closing quote, escapes removed; an unterminated quote runs to the end. */
  function Unescaped(s: text, escaped: bool): text
  {
    if s == [] then []
    else if escaped then [s[0]] + Unescaped(s[1..], false)
    else if s[0] == Backslash then Unescaped(s[1..], true)
    else if s[0] == Quote then []
    else [s[0]] + Unescaped(s[1..], false)
  }

  function ParamValue(raw: text): text
  {
    var t := TrimSpace(raw);
    if t == [] || t[0] != Quote then t else Unescaped(t[1..], false)
  }

  method ParseAuthParamValue(raw: text) returns (value: text)
    ensures value == ParamValue(raw)
  {
    var t := TrimSpace(raw);
    if t == [] || t[0] != Quote {
      return t;
    }
    value := [];
    var escaped := false;
    var i := 1;
    while i < |t|
      invariant 1 <= i <= |t|
      invariant value + Unescaped(t[i..], escaped) == Unescaped(t[1..], false)
    {
      var ch := t[i];
      assert t[i..][0] == ch && t[i..][1..] == t[i + 1..];
      if escaped {
        value := value + [ch];
        escaped := false;
      } else if ch == Backslash {
        escaped := true;
      } else if ch == Quote {
        return value;
      } else {
        value := value + [ch];
      }
      i := i + 1;
    }
  }

  // ---- printing ------------------------------------------------------------

  /** Every `b` replaced by `r`. */
  function ReplaceAll(s: text, b: byte, r: text): text
  {
    if s == [] then [] else (if s[0] == b then r else [s[0]]) + ReplaceAll(s[1..], b, r)
  }

  function StripCRLF(s: text): text
  {
    if s == [] then [] else (if s[0] == CR || s[0] == LF then [] else [s[0]]) + StripCRLF(s[1..])
  }

  /** Backslashes first, then quotes. */
  function Escape(s: text): text
  {
    ReplaceAll(ReplaceAll(s, Backslash, [Backslash, Backslash]), Quote, [Backslash, Quote])
  }

  function KvQuoted(name: text, value: text): text
  {
    name + [Equals, Quote] + Escape(StripCRLF(value)) + [Quote]
  }

  function KvUnquoted(name: text, value: text): text
  {
    name + [Equals] + value
  }

  lemma {:induction false} ReplaceAllConcat(s: text, t: text, b: byte, r: text)
    ensures ReplaceAll(s + t, b, r) == ReplaceAll(s, b, r) + ReplaceAll(t, b, r)
  {
    if s == [] {
      assert s + t == t;
    } else {
      assert (s + t)[1..] == s[1..] + t;
      ReplaceAllConcat(s[1..], t, b, r);
    }
  }

  /** Escaping byte by byte; the order of the two replacements keeps the added backslashes single. */
  lemma EscapeHead(s: text)
    requires s != []
    ensures Escape(s) == (if s[0] == Backslash || s[0] == Quote then [Backslash, s[0]] else [s[0]]) + Escape(s[1..])
  {
    var h: text := if s[0] == Backslash then [Backslash, Backslash] else [s[0]];
    ReplaceAllConcat(h, ReplaceAll(s[1..], Backslash, [Backslash, Backslash]), Quote, [Backslash, Quote]);
    ReplaceShort(h);
  }

  lemma ReplaceShort(h: text)
    requires |h| == 1 || (h == [Backslash, Backslash])
    ensures ReplaceAll(h, Quote, [Backslash, Quote]) == if h == [Quote] then [Backslash, Quote] else h
  {
    if |h| == 1 {
      assert h[1..] == [];
    } else {
      assert h[1..] == [Backslash] && h[1..][1..] == [];
    }
  }

  /** An escaped value followed by the closing quote reads back as the value. */
  lemma {:induction false} UnescapeEscape(v: text, rest: text)
    ensures Unescaped(Escape(v) + [Quote] + rest, false) == v
  {
    if v == [] {
      assert Escape(v) == [];
      assert [] + [Quote] + rest == [Quote] + rest;
    } else {
      EscapeHead(v);
      UnescapeEscape(v[1..], rest);
      var tail := Escape(v[1..]) + [Quote] + rest;
      if v[0] == Backslash || v[0] == Quote {
        assert Escape(v) + [Quote] + rest == [Backslash, v[0]] + tail;
        assert ([Backslash, v[0]] + tail)[1..] == [v[0]] + tail && ([v[0]] + tail)[1..] == tail;
      } else {
        assert Escape(v) + [Quote] + rest == [v[0]] + tail;
        assert ([v[0]] + tail)[1..] == tail;
      }
      assert [v[0]] + v[1..] == v;
    }
  }

  /** Inside quotes an escaped value neither closes them nor leaves a pending escape. */
  lemma {:induction false} EscapeStaysInside(v: text)
    ensures ScanFrom(Inside, Escape(v)) == Inside
    ensures forall k :: 0 <= k <= |Escape(v)| ==> ScanFrom(Inside, Escape(v)[..k]) != Outside
  {
    if v == [] {
      assert Escape(v) == [];
    } else {
      EscapeHead(v);
      EscapeStaysInside(v[1..]);
      var h: text := if v[0] == Backslash || v[0] == Quote then [Backslash, v[0]] else [v[0]];
      var e := Escape(v[1..]);
      assert Escape(v) == h + e;
      EscapeUnit(v[0]);
      ScanConcat(Inside, h, e);
      forall k | 0 <= k <= |Escape(v)|
        ensures ScanFrom(Inside, Escape(v)[..k]) != Outside
      {
        if k <= |h| {
          assert Escape(v)[..k] == h[..k];
        } else {
          assert Escape(v)[..k] == h + e[..k - |h|];
          ScanConcat(Inside, h, e[..k - |h|]);
        }
      }
    }
  }

  lemma EscapeUnit(b: byte)
    ensures var h: text := if b == Backslash || b == Quote then [Backslash, b] else [b];
            && ScanFrom(Inside, h) == Inside
            && forall k :: 0 <= k <= |h| ==> ScanFrom(Inside, h[..k]) != Outside
  {
    var h: text := if b == Backslash || b == Quote then [Backslash, b] else [b];
    assert h[..0] == [] && ScanFrom(Inside, []) == Inside;
    if |h| == 2 {
      assert h[..1] == [Backslash] && [Backslash][..0] == [];
      assert ScanFrom(Inside, [Backslash]) == Escaped;
    }
    assert h[..|h|] == h;
  }

  // ---- challenges ----------------------------------------------------------

  datatype Scheme = Basic | Digest

  datatype Challenge = Challenge(scheme: Scheme, realm: text, params: map<text, text>)

  const RealmName: text := Ascii("realm")

  function Param(c: Challenge, name: text): text
  {
    if name in c.params then c.params[name] else []
  }

  function WithParam(c: Challenge, name: text, value: text): Challenge
  {
    Challenge(c.scheme, if name == RealmName then value else c.realm, c.params[name := value])
  }

  /** One name=value segment added to a challenge; anything else leaves it as it is. */
  function AddParam(c: Challenge, segment: text): Challenge
  {
    var e := IndexOf(segment, Equals);
    if e == |segment| then c else
      var name := Lower(TrimSpace(segment[..e]));
      if name == [] then c else WithParam(c, name, ParamValue(segment[e + 1..]))
  }

  predicate IsBlank(b: byte) { b == Space || b == Tab }

  function FirstBlank(s: text): (i: nat)
    ensures i <= |s| && (i < |s| ==> IsBlank(s[i])) && forall k :: 0 <= k < i ==> !IsBlank(s[k])
  {
    if s == [] || IsBlank(s[0]) then 0 else 1 + FirstBlank(s[1..])
  }

  function TrimBlanks(s: text): text
  {
    if s != [] && IsBlank(s[0]) then TrimBlanks(s[1..]) else s
  }

  /** The challenges parsed so far, and whether the last is open for more params. */
  datatype Parsing = Parsing(done: seq<Challenge>, live: bool)

  function Open(p: Parsing, scheme: Scheme, rest: text): Parsing
  {
    var c := Challenge(scheme, [], map[]);
    Parsing(p.done + [if rest != [] then AddParam(c, rest) else c], true)
  }

  function Attach(p: Parsing, segment: text): Parsing
  {
    if !p.live || p.done == [] then p
    else p.(done := p.done[|p.done| - 1 := AddParam(p.done[|p.done| - 1], segment)])
  }

  const BasicName: text := Ascii("basic")
  const DigestName: text := Ascii("digest")

  function Absorb(p: Parsing, raw: text): Parsing
  {
    var segment := TrimSpace(raw);
    if segment == [] then p else
      var i := FirstBlank(segment);
      var head, rest := segment[..i], TrimBlanks(segment[i..]);
      if Lower(head) == BasicName then Open(p, Basic, rest)
      else if Lower(head) == DigestName then Open(p, Digest, rest)
      else if Equals !in head && !(rest != [] && rest[0] == Equals) then p.(live := false)
      else Attach(p, segment)
  }

  function AbsorbAll(p: Parsing, segments: seq<text>): Parsing
  {
    if segments == [] then p else Absorb(AbsorbAll(p, segments[..|segments| - 1]), segments[|segments| - 1])
  }

  /** The challenges of one header value. */
  function ParseValue(value: text): seq<Challenge>
  {
    AbsorbAll(Parsing([], false), Segments(value)).done
  }

  /** The parser's loop; `live` says whether trailing params have a challenge to attach to. */
  method ParseChallengeValue(value: text, before: seq<Challenge>) returns (challenges: seq<Challenge>)
    ensures challenges == AbsorbAll(Parsing(before, false), Segments(value)).done
  {
    challenges := before;
    var live := false;
    var segments := SplitChallengeSegments(value);
    for i := 0 to |segments|
      invariant Parsing(challenges, live) == AbsorbAll(Parsing(before, false), segments[..i])
    {
      assert segments[..i + 1][..i] == segments[..i];
      var segment := TrimSpace(segments[i]);
      if segment == [] {
        continue;
      }
      var k := FirstBlank(segment);
      var head, rest := segment[..k], TrimBlanks(segment[k..]);
      if Lower(head) == BasicName || Lower(head) == DigestName {
        var c := Challenge(if Lower(head) == BasicName then Basic else Digest, [], map[]);
        if rest != [] {
          c := AddParam(c, rest);
        }
        challenges := challenges + [c];
        live := true;
      } else if Equals !in head && (rest == [] || rest[0] != Equals) {
        live := false;
      } else if live && challenges != [] {
        challenges := challenges[|challenges| - 1 := AddParam(challenges[|challenges| - 1], segment)];
      }
    }
    assert segments[..|segments|] == segments;
  }

  // ---- printing challenges and reading them back ---------------------------

  /** An auth-param to print: quoted with any value, or bare with a token. */
  datatype Entry = Quoted(name: text, value: text) | Bare(name: text, value: text)

  predicate IsToken(s: text)
  {
    forall i :: 0 <= i < |s| ==> IsTokenChar(s[i])
  }

  /** A name the parser keeps as it is: a lower-case token. */
  predicate LowerToken(s: text)
  {
    s != [] && IsToken(s) && Lower(s) == s
  }

  predicate Printable(e: Entry)
  {
    LowerToken(e.name) && (e.Bare? ==> IsToken(e.value))
  }

  function Print(e: Entry): text
  {
    if e.Quoted? then KvQuoted(e.name, e.value) else KvUnquoted(e.name, e.value)
  }

  /** What is read back: the value, without CR and LF if it was quoted. */
  function Kept(e: Entry): text
  {
    if e.Quoted? then StripCRLF(e.value) else e.value
  }

  function Holding(c: Challenge, es: seq<Entry>): Challenge
  {
    if es == [] then c else
      var e := es[|es| - 1];
      WithParam(Holding(c, es[..|es| - 1]), e.name, Kept(e))
  }

  datatype Offer = Offer(scheme: Scheme, entries: seq<Entry>)

  function Title(s: Scheme): text
  {
    if s == Basic then Ascii("Basic ") else Ascii("Digest ")
  }

  /** Texts joined with a comma and a space. */
  function Listed(parts: seq<text>): text
  {
    if parts == [] then []
    else if |parts| == 1 then parts[0]
    else Listed(parts[..|parts| - 1]) + [Comma, Space] + parts[|parts| - 1]
  }

  function Prints(es: seq<Entry>): seq<text>
  {
    seq(|es|, i requires 0 <= i < |es| => Print(es[i]))
  }

  /** An offer as a header carries it. */
  function PrintOffer(o: Offer): text
  {
    Title(o.scheme) + Listed(Prints(o.entries))
  }

  /** The segments of a printed offer. */
  function Pieces(o: Offer, lead: text): (r: seq<text>)
    ensures r != []
    decreases |o.entries|
  {
    if |o.entries| <= 1 then [lead + (Title(o.scheme) + if o.entries == [] then [] else Print(o.entries[0]))]
    else Pieces(o.(entries := o.entries[..|o.entries| - 1]), lead) + [[Space] + Print(o.entries[|o.entries| - 1])]
  }

  function ReadBack(o: Offer): Challenge
  {
    Holding(Challenge(o.scheme, [], map[]), o.entries)
  }

  // -- one entry

  lemma TokenChars()
    ensures forall b: byte :: IsTokenChar(b) ==>
              b != Equals && b != Quote && b != Backslash && b != Comma && !IsSpace(b) && !IsBlank(b)
  {
    assert Ascii("!#$%&'*+-.^_`|~") == [33, 35, 36, 37, 38, 39, 42, 43, 45, 46, 94, 95, 96, 124, 126];
  }

  lemma {:induction false} TrimKept(s: text)
    requires s == [] || (!IsSpace(s[0]) && !IsSpace(s[|s| - 1]))
    ensures TrimSpace(s) == s
  {
  }

  lemma {:induction false} IndexOfFirst(s: text, t: text, b: byte)
    requires b !in s
    ensures IndexOf(s + [b] + t, b) == |s|
  {
    if s == [] {
      assert ([] + [b] + t)[0] == b;
    } else {
      assert (s + [b] + t)[1..] == s[1..] + [b] + t;
      IndexOfFirst(s[1..], t, b);
    }
  }

  lemma PrintEnds(e: Entry)
    requires Printable(e)
    ensures Print(e) != [] && !IsSpace(Print(e)[0]) && !IsSpace(Print(e)[|Print(e)| - 1])
    ensures TrimSpace(Print(e)) == Print(e) && TrimSpace([Space] + Print(e)) == Print(e)
  {
    TokenChars();
    assert IsTokenChar(e.name[0]);
    if e.Bare? && e.value != [] {
      assert IsTokenChar(e.value[|e.value| - 1]);
    }
    TrimKept(Print(e));
    assert ([Space] + Print(e))[1..] == Print(e);
  }

  /** Reading one printed entry adds exactly it. */
  lemma AddPrinted(c: Challenge, e: Entry)
    requires Printable(e)
    ensures AddParam(c, Print(e)) == WithParam(c, e.name, Kept(e))
  {
    TokenChars();
    hide IsTokenChar;
    var after := if e.Quoted? then [Quote] + Escape(StripCRLF(e.value)) + [Quote] else e.value;
    assert Print(e) == e.name + [Equals] + after by {
      assert [Equals, Quote] == [Equals] + [Quote];
    }
    assert Equals !in e.name;
    IndexOfFirst(e.name, after, Equals);
    var p := Print(e);
    assert p[..|e.name|] == e.name && p[|e.name| + 1..] == after;
    assert IsTokenChar(e.name[0]) && IsTokenChar(e.name[|e.name| - 1]);
    TrimKept(e.name);
    ValueOfPrinted(e, after);
  }

  lemma ValueOfPrinted(e: Entry, after: text)
    requires Printable(e)
    requires after == if e.Quoted? then [Quote] + Escape(StripCRLF(e.value)) + [Quote] else e.value
    ensures ParamValue(after) == Kept(e)
  {
    TokenChars();
    hide IsTokenChar;
    if e.Quoted? {
      TrimKept(after);
      UnescapeEscape(StripCRLF(e.value), []);
      var v := Escape(StripCRLF(e.value));
      assert after[1..] == v + [Quote] && v + [Quote] + [] == v + [Quote];
    } else {
      assert after != [] ==> IsTokenChar(after[0]) && IsTokenChar(after[|after| - 1]);
      TrimKept(after);
    }
  }

  lemma {:induction false} TokenScan(s: text)
    requires forall i :: 0 <= i < |s| ==> s[i] != Quote
    ensures ScanFrom(Outside, s) == Outside
  {
    if s != [] {
      TokenScan(s[..|s| - 1]);
    }
  }

  /** A prefix without quotes or commas does not disturb balance. */
  lemma BalancedAfter(s: text, p: text)
    requires forall i :: 0 <= i < |s| ==> s[i] != Quote && s[i] != Comma
    requires Balanced(p)
    ensures Balanced(s + p)
  {
    TokenScan(s);
    ScanConcat(Outside, s, p);
    forall i | 0 <= i < |s + p|
      ensures !Separates(s + p, i)
    {
      if i >= |s| {
        assert (s + p)[..i] == s + p[..i - |s|];
        ScanConcat(Outside, s, p[..i - |s|]);
        assert !Separates(p, i - |s|);
      }
    }
  }

  lemma QuotedBalanced(v: text)
    ensures Balanced([Quote] + Escape(v) + [Quote])
  {
    EscapeStaysInside(v);
    var e := Escape(v);
    var q := [Quote] + e + [Quote];
    assert [Quote][..0] == [] && ScanFrom(Outside, [Quote]) == Inside;
    ScanConcat(Outside, [Quote], e);
    assert q[..|q| - 1] == [Quote] + e;
    forall i | 0 <= i < |q|
      ensures !Separates(q, i)
    {
      if 0 < i < |q| - 1 {
        assert q[..i] == [Quote] + e[..i - 1];
        ScanConcat(Outside, [Quote], e[..i - 1]);
      }
    }
  }

  lemma PrintBalanced(e: Entry)
    requires Printable(e)
    ensures Balanced(Print(e))
  {
    TokenChars();
    hide IsTokenChar;
    if e.Quoted? {
      var v := StripCRLF(e.value);
      QuotedBalanced(v);
      BalancedAfter(e.name + [Equals], [Quote] + Escape(v) + [Quote]);
      assert Print(e) == e.name + [Equals] + ([Quote] + Escape(v) + [Quote]) by {
        assert [Equals, Quote] == [Equals] + [Quote];
      }
    } else {
      assert Balanced([]);
      BalancedAfter(Print(e), []);
      assert Print(e) + [] == Print(e);
    }
  }

  // -- whole values

  lemma {:induction false} FirstBlankOf(s: text, t: text)
    requires forall i :: 0 <= i < |s| ==> !IsBlank(s[i])
    ensures FirstBlank(s + [Space] + t) == |s|
  {
    if s == [] {
      assert ([] + [Space] + t)[0] == Space;
    } else {
      assert (s + [Space] + t)[1..] == s[1..] + [Space] + t;
      FirstBlankOf(s[1..], t);
    }
  }

  /** A printed entry, whatever blanks its value holds, is not mistaken for a scheme. */
  lemma AbsorbEntry(p: Parsing, e: Entry)
    requires Printable(e) && p.live && p.done != []
    ensures Absorb(p, [Space] + Print(e)) ==
            p.(done := p.done[|p.done| - 1 := WithParam(p.done[|p.done| - 1], e.name, Kept(e))])
  {
    hide IsTokenChar, Print, Printable, AddParam, FirstBlank, TrimBlanks, Lower, TrimSpace, Kept, WithParam;
    hide BasicName, DigestName;
    PrintEnds(e);
    AddPrinted(p.done[|p.done| - 1], e);
    NameFirst(e);
    var seg := Print(e);
    var head := seg[..FirstBlank(seg)];
    assert head[|e.name|] == Equals;
    HeadIsNoScheme(head, |e.name|);
  }

  lemma NameFirst(e: Entry)
    requires Printable(e)
    ensures |e.name| < FirstBlank(Print(e)) && Print(e)[|e.name|] == Equals
  {
    TokenChars();
    hide IsTokenChar, Escape, StripCRLF;
    assert forall k :: 0 <= k < |e.name| ==> Print(e)[k] == e.name[k];
  }

  lemma HeadIsNoScheme(head: text, k: nat)
    requires k < |head| && head[k] == Equals
    ensures Lower(head) != BasicName && Lower(head) != DigestName
  {
    assert Lower(head)[k] == Equals;
    assert BasicName == [98, 97, 115, 105, 99];
    assert DigestName == [100, 105, 103, 101, 115, 116];
  }

  lemma Titles(s: Scheme)
    ensures |Title(s)| > 1 && Title(s)[|Title(s)| - 1] == Space
    ensures !IsSpace(Title(s)[0]) && !IsSpace(Title(s)[|Title(s)| - 2])
    ensures forall i :: 0 <= i < |Title(s)| - 1 ==> !IsBlank(Title(s)[i])
    ensures forall i :: 0 <= i < |Title(s)| ==> Title(s)[i] != Quote && Title(s)[i] != Comma
    ensures Lower(Title(s)[..|Title(s)| - 1]) == (if s == Basic then BasicName else DigestName)
    ensures BasicName != DigestName
  {
    assert Ascii("Basic ") == [66, 97, 115, 105, 99, 32];
    assert Ascii("Digest ") == [68, 105, 103, 101, 115, 116, 32];
    assert BasicName == [98, 97, 115, 105, 99];
    assert DigestName == [100, 105, 103, 101, 115, 116];
  }

  /** A segment that is a scheme name, a space and text opens a challenge with that text. */
  lemma AbsorbNamed(p: Parsing, s: Scheme, body: text, lead: text)
    requires body != [] && !IsSpace(body[0]) && !IsSpace(body[|body| - 1]) && (lead == [] || lead == [Space])
    ensures Absorb(p, lead + (Title(s) + body)) ==
            Parsing(p.done + [AddParam(Challenge(s, [], map[]), body)], true)
  {
    hide AddParam, Lower, Title, FirstBlank, TrimBlanks, TrimSpace;
    Titles(s);
    var t := Title(s);
    var name := t[..|t| - 1];
    var seg := t + body;
    TrimKept(seg);
    TrimLead(lead, seg, seg);
    FirstBlankOf(name, body);
    assert seg == name + [Space] + body;
    assert seg[..|name|] == name && seg[|name|..] == [Space] + body;
    TrimOneBlank(body);
  }

  lemma AbsorbBare(p: Parsing, s: Scheme, lead: text)
    requires lead == [] || lead == [Space]
    ensures Absorb(p, lead + (Title(s) + [])) == Parsing(p.done + [Challenge(s, [], map[])], true)
  {
    hide AddParam, Lower, Title, FirstBlank, TrimSpace;
    Titles(s);
    var t := Title(s);
    var name := t[..|t| - 1];
    TrimTail(name);
    assert t + [] == t == name + [Space];
    TrimLead(lead, t, name);
    NoBlank(name);
    assert name[..|name|] == name && name[|name|..] == [];
  }

  /** The first piece of an offer opens its challenge with its first entry. */
  lemma AbsorbTitle(p: Parsing, s: Scheme, es: seq<Entry>, lead: text)
    requires |es| <= 1 && (forall i :: 0 <= i < |es| ==> Printable(es[i])) && (lead == [] || lead == [Space])
    ensures Absorb(p, lead + (Title(s) + if es == [] then [] else Print(es[0]))) ==
            Parsing(p.done + [Holding(Challenge(s, [], map[]), es)], true)
  {
    hide AddParam, Absorb, Title, Print, Printable, Kept;
    if es == [] {
      AbsorbBare(p, s, lead);
    } else {
      PrintEnds(es[0]);
      AbsorbNamed(p, s, Print(es[0]), lead);
      AddPrinted(Challenge(s, [], map[]), es[0]);
      assert es[..0] == [];
    }
  }

  lemma TrimTail(name: text)
    requires name != [] && !IsSpace(name[0]) && !IsSpace(name[|name| - 1])
    ensures TrimSpace(name + [Space]) == name
  {
    TrimKept(name);
    assert (name + [Space])[..|name|] == name;
  }

  lemma TrimLead(lead: text, s: text, t: text)
    requires (lead == [] || lead == [Space]) && TrimSpace(s) == t
    ensures TrimSpace(lead + s) == t
  {
    if lead == [Space] {
      assert (lead + s)[1..] == s;
    } else {
      assert lead + s == s;
    }
  }

  lemma {:induction false} NoBlank(s: text)
    requires forall i :: 0 <= i < |s| ==> !IsBlank(s[i])
    ensures FirstBlank(s) == |s|
  {
  }

  lemma TrimOneBlank(s: text)
    requires s != [] && !IsSpace(s[0])
    ensures TrimBlanks([Space] + s) == s
  {
    assert ([Space] + s)[1..] == s;
  }

  lemma AbsorbSnoc(p: Parsing, segments: seq<text>, last: text)
    ensures AbsorbAll(p, segments + [last]) == Absorb(AbsorbAll(p, segments), last)
  {
    assert (segments + [last])[..|segments|] == segments;
  }

  predicate PrintableOffer(o: Offer)
  {
    forall i :: 0 <= i < |o.entries| ==> Printable(o.entries[i])
  }

  /** Reading the pieces of one offer, after anything, yields exactly its challenge. */
  lemma {:induction false} AbsorbPieces(p: Parsing, o: Offer, lead: text)
    requires PrintableOffer(o) && (lead == [] || lead == [Space])
    ensures AbsorbAll(p, Pieces(o, lead)) == Parsing(p.done + [ReadBack(o)], true)
    decreases |o.entries|
  {
    hide Absorb, Print, Printable, Title, Kept;
    var n := |o.entries| - 1;
    if n <= 0 {
      AbsorbTitle(p, o.scheme, o.entries, lead);
      var first := lead + (Title(o.scheme) + if o.entries == [] then [] else Print(o.entries[0]));
      assert AbsorbAll(p, [] + [first]) == Absorb(p, first) by { AbsorbSnoc(p, [], first); }
      assert [] + [first] == Pieces(o, lead);
    } else {
      var init := o.(entries := o.entries[..n]);
      AbsorbPieces(p, init, lead);
      AbsorbSnoc(p, Pieces(init, lead), [Space] + Print(o.entries[n]));
      AbsorbEntry(Parsing(p.done + [ReadBack(init)], true), o.entries[n]);
    }
  }

  /** Each piece has its quotes closed, so the splitter cuts the printed offer exactly there. */
  lemma {:induction false} PiecesBalanced(o: Offer, lead: text)
    requires PrintableOffer(o) && (lead == [] || lead == [Space])
    ensures forall i :: 0 <= i < |Pieces(o, lead)| ==> Balanced(Pieces(o, lead)[i])
    decreases |o.entries|
  {
    hide Print, Printable, Title, Balanced;
    var n := |o.entries| - 1;
    if n > 0 {
      PiecesBalanced(o.(entries := o.entries[..n]), lead);
      PrintBalanced(o.entries[n]);
      BalancedAfter([Space], Print(o.entries[n]));
    } else {
      var body: text := if o.entries == [] then [] else Print(o.entries[0]);
      assert Balanced(body) by {
        if o.entries != [] {
          PrintBalanced(o.entries[0]);
        } else {
          EmptyBalanced();
        }
      }
      Titles(o.scheme);
      BalancedAfter(Title(o.scheme), body);
      BalancedAfter(lead, Title(o.scheme) + body);
    }
  }

  lemma EmptyBalanced()
    ensures Balanced([])
  {
  }

  lemma {:induction false} JoinOfPieces(o: Offer)
    ensures Join(Pieces(o, [])) == PrintOffer(o)
    decreases |o.entries|
  {
    hide Print, Title;
    var n := |o.entries| - 1;
    if n > 0 {
      var init := o.(entries := o.entries[..n]);
      JoinOfPieces(init);
      JoinSnoc(Pieces(init, []), [Space] + Print(o.entries[n]));
      assert Prints(o.entries)[..n] == Prints(init.entries);
      assert [Comma] + ([Space] + Print(o.entries[n])) == [Comma, Space] + Print(o.entries[n]);
    } else {
      assert Prints(o.entries) == if o.entries == [] then [] else [Print(o.entries[0])];
    }
  }

  /**
   Printing then parsing is the identity: any offer of lower-case token names and any values, with
   commas, quotes, backslashes, blanks and '=' signs in the quoted ones, reads back as one challenge
   holding exactly those params, CR and LF dropped from quoted values, a repeated name keeping its last.
   */
  lemma PrintParse(o: Offer)
    requires PrintableOffer(o)
    ensures ParseValue(PrintOffer(o)) == [ReadBack(o)]
  {
    hide AbsorbAll, Segments, Pieces, PrintOffer, ReadBack, Balanced, Printable;
    JoinOfPieces(o);
    PiecesBalanced(o, []);
    SegmentsOfJoin(Pieces(o, []));
    AbsorbPieces(Parsing([], false), o, []);
  }

  predicate DistinctNames(es: seq<Entry>)
  {
    forall i, j :: 0 <= i < j < |es| ==> es[i].name != es[j].name
  }

  predicate Names(es: seq<Entry>, name: text)
  {
    exists i :: 0 <= i < |es| && es[i].name == name
  }

  lemma HoldingSnoc(c: Challenge, es: seq<Entry>)
    requires es != []
    ensures var e := es[|es| - 1]; var r := Holding(c, es[..|es| - 1]);
            Holding(c, es).params == r.params[e.name := Kept(e)] && Holding(c, es).scheme == r.scheme
  {
  }

  /** With distinct names, the params are exactly the entries' names and kept values. */
  lemma {:induction false} ParamsOf(c: Challenge, es: seq<Entry>, k: nat)
    requires DistinctNames(es) && k < |es|
    ensures Param(Holding(c, es), es[k].name) == Kept(es[k])
  {
    HoldingSnoc(c, es);
    hide Holding, Kept;
    var init := es[..|es| - 1];
    if k < |init| {
      ParamsOf(c, init, k);
      assert init[k] == es[k];
    }
  }

  lemma {:induction false} NoOtherParams(c: Challenge, es: seq<Entry>, name: text)
    ensures name in Holding(c, es).params <==> name in c.params || Names(es, name)
  {
    if es != [] {
      HoldingSnoc(c, es);
      hide Holding, Kept;
      var n := |es| - 1;
      NoOtherParams(c, es[..n], name);
      assert forall i :: 0 <= i < n ==> es[..n][i] == es[i];
    }
  }

  // ---- answering -----------------------------------------------------------

  datatype Algorithm = MD5 | SHA256

  const NonceName: text := Ascii("nonce")
  const QopName: text := Ascii("qop")
  const AlgorithmName: text := Ascii("algorithm")
  const OpaqueName: text := Ascii("opaque")
  const UsernameName: text := Ascii("username")
  const UriName: text := Ascii("uri")
  const NcName: text := Ascii("nc")
  const CNonceName: text := Ascii("cnonce")
  const ResponseName: text := Ascii("response")
  const AuthToken: text := Ascii("auth")

  datatype AuthError = UnsupportedAuth | MissingNonce | MissingCNonce

  datatype Outcome<T> = Done(value: T) | Failed(error: AuthError)

  function DigestHash(algorithm: text): Outcome<Algorithm>
  {
    if algorithm == [] || Lower(algorithm) == Ascii("md5") then Done(MD5)
    else if Lower(algorithm) == Ascii("sha-256") then Done(SHA256)
    else Failed(UnsupportedAuth)
  }

  predicate QopOffersAuth(qop: text)
  {
    exists v :: v in Split(qop, Comma) && Lower(TrimSpace(v)) == AuthToken
  }

  predicate DigestAnswerable(c: Challenge)
  {
    && Param(c, NonceName) != []
    && DigestHash(Param(c, AlgorithmName)).Done?
    && var qop := TrimSpace(Param(c, QopName)); qop == [] || QopOffersAuth(qop)
  }

  datatype Credentials = Credentials(username: text, password: text)

  datatype Input = Input(verb: text, uri: text, cnonce: text, nonceCount: nat)

  /** Eight lower-case hex digits. */
  function Hex(n: nat, width: nat): text
  {
    if width == 0 then [] else
      var d: byte := n % 16;
      Hex(n / 16, width - 1) + [if d < 10 then 48 + d else 87 + d]
  }

  const Colons: text := [Colon]

  function Colonned(parts: seq<text>): text
  {
    if parts == [] then [] else
      if |parts| == 1 then parts[0] else Colonned(parts[..|parts| - 1]) + Colons + parts[|parts| - 1]
  }

  /** The RFC 7616 response, or the RFC 2069 one without qop; `h` is the hex digest. */
  function Response(h: (Algorithm, text) -> text, alg: Algorithm, username: text, realm: text, password: text,
                    verb: text, uri: text, nonce: text, qop: Option<(text, text)>): text
  {
    var ha1 := h(alg, Colonned([username, realm, password]));
    var ha2 := h(alg, Colonned([verb, uri]));
    match qop
    case None => h(alg, Colonned([ha1, nonce, ha2]))
    case Some((nc, cnonce)) => h(alg, Colonned([ha1, nonce, nc, cnonce, AuthToken, ha2]))
  }

  datatype Option<T> = None | Some(value: T)

  function DigestEntries(h: (Algorithm, text) -> text, c: Challenge, creds: Credentials, i: Input): Outcome<seq<Entry>>
  {
    var nonce, algorithm := Param(c, NonceName), Param(c, AlgorithmName);
    if nonce == [] then Failed(MissingNonce)
    else if DigestHash(algorithm).Failed? then Failed(DigestHash(algorithm).error)
    else
      var alg := DigestHash(algorithm).value;
      var common := [Quoted(UsernameName, creds.username), Quoted(RealmName, c.realm), Quoted(NonceName, nonce),
        Quoted(UriName, i.uri)];
      var trailer := if OpaqueName in c.params then [Quoted(OpaqueName, c.params[OpaqueName])] else [];
      var qop := TrimSpace(Param(c, QopName));
      if qop != [] then
        if !QopOffersAuth(qop) then Failed(UnsupportedAuth)
        else if i.cnonce == [] then Failed(MissingCNonce)
        else
          var nc := Hex(i.nonceCount, 8);
          var response :=
            Response(h, alg, creds.username, c.realm, creds.password, i.verb, i.uri, nonce, Some((nc, i.cnonce)));
          Done(common
               + [Bare(AlgorithmName, if algorithm == [] then Ascii("MD5") else algorithm), Bare(QopName, AuthToken),
                 Bare(NcName, nc),
                  Quoted(CNonceName, i.cnonce), Quoted(ResponseName, response)]
               + trailer)
      else
        var response := Response(h, alg, creds.username, c.realm, creds.password, i.verb, i.uri, nonce, None);
        Done(common
             + (if algorithm != [] then [Bare(AlgorithmName, algorithm)] else [])
             + [Quoted(ResponseName, response)]
             + trailer)
  }

  /** The Authorization value. */
  function DigestAuthorization(h: (Algorithm, text) -> text, c: Challenge, creds: Credentials, i: Input): Outcome<text>
  {
    match DigestEntries(h, c, creds, i)
    case Done(es) => Done(PrintOffer(Offer(Digest, es)))
    case Failed(e) => Failed(e)
  }

  /** Position of a name in the order the answer lists its fields. */
  function NameOrder(name: text): nat
  {
    if name == UsernameName then 0 else if name == RealmName then 1 else if name == NonceName then 2
    else if name == UriName then 3 else if name == AlgorithmName then 4 else if name == QopName then 5
    else if name == NcName then 6 else if name == CNonceName then 7 else if name == ResponseName then 8
    else if name == OpaqueName then 9 else 10
  }

  lemma NameOrders()
    ensures NameOrder(UsernameName) == 0 && NameOrder(RealmName) == 1 && NameOrder(NonceName) == 2
    ensures NameOrder(UriName) == 3 && NameOrder(AlgorithmName) == 4 && NameOrder(QopName) == 5
    ensures NameOrder(NcName) == 6 && NameOrder(CNonceName) == 7 && NameOrder(ResponseName) == 8
    ensures NameOrder(OpaqueName) == 9
  {
    assert RealmName[0] == 114 && NonceName[0] == 110 && UriName[0] == 117 && QopName[0] == 113;
    assert UsernameName[0] == 117 && ResponseName[0] == 114 && CNonceName[0] == 99 && OpaqueName[0] == 111;
  }

  predicate Ordered(es: seq<Entry>)
  {
    forall i, j :: 0 <= i < j < |es| ==> NameOrder(es[i].name) < NameOrder(es[j].name)
  }

  /** Printable entries in the answer's order, from `lo` up to before `hi`. */
  predicate Listable(es: seq<Entry>, lo: nat, hi: nat)
  {
    Ordered(es) && forall i :: 0 <= i < |es| ==> Printable(es[i]) && lo <= NameOrder(es[i].name) < hi
  }

  lemma ListableConcat(a: seq<Entry>, b: seq<Entry>, lo: nat, mid: nat, hi: nat)
    requires Listable(a, lo, mid) && Listable(b, mid, hi) && lo <= mid <= hi
    ensures Listable(a + b, lo, hi)
  {
  }

  lemma ListableOne(e: Entry, k: nat)
    requires Printable(e) && NameOrder(e.name) == k
    ensures Listable([e], k, k + 1)
  {
  }

  lemma ListableSnoc(a: seq<Entry>, e: Entry, lo: nat, k: nat)
    requires Listable(a, lo, k) && Printable(e) && NameOrder(e.name) == k && lo <= k
    ensures Listable(a + [e], lo, k + 1)
  {
    ListableOne(e, k);
    ListableConcat(a, [e], lo, k, k + 1);
  }

  lemma NamesPrintable()
    ensures LowerToken(UsernameName) && LowerToken(RealmName) && LowerToken(NonceName) && LowerToken(UriName)
    ensures LowerToken(AlgorithmName) && LowerToken(QopName) && LowerToken(NcName) && LowerToken(CNonceName)
    ensures LowerToken(ResponseName) && LowerToken(OpaqueName) && IsToken(AuthToken)
  {
    LettersAreTokens("username");
    LettersAreTokens("realm");
    LettersAreTokens("nonce");
    LettersAreTokens("uri");
    LettersAreTokens("algorithm");
    LettersAreTokens("qop");
    LettersAreTokens("nc");
    LettersAreTokens("cnonce");
    LettersAreTokens("response");
    LettersAreTokens("opaque");
    LettersAreTokens("auth");
  }

  lemma LettersAreTokens(s: string)
    requires s != "" && forall i :: 0 <= i < |s| ==> 'a' <= s[i] <= 'z'
    ensures LowerToken(Ascii(s))
  {
  }

  lemma {:induction false} HexIsToken(n: nat, width: nat)
    ensures IsToken(Hex(n, width))
  {
    if width != 0 {
      HexIsToken(n / 16, width - 1);
    }
  }

  /** An algorithm the digest accepts is a token, so it can be echoed bare. */
  lemma AlgorithmIsToken(algorithm: text)
    requires DigestHash(algorithm).Done?
    ensures IsToken(algorithm)
  {
    assert Ascii("md5") == [109, 100, 53];
    assert Ascii("sha-256") == [115, 104, 97, 45, 50, 53, 54];
    TokenDash();
    forall i | 0 <= i < |algorithm|
      ensures IsTokenChar(algorithm[i])
    {
      var l := Lower(algorithm)[i];
      assert l == if 65 <= algorithm[i] <= 90 then algorithm[i] + 32 else algorithm[i];
      assert l in [109, 100, 53, 115, 104, 97, 45, 50, 53, 54];
    }
  }

  lemma TokenDash()
    ensures IsTokenChar(45)
  {
    assert Ascii("!#$%&'*+-.^_`|~")[8] == 45;
  }

  lemma EchoIsToken(algorithm: text)
    requires DigestHash(algorithm).Done?
    ensures var echo := if algorithm == [] then Ascii("MD5") else algorithm;
            IsToken(echo) && DigestHash(echo) == DigestHash(algorithm)
  {
    assert Ascii("MD5") == [77, 68, 53] && Ascii("md5") == [109, 100, 53];
    assert Lower(Ascii("MD5")) == Ascii("md5");
    AlgorithmIsToken(Ascii("MD5"));
    AlgorithmIsToken(algorithm);
  }

  lemma CommonListable(username: text, realm: text, nonce: text, uri: text)
    ensures Listable([Quoted(UsernameName, username), Quoted(RealmName, realm), Quoted(NonceName, nonce),
                      Quoted(UriName, uri)], 0, 4)
  {
    NameOrders();
    NamesPrintable();
    hide NameOrder, LowerToken, UsernameName, RealmName, NonceName, UriName, Ordered;
    var a, b, c, d := Quoted(UsernameName, username), Quoted(RealmName, realm), Quoted(NonceName, nonce),
      Quoted(UriName, uri);
    ListableOne(a, 0);
    ListableSnoc([a], b, 0, 1);
    assert [a] + [b] == [a, b];
    ListableSnoc([a, b], c, 0, 2);
    assert [a, b] + [c] == [a, b, c];
    ListableSnoc([a, b, c], d, 0, 3);
    assert [a, b, c] + [d] == [a, b, c, d];
  }

  lemma QopListable(algorithm: text, nc: text, cnonce: text, response: text)
    requires IsToken(algorithm) && IsToken(nc)
    ensures Listable([Bare(AlgorithmName, algorithm), Bare(QopName, AuthToken), Bare(NcName, nc),
                      Quoted(CNonceName, cnonce), Quoted(ResponseName, response)], 4, 9)
  {
    NameOrders();
    NamesPrintable();
    hide NameOrder, LowerToken, IsToken, AlgorithmName, QopName, NcName, CNonceName, ResponseName, AuthToken, Ordered;
    var a, b, c, d, e := Bare(AlgorithmName, algorithm), Bare(QopName, AuthToken), Bare(NcName, nc),
      Quoted(CNonceName, cnonce), Quoted(ResponseName, response);
    ListableOne(a, 4);
    ListableSnoc([a], b, 4, 5);
    assert [a] + [b] == [a, b];
    ListableSnoc([a, b], c, 4, 6);
    assert [a, b] + [c] == [a, b, c];
    ListableSnoc([a, b, c], d, 4, 7);
    assert [a, b, c] + [d] == [a, b, c, d];
    ListableSnoc([a, b, c, d], e, 4, 8);
    assert [a, b, c, d] + [e] == [a, b, c, d, e];
  }

  lemma LegacyListable(algorithm: text, response: text)
    requires IsToken(algorithm)
    ensures Listable((if algorithm != [] then [Bare(AlgorithmName, algorithm)] else [])
                     + [Quoted(ResponseName, response)], 4, 9)
  {
    NameOrders();
    NamesPrintable();
  }

  /** The fields of an answer print without ambiguity: lower-case token names, each once. */
  lemma EntriesWellFormed(h: (Algorithm, text) -> text, c: Challenge, creds: Credentials, i: Input)
    requires DigestEntries(h, c, creds, i).Done?
    ensures Listable(DigestEntries(h, c, creds, i).value, 0, 10)
  {
    var nonce, algorithm := Param(c, NonceName), Param(c, AlgorithmName);
    HexIsToken(i.nonceCount, 8);
    EchoIsToken(algorithm);
    AlgorithmIsToken(algorithm);
    CommonListable(creds.username, c.realm, nonce, i.uri);
    var last := if OpaqueName in c.params then [Quoted(OpaqueName, c.params[OpaqueName])] else [];
    assert Listable(last, 9, 10) by {
      NameOrders();
      NamesPrintable();
    }
    hide Listable, IsToken, Response, Hex, QopOffersAuth, DigestHash, TrimSpace, Param;
    hide UsernameName, RealmName, NonceName, UriName, AlgorithmName, QopName, NcName, CNonceName, ResponseName,
        OpaqueName, AuthToken;
    var es := DigestEntries(h, c, creds, i).value;
    var common := [Quoted(UsernameName, creds.username), Quoted(RealmName, c.realm), Quoted(NonceName, nonce),
      Quoted(UriName, i.uri)];
    var alg := DigestHash(algorithm).value;
    if TrimSpace(Param(c, QopName)) != [] {
      var nc := Hex(i.nonceCount, 8);
      var response :=
        Response(h, alg, creds.username, c.realm, creds.password, i.verb, i.uri, nonce, Some((nc, i.cnonce)));
      var echo := if algorithm == [] then Ascii("MD5") else algorithm;
      QopListable(echo, nc, i.cnonce, response);
      var middle := [Bare(AlgorithmName, echo), Bare(QopName, AuthToken), Bare(NcName, nc),
                     Quoted(CNonceName, i.cnonce), Quoted(ResponseName, response)];
      ListableConcat(common, middle, 0, 4, 9);
      ListableConcat(common + middle, last, 0, 9, 10);
    } else {
      var response := Response(h, alg, creds.username, c.realm, creds.password, i.verb, i.uri, nonce, None);
      LegacyListable(algorithm, response);
      var middle := (if algorithm != [] then [Bare(AlgorithmName, algorithm)] else []) + [Quoted(ResponseName, response)];
      ListableConcat(common, middle, 0, 4, 9);
      ListableConcat(common + middle, last, 0, 9, 10);
      assert es == common + middle + last;
    }
  }

  /** The value of one field in the header as a server reads it. */
  function ReadField(value: text, name: text): text
  {
    var cs := ParseValue(value);
    if |cs| == 1 then Param(cs[0], name) else []
  }

  lemma {:induction false} OrderedDistinct(es: seq<Entry>)
    requires Ordered(es)
    ensures DistinctNames(es)
  {
  }

  /** Every field of the answer reads back, and no other. */
  lemma AnswerReadsBack(h: (Algorithm, text) -> text, c: Challenge, creds: Credentials, i: Input, name: text)
    requires DigestAuthorization(h, c, creds, i).Done?
    ensures var es := DigestEntries(h, c, creds, i).value; var v := DigestAuthorization(h, c, creds, i).value;
            && |ParseValue(v)| == 1 && ParseValue(v)[0].scheme == Digest
            && (name in ParseValue(v)[0].params <==> Names(es, name))
            && (forall k :: 0 <= k < |es| ==> ReadField(v, es[k].name) == Kept(es[k]))
  {
    hide DigestEntries, PrintOffer, ParseValue, Kept, Holding;
    var es := DigestEntries(h, c, creds, i).value;
    EntriesWellFormed(h, c, creds, i);
    OrderedDistinct(es);
    PrintParse(Offer(Digest, es));
    var empty := Challenge(Digest, [], map[]);
    NoOtherParams(empty, es, name);
    SchemeKept(empty, es);
    forall k | 0 <= k < |es|
      ensures Param(Holding(empty, es), es[k].name) == Kept(es[k])
    {
      ParamsOf(empty, es, k);
    }
  }

  lemma {:induction false} SchemeKept(c: Challenge, es: seq<Entry>)
    ensures Holding(c, es).scheme == c.scheme
  {
    if es != [] {
      SchemeKept(c, es[..|es| - 1]);
    }
  }

  predicate Clean(s: text)
  {
    CR !in s && LF !in s
  }

  lemma {:induction false} StripClean(s: text)
    requires Clean(s)
    ensures StripCRLF(s) == s
  {
    if s != [] {
      StripClean(s[1..]);
    }
  }

  /** What a server holding the password computes from the fields it read. */
  function Recomputed(h: (Algorithm, text) -> text, value: text, password: text, verb: text): text
  {
    var alg := DigestHash(ReadField(value, AlgorithmName));
    if alg.Failed? then [] else
      Response(h, alg.value, ReadField(value, UsernameName), ReadField(value, RealmName), password, verb,
               ReadField(value, UriName), ReadField(value, NonceName),
               if ReadField(value, QopName) == [] then None
               else Some((ReadField(value, NcName), ReadField(value, CNonceName))))
  }

  /** The fields by position: four common ones, then the qop block or the legacy tail. */
  lemma FieldsOf(h: (Algorithm, text) -> text, c: Challenge, creds: Credentials, i: Input)
    requires DigestEntries(h, c, creds, i).Done?
    ensures var es := DigestEntries(h, c, creds, i).value; var algorithm := Param(c, AlgorithmName);
            && |es| >= 5
            && es[..4] == [Quoted(UsernameName, creds.username), Quoted(RealmName, c.realm),
                           Quoted(NonceName, Param(c, NonceName)), Quoted(UriName, i.uri)]
            && DigestHash(algorithm).Done?
            && (TrimSpace(Param(c, QopName)) != [] ==>
                  && |es| >= 9
                  && es[4..8] == [Bare(AlgorithmName, if algorithm == [] then Ascii("MD5") else algorithm),
                                  Bare(QopName, AuthToken),
                                  Bare(NcName, Hex(i.nonceCount, 8)), Quoted(CNonceName, i.cnonce)]
                  && es[8] == Quoted(ResponseName,
                                     Response(h, DigestHash(algorithm).value, creds.username, c.realm, creds.password,
                                              i.verb, i.uri, Param(c, NonceName),
                                              Some((Hex(i.nonceCount, 8), i.cnonce)))))
            && (TrimSpace(Param(c, QopName)) == [] ==>
                  var k := if algorithm == [] then 4 else 5;
                  && |es| > k
                  && (k == 5 ==> es[4] == Bare(AlgorithmName, algorithm))
                  && es[k] == Quoted(ResponseName,
                                     Response(h, DigestHash(algorithm).value, creds.username, c.realm, creds.password,
                                              i.verb, i.uri, Param(c, NonceName), None))
                  && forall j :: k < j < |es| ==> es[j].name == OpaqueName)
  {
    hide Listable, IsToken, Response, Hex, QopOffersAuth, DigestHash, TrimSpace, Param;
    hide UsernameName, RealmName, NonceName, UriName, AlgorithmName, QopName, NcName, CNonceName, ResponseName,
        OpaqueName, AuthToken;
  }

  lemma MissingReadsEmpty(h: (Algorithm, text) -> text, c: Challenge, creds: Credentials, i: Input, name: text)
    requires DigestAuthorization(h, c, creds, i).Done? && !Names(DigestEntries(h, c, creds, i).value, name)
    ensures ReadField(DigestAuthorization(h, c, creds, i).value, name) == []
  {
    hide DigestEntries, PrintOffer, ParseValue;
    AnswerReadsBack(h, c, creds, i, name);
  }

  /**
   The server's check comes out right: for values without CR and LF, the response in the printed
   header is the one computed from the fields as they read back from that header.
   */
  lemma ServerVerifies(h: (Algorithm, text) -> text, c: Challenge, creds: Credentials, i: Input)
    requires DigestAuthorization(h, c, creds, i).Done?
    requires Clean(creds.username) && Clean(c.realm) && Clean(Param(c, NonceName)) && Clean(i.uri) && Clean(i.cnonce)
    ensures var v := DigestAuthorization(h, c, creds, i).value;
            ReadField(v, ResponseName) == StripCRLF(Recomputed(h, v, creds.password, i.verb))
  {
    FieldsOf(h, c, creds, i);
    StripClean(creds.username);
    StripClean(c.realm);
    StripClean(Param(c, NonceName));
    StripClean(i.uri);
    StripClean(i.cnonce);
    AnswerReadsBack(h, c, creds, i, QopName);
    EchoIsToken(Param(c, AlgorithmName));
    assert AuthToken != [];
    NoQop(h, c, creds, i);
    hide DigestEntries, DigestAuthorization, ReadField, Response, Hex, DigestHash, Param, Clean, StripCRLF, TrimSpace;
    hide UsernameName, RealmName, NonceName, UriName, AlgorithmName, QopName, NcName, CNonceName, ResponseName,
        OpaqueName, AuthToken;
    var es := DigestEntries(h, c, creds, i).value;
    var v := DigestAuthorization(h, c, creds, i).value;
    CommonFields(es, v, creds.username, c.realm, Param(c, NonceName), i.uri);
    if TrimSpace(Param(c, QopName)) != [] {
      assert es[4] == es[4..8][0] && es[5] == es[4..8][1] && es[6] == es[4..8][2] && es[7] == es[4..8][3];
    }
  }

  lemma CommonFields(es: seq<Entry>, v: text, username: text, realm: text, nonce: text, uri: text)
    requires |es| >= 5 && forall k :: 0 <= k < |es| ==> ReadField(v, es[k].name) == Kept(es[k])
    requires es[..4] == [Quoted(UsernameName, username), Quoted(RealmName, realm), Quoted(NonceName, nonce),
      Quoted(UriName, uri)]
    ensures ReadField(v, UsernameName) == StripCRLF(username) && ReadField(v, RealmName) == StripCRLF(realm)
    ensures ReadField(v, NonceName) == StripCRLF(nonce) && ReadField(v, UriName) == StripCRLF(uri)
  {
    hide ReadField, StripCRLF, UsernameName, RealmName, NonceName, UriName;
    assert es[0] == es[..4][0] && es[1] == es[..4][1] && es[2] == es[..4][2] && es[3] == es[..4][3];
  }

  /** Without qop the answer names no qop, and names an algorithm only when the challenge did. */
  lemma NoQop(h: (Algorithm, text) -> text, c: Challenge, creds: Credentials, i: Input)
    requires DigestAuthorization(h, c, creds, i).Done? && DigestEntries(h, c, creds, i).Done?
    ensures var v := DigestAuthorization(h, c, creds, i).value;
            TrimSpace(Param(c, QopName)) == [] ==>
              && ReadField(v, QopName) == []
              && (Param(c, AlgorithmName) == [] ==> ReadField(v, AlgorithmName) == [])
  {
    FieldsOf(h, c, creds, i);
    NameOrders();
    var es := DigestEntries(h, c, creds, i).value;
    EntriesWellFormed(h, c, creds, i);
    hide DigestEntries, DigestAuthorization, ReadField, Response, Hex, DigestHash, Param, TrimSpace, NameOrder;
    hide UsernameName, RealmName, NonceName, UriName, AlgorithmName, QopName, NcName, CNonceName, ResponseName,
        OpaqueName, AuthToken;
    if TrimSpace(Param(c, QopName)) == [] {
      Unnamed(es, if Param(c, AlgorithmName) == [] then 4 else 5);
      MissingReadsEmpty(h, c, creds, i, QopName);
      if Param(c, AlgorithmName) == [] {
        MissingReadsEmpty(h, c, creds, i, AlgorithmName);
      }
    }
  }

  lemma Unnamed(es: seq<Entry>, k: nat)
    requires Ordered(es) && 4 <= k <= 5 && k < |es| && es[k].name == ResponseName && es[3].name == UriName
    requires k == 5 ==> es[4].name == AlgorithmName
    ensures !Names(es, QopName) && (k == 4 ==> !Names(es, AlgorithmName))
  {
    NameOrders();
    hide NameOrder, UriName, AlgorithmName, QopName, ResponseName;
    forall j | 0 <= j < |es|
      ensures es[j].name != QopName && (k == 4 ==> es[j].name != AlgorithmName)
    {
      OrderedAt(es, j, 3);
      OrderedAt(es, 3, j);
      OrderedAt(es, k, j);
      if k == 5 {
        OrderedAt(es, j, 4);
      }
    }
  }

  lemma OrderedAt(es: seq<Entry>, i: int, j: int)
    requires Ordered(es)
    ensures 0 <= i < j < |es| ==> NameOrder(es[i].name) < NameOrder(es[j].name)
  {
  }

  // ---- choosing ------------------------------------------------------------

  /** How good a challenge is: SHA-256 Digest, other Digest, Basic, or of no use. */
  function Strength(c: Challenge): nat
  {
    if c.scheme == Basic then 1
    else if !DigestAnswerable(c) then 0
    else if Lower(Param(c, AlgorithmName)) == Ascii("sha-256") then 3
    else 2
  }

  function Authorize(h: (Algorithm, text) -> text, basic: Credentials -> text, c: Challenge, creds: Credentials,
    i: Input): Outcome<text>
  {
    if c.scheme == Basic then Done(basic(creds)) else DigestAuthorization(h, c, creds, i)
  }

  /** Challenges of some strength are exactly those that can be answered, given a client nonce. */
  lemma UsefulIffAnswerable(h: (Algorithm, text) -> text, basic: Credentials -> text, c: Challenge,
    creds: Credentials, i: Input)
    requires i.cnonce != []
    ensures Strength(c) > 0 <==> Authorize(h, basic, c, creds, i).Done?
  {
    hide QopOffersAuth, DigestHash, TrimSpace, Param, PrintOffer, Response, Hex;
  }

  /** The selection loop: the first of the strongest challenges, if any is usable. */
  method SelectChallenge(cs: seq<Challenge>) returns (k: nat, ok: bool)
    ensures ok <==> exists j :: 0 <= j < |cs| && Strength(cs[j]) > 0
    ensures ok ==> k < |cs| && Strength(cs[k]) > 0
    ensures ok ==> forall j :: 0 <= j < |cs| ==> Strength(cs[j]) <= Strength(cs[k])
    ensures ok ==> forall j :: 0 <= j < k ==> Strength(cs[j]) < Strength(cs[k])
  {
    hide DigestAnswerable, Param;
    var digest, basic := |cs|, |cs|;
    var i := 0;
    while i < |cs|
      invariant 0 <= i <= |cs| && 0 <= digest <= |cs| && 0 <= basic <= |cs|
      invariant forall j :: 0 <= j < i ==> Strength(cs[j]) < 3
      invariant digest < |cs| ==> digest < i && Strength(cs[digest]) == 2
      invariant forall j :: 0 <= j < i && j < digest ==> Strength(cs[j]) != 2
      invariant basic < |cs| ==> basic < i && Strength(cs[basic]) == 1
      invariant forall j :: 0 <= j < i && j < basic ==> Strength(cs[j]) != 1
    {
      var c := cs[i];
      if c.scheme == Digest {
        if DigestAnswerable(c) {
          if Lower(Param(c, AlgorithmName)) == Ascii("sha-256") {
            return i, true;
          }
          if digest == |cs| {
            digest := i;
          }
        }
      } else if basic == |cs| {
        basic := i;
      }
      i := i + 1;
    }
    if digest < |cs| {
      return digest, true;
    }
    if basic < |cs| {
      return basic, true;
    }
    return 0, false;
  }
}
