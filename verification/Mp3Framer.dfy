/**
 The streaming MPEG audio framer: whole coded frames out of an arbitrarily chunked byte stream,
 leading ID3v2 tags of any size skipped as they arrive.  `Drain` is the reference: one decision
 at a time on the unconsumed bytes, each recorded in a log.
 */
module Mp3Framer {
  import opened Bits
  import opened Mpeg

  const TagHeaderLen: nat := 10

  datatype Event =
    | Tag(bytes: seq<byte>)
    | Garbage(bytes: seq<byte>)
    | FalseSync(b: byte)
    | Delivered(frame: seq<byte>, hdr: Header)

  /** Unconsumed bytes, tag bytes still to skip, the flags, and the log of everything consumed. */
  datatype State = State(rem: seq<byte>, skip: nat, synced: bool, ended: bool, log: seq<Event>)

  const Start := State([], 0, false, false, [])

  // ---- ID3v2 tags ----------------------------------------------------------

  predicate TagMagic(b: seq<byte>)
  {
    |b| >= 3 && b[0] == 73 && b[1] == 68 && b[2] == 51
  }

  /** A tag header with a syncsafe size; anything else that starts "ID3" is audio. */
  predicate TagHeader(b: seq<byte>)
  {
    TagMagic(b) && |b| >= TagHeaderLen && b[6] < 128 && b[7] < 128 && b[8] < 128 && b[9] < 128
  }

  /** Header, syncsafe body, and a footer when flagged. */
  function TagLen(b: seq<byte>): (n: nat)
    requires TagHeader(b)
    ensures n >= TagHeaderLen
  {
    var size := (((b[6] as nat) * 128 + b[7]) * 128 + b[8]) * 128 + b[9];
    TagHeaderLen + size + if (b[5] / 16) % 2 == 1 then TagHeaderLen else 0
  }

  // ---- scanning ------------------------------------------------------------

  predicate HeaderAt(rem: seq<byte>, i: nat)
  {
    i + HeaderLen <= |rem| && Parse(rem[i..]).Some?
  }

  function Scan(rem: seq<byte>, i: nat): (r: Option<nat>)
    ensures r.Some? ==> i <= r.value && HeaderAt(rem, r.value)
    ensures forall j: nat {:trigger HeaderAt(rem, j)} :: i <= j && (r.Some? ==> j < r.value) ==> !HeaderAt(rem, j)
    decreases |rem| - i
  {
    if i + HeaderLen > |rem| then None
    else if HeaderAt(rem, i) then Some(i)
    else Scan(rem, i + 1)
  }

  lemma Prefilter(b: seq<byte>)
    requires HeaderLen <= |b|
    ensures Parse(b).Some? ==> b[0] == 0xFF && b[1] >= 0xE0
  {
  }

  /** The scanning loop, with its sync prefilter, finds the first valid header. */
  method ScanHeader(rem: seq<byte>) returns (r: Option<nat>)
    ensures r == Scan(rem, 0)
  {
    hide Parse;
    var i := 0;
    while i + HeaderLen <= |rem|
      invariant Scan(rem, 0) == Scan(rem, i)
    {
      if rem[i] == 0xFF && rem[i + 1] >= 0xE0 {
        if Parse(rem[i..]).Some? {
          return Some(i);
        }
      } else {
        Prefilter(rem[i..]);
      }
      i := i + 1;
    }
    return None;
  }

  /** Same version, layer and sampling rate. */
  predicate SameKind(a: Header, b: Header)
  {
    a.version == b.version && a.layer == b.layer && a.sampleRate == b.sampleRate
  }

  /** The bytes behind a frame start with a header of its kind. */
  predicate Consistent(rest: seq<byte>, h: Header)
    requires HeaderLen <= |rest|
  {
    Parse(rest).Some? && SameKind(Parse(rest).value, h)
  }

  // ---- one decision --------------------------------------------------------

  datatype Verdict = Wait | SkipTag(n: nat) | Lose(n: nat) | Reject | Accept(hdr: Header, synced: bool)

  function JudgeFrame(s: State): (v: Verdict)
    requires HeaderLen <= |s.rem| && Parse(s.rem).Some?
    ensures v.Accept? ==> Parse(s.rem) == Some(v.hdr) && v.hdr.frameLen <= |s.rem|
    ensures !v.SkipTag? && !v.Lose?
  {
    var h := Parse(s.rem).value;
    if |s.rem| < h.frameLen then Wait
    else if |s.rem| >= h.frameLen + HeaderLen then
      if Consistent(s.rem[h.frameLen..], h) then Accept(h, true)
      else if s.synced then Accept(h, false)
      else Reject
    else if !s.synced && !s.ended then Wait
    else Accept(h, s.synced)
  }

  function JudgeAudio(s: State): (v: Verdict)
    ensures v.Lose? ==> 0 < v.n <= |s.rem|
    ensures v.Reject? ==> s.rem != []
    ensures v.Accept? ==> HeaderLen <= |s.rem| && Parse(s.rem) == Some(v.hdr) && v.hdr.frameLen <= |s.rem|
    ensures !v.SkipTag?
  {
    match Scan(s.rem, 0)
    case None => if |s.rem| > HeaderLen - 1 then Lose(|s.rem| - (HeaderLen - 1)) else Wait
    case Some(i) =>
      if i > 0 then Lose(i) else
        assert s.rem[0..] == s.rem;
        JudgeFrame(s)
  }

  function Judge(s: State): (v: Verdict)
    ensures v.SkipTag? ==> v.n > 0 && s.rem != []
    ensures v.Lose? ==> 0 < v.n <= |s.rem|
    ensures v.Reject? ==> s.rem != []
    ensures v.Accept? ==> HeaderLen <= |s.rem| && Parse(s.rem) == Some(v.hdr) && v.hdr.frameLen <= |s.rem|
  {
    if s.skip > 0 then if s.rem == [] then Wait else SkipTag(s.skip)
    else if TagMagic(s.rem) && |s.rem| < TagHeaderLen then Wait
    else if TagHeader(s.rem) then SkipTag(TagLen(s.rem))
    else JudgeAudio(s)
  }

  function Min(a: nat, b: nat): nat { if a < b then a else b }

  function Act(s: State, v: Verdict): (s': State)
    requires v == Judge(s) && !v.Wait?
    ensures |s'.rem| < |s.rem| && s'.ended == s.ended
  {
    match v
    case SkipTag(n) =>
      var k := Min(n, |s.rem|);
      s.(rem := s.rem[k..], skip := n - k, log := s.log + [Tag(s.rem[..k])])
    case Lose(n) => s.(rem := s.rem[n..], synced := false, log := s.log + [Garbage(s.rem[..n])])
    case Reject => s.(rem := s.rem[1..], log := s.log + [FalseSync(s.rem[0])])
    case Accept(h, synced) =>
      s.(rem := s.rem[h.frameLen..], synced := synced, log := s.log + [Delivered(s.rem[..h.frameLen], h)])
  }

  /** Everything the framer can do without more bytes. */
  function Drain(s: State): (s': State)
    ensures Judge(s').Wait?
    decreases |s.rem|
  {
    var v := Judge(s);
    if v.Wait? then s else Drain(Act(s, v))
  }

  datatype Outcome = Outcome(state: State, ok: bool)

  /** One call: act until a frame is delivered or nothing more can be done. */
  function Next(s: State): (r: Outcome)
    ensures !r.ok ==> Judge(r.state).Wait?
    ensures r.ok ==> r.state.log != [] && r.state.log[|r.state.log| - 1].Delivered?
    ensures |r.state.rem| <= |s.rem| && (r.ok ==> |r.state.rem| < |s.rem|)
    decreases |s.rem|
  {
    var v := Judge(s);
    if v.Wait? then Outcome(s, false)
    else if v.Accept? then Outcome(Act(s, v), true)
    else Next(Act(s, v))
  }

  lemma {:induction false} DrainByNext(s: State)
    ensures Drain(s) == if Next(s).ok then Drain(Next(s).state) else Next(s).state
    decreases |s.rem|
  {
    hide Judge, Act;
    var v := Judge(s);
    if !v.Wait? && !v.Accept? {
      DrainByNext(Act(s, v));
    }
  }

  // ---- accounting ----------------------------------------------------------

  function BytesOf(e: Event): seq<byte>
  {
    match e
    case Tag(b) => b
    case Garbage(b) => b
    case FalseSync(b) => [b]
    case Delivered(f, _) => f
  }

  function Consumed(log: seq<Event>): seq<byte>
  {
    if log == [] then [] else Consumed(log[..|log| - 1]) + BytesOf(log[|log| - 1])
  }

  /** Discards charged: garbage and false syncs, not tags. */
  function Gaps(log: seq<Event>): nat
  {
    if log == [] then 0 else
      var e := log[|log| - 1];
      Gaps(log[..|log| - 1]) + if e.Garbage? || e.FalseSync? then 1 else 0
  }

  /** The log without its tags. */
  function NonTags(log: seq<Event>): seq<Event>
  {
    if log == [] then [] else
      NonTags(log[..|log| - 1]) + if log[|log| - 1].Tag? then [] else [log[|log| - 1]]
  }

  lemma LogSnoc(log: seq<Event>, e: Event)
    ensures Consumed(log + [e]) == Consumed(log) + BytesOf(e)
    ensures Gaps(log + [e]) == Gaps(log) + (if e.Garbage? || e.FalseSync? then 1 else 0)
    ensures NonTags(log + [e]) == NonTags(log) + (if e.Tag? then [] else [e])
  {
    assert (log + [e])[..|log|] == log;
  }

  /** A decision takes its bytes off the front of the buffer and logs them. */
  lemma ActTakes(s: State) returns (e: Event)
    requires !Judge(s).Wait?
    ensures var t := Act(s, Judge(s)); t.log == s.log + [e] && s.rem == BytesOf(e) + t.rem
  {
    hide Judge, Parse;
    e := Act(s, Judge(s)).log[|s.log|];
  }

  lemma ActConsumes(s: State)
    requires !Judge(s).Wait?
    ensures var t := Act(s, Judge(s)); Consumed(t.log) + t.rem == Consumed(s.log) + s.rem
  {
    hide Judge, Act, Consumed, NonTags, Gaps, BytesOf;
    var t := Act(s, Judge(s));
    var e := ActTakes(s);
    LogSnoc(s.log, e);
    assert Consumed(s.log) + BytesOf(e) + t.rem == Consumed(s.log) + (BytesOf(e) + t.rem);
  }

  /** The front bytes are no tag header, whatever follows. */
  predicate NoTagHere(all: seq<byte>)
  {
    |all| >= 3 && (TagMagic(all) ==> |all| >= TagHeaderLen && !TagHeader(all))
  }

  /**
   Why an event was right, given the bytes that follow it.  Garbage holds no position whose four-byte
   window was not there to be tested, and none that passed; a false sync has a header whose successor
   is not of its kind; a frame is exactly what its header declares.
   */
  predicate Justified(e: Event, rest: seq<byte>)
  {
    var all := BytesOf(e) + rest;
    match e
    case Tag(_) => false
    case Garbage(b) =>
      && b != [] && NoTagHere(all)
      && |b| + HeaderLen - 1 <= |all|
      && forall k: nat {:trigger HeaderAt(all, k)} :: k < |b| ==> !HeaderAt(all, k)
    case FalseSync(_) =>
      && HeaderAt(all, 0)
      && Parse(all).Some? && Parse(all).value.frameLen + HeaderLen <= |all|
      && !Consistent(all[Parse(all).value.frameLen..], Parse(all).value)
    case Delivered(f, h) =>
      HeaderLen <= |all| && Parse(all) == Some(h) && |f| == h.frameLen
  }

  /**
   The log accounts for the bytes in front of `rest`, every event justified by what follows it, and
   `skip` bytes of a tag are still to come: tags start with a header and end where it says.
   */
  predicate Explains(log: seq<Event>, rest: seq<byte>, skip: nat)
    decreases log
  {
    if log == [] then skip == 0 else
      var init, e := log[..|log| - 1], log[|log| - 1];
      var all := BytesOf(e) + rest;
      if e.Tag? then
        && e.bytes != []
        && (Explains(init, all, skip + |e.bytes|)
            || (Explains(init, all, 0) && TagHeader(all) && TagLen(all) == skip + |e.bytes|))
      else skip == 0 && Explains(init, all, 0) && Justified(e, rest)
  }

  lemma TagStable(all: seq<byte>, more: seq<byte>)
    ensures TagHeader(all) ==> TagHeader(all + more) && TagLen(all + more) == TagLen(all)
    ensures NoTagHere(all) ==> NoTagHere(all + more)
  {
  }

  lemma HeaderStable(all: seq<byte>, more: seq<byte>, k: nat)
    requires k + HeaderLen <= |all|
    ensures HeaderAt(all + more, k) <==> HeaderAt(all, k)
    ensures Parse((all + more)[k..]) == Parse(all[k..])
  {
    hide Parse;
    assert (all + more)[k..] == all[k..] + more;
    ParseStable(all[k..], more);
  }

  lemma JustifiedStable(e: Event, rest: seq<byte>, more: seq<byte>)
    requires Justified(e, rest)
    ensures Justified(e, rest + more)
  {
    hide Parse, HeaderAt, TagHeader, TagMagic, NoTagHere;
    var all := BytesOf(e) + rest;
    assert BytesOf(e) + (rest + more) == all + more;
    match e
    case Garbage(b) =>
      TagStable(all, more);
      forall k: nat | k < |b| ensures !HeaderAt(all + more, k) {
        assert !HeaderAt(all, k);
        HeaderStable(all, more, k);
      }
    case FalseSync(_) =>
      FrontStable(all, more);
      var n := Parse(all).value.frameLen;
      assert (all + more)[n..] == all[n..] + more;
      ParseStable(all[n..], more);
    case Delivered(f, h) =>
      ParseStable(all, more);
  }

  lemma FrontStable(all: seq<byte>, more: seq<byte>)
    requires HeaderAt(all, 0)
    ensures HeaderAt(all + more, 0) && Parse(all + more) == Parse(all)
  {
    hide Parse;
    HeaderStable(all, more, 0);
    assert (all + more)[0..] == all + more && all[0..] == all;
  }

  lemma {:induction false} ExplainsMore(log: seq<Event>, rest: seq<byte>, skip: nat, more: seq<byte>)
    requires Explains(log, rest, skip)
    ensures Explains(log, rest + more, skip)
    decreases |log|
  {
    hide Justified, TagHeader, TagLen;
    if log != [] {
      var init, e := log[..|log| - 1], log[|log| - 1];
      var all := BytesOf(e) + rest;
      assert BytesOf(e) + (rest + more) == all + more;
      if e.Tag? {
        TagStable(all, more);
        if Explains(init, all, skip + |e.bytes|) {
          ExplainsMore(init, all, skip + |e.bytes|, more);
        } else {
          ExplainsMore(init, all, 0, more);
        }
      } else {
        JustifiedStable(e, rest, more);
        ExplainsMore(init, all, 0, more);
      }
    }
  }

  lemma ExplainsTag(log: seq<Event>, e: Event, rest: seq<byte>, skip: nat)
    requires e.Tag? && e.bytes != []
    requires var all := e.bytes + rest;
             || Explains(log, all, skip + |e.bytes|)
             || (Explains(log, all, 0) && TagHeader(all) && TagLen(all) == skip + |e.bytes|)
    ensures Explains(log + [e], rest, skip)
  {
    hide TagHeader, TagLen;
    assert (log + [e])[..|log|] == log;
  }

  lemma ExplainsOther(log: seq<Event>, e: Event, rest: seq<byte>)
    requires !e.Tag? && Explains(log, BytesOf(e) + rest, 0) && Justified(e, rest)
    ensures Explains(log + [e], rest, 0)
  {
    hide Justified;
    assert (log + [e])[..|log|] == log;
  }

  /** A decision other than skipping a tag is justified by the bytes it leaves. */
  lemma ActJustified(s: State) returns (e: Event)
    requires !Judge(s).Wait? && !Judge(s).SkipTag?
    ensures var t := Act(s, Judge(s));
            && t.log == s.log + [e] && s.rem == BytesOf(e) + t.rem && !e.Tag? && t.skip == 0 && s.skip == 0
            && Justified(e, t.rem)
  {
    hide Parse, TagLen;
    var t := Act(s, Judge(s));
    e := t.log[|s.log|];
    assert s.rem == BytesOf(e) + t.rem;
    assert s.rem[0..] == s.rem;
  }

  /** One decision keeps the account. */
  lemma ActExplains(s: State)
    requires !Judge(s).Wait? && Explains(s.log, s.rem, s.skip)
    ensures var t := Act(s, Judge(s)); Explains(t.log, t.rem, t.skip)
  {
    hide Parse, TagLen, TagHeader, Explains, Justified, JudgeAudio;
    if Judge(s).SkipTag? {
      var t := Act(s, Judge(s));
      var k := |s.rem| - |t.rem|;
      var e := Tag(s.rem[..k]);
      assert s.rem[..k] + s.rem[k..] == s.rem;
      ExplainsTag(s.log, e, t.rem, t.skip);
    } else {
      var e := ActJustified(s);
      ExplainsOther(s.log, e, Act(s, Judge(s)).rem);
    }
  }

  lemma {:induction false} DrainExplains(s: State)
    requires Explains(s.log, s.rem, s.skip)
    ensures Explains(Drain(s).log, Drain(s).rem, Drain(s).skip)
    decreases |s.rem|
  {
    hide Judge, Act, Explains;
    if !Judge(s).Wait? {
      ActExplains(s);
      DrainExplains(Act(s, Judge(s)));
    }
  }

  lemma {:induction false} DrainConsumes(s: State)
    ensures Consumed(Drain(s).log) + Drain(s).rem == Consumed(s.log) + s.rem
    decreases |s.rem|
  {
    hide Judge, Consumed;
    if !Judge(s).Wait? {
      ActConsumes(s);
      DrainConsumes(Act(s, Judge(s)));
    }
  }

  /** After a drain the backlog is less than one frame and one header, however large a tag is. */
  lemma BacklogBound(s: State)
    ensures |Drain(s).rem| <= MaxFrameLen + HeaderLen - 1
  {
    hide Parse, TagLen;
    assert Judge(Drain(s)).Wait?;
  }

  function Fed(s: State, p: seq<byte>): State { s.(rem := s.rem + p) }

  function Rounds(s: State, chunks: seq<seq<byte>>): State
    decreases |chunks|
  {
    if chunks == [] then s else Rounds(Drain(Fed(s, chunks[0])), chunks[1..])
  }

  /** The whole life of a framer: rounds of feed and drain, then end of stream and a last drain. */
  function Session(chunks: seq<seq<byte>>): State
  {
    Drain(Rounds(Start, chunks).(ended := true))
  }

  /** Discard count after Finish, which charges a truncated final frame once. */
  function GapsAtEnd(s: State): nat { Gaps(s.log) + if s.rem != [] then 1 else 0 }

  function Concat(ss: seq<seq<byte>>): seq<byte>
  {
    if ss == [] then [] else ss[0] + Concat(ss[1..])
  }

  lemma {:induction false} RoundsConsume(s: State, chunks: seq<seq<byte>>)
    ensures var s' := Rounds(s, chunks); Consumed(s'.log) + s'.rem == Consumed(s.log) + s.rem + Concat(chunks)
    decreases |chunks|
  {
    hide Drain, Consumed;
    if chunks != [] {
      var f := Fed(s, chunks[0]);
      DrainConsumes(f);
      RoundsConsume(Drain(f), chunks[1..]);
      assert Consumed(s.log) + s.rem + (chunks[0] + Concat(chunks[1..])) == Consumed(f.log) + f.rem + Concat(chunks[1..]);
    } else {
      assert Consumed(s.log) + s.rem + [] == Consumed(s.log) + s.rem;
    }
  }

  lemma {:induction false} RoundsExplain(s: State, chunks: seq<seq<byte>>)
    requires Explains(s.log, s.rem, s.skip)
    ensures var t := Rounds(s, chunks); Explains(t.log, t.rem, t.skip)
    decreases |chunks|
  {
    hide Drain, Explains;
    if chunks != [] {
      ExplainsMore(s.log, s.rem, s.skip, chunks[0]);
      DrainExplains(Fed(s, chunks[0]));
      RoundsExplain(Drain(Fed(s, chunks[0])), chunks[1..]);
    }
  }

  /**
   On arbitrary bytes in arbitrary chunks: tags, frames and discards, in order, followed by the
   unconsumed tail, are the stream; every discard was justified by the bytes behind it, tags were
   skipped to exactly where their headers say, and the tail is less than a frame and a header.
   */
  lemma SessionExplains(chunks: seq<seq<byte>>)
    ensures var s := Session(chunks);
            && Consumed(s.log) + s.rem == Concat(chunks)
            && Explains(s.log, s.rem, s.skip)
            && |s.rem| <= MaxFrameLen + HeaderLen - 1
  {
    hide Drain, Rounds;
    RoundsConsume(Start, chunks);
    RoundsExplain(Start, chunks);
    var r := Rounds(Start, chunks).(ended := true);
    DrainConsumes(r);
    DrainExplains(r);
    BacklogBound(r);
    assert Consumed(Start.log) + Start.rem + Concat(chunks) == Concat(chunks);
  }

  // ---- well-formed streams -------------------------------------------------

  predicate IsTag(t: seq<byte>) { TagHeader(t) && TagLen(t) == |t| }

  predicate IsFrame(f: seq<byte>)
  {
    HeaderLen <= |f| && Parse(f).Some? && Parse(f).value.frameLen == |f|
  }

  predicate SameStream(fs: seq<seq<byte>>)
  {
    && (forall i :: 0 <= i < |fs| ==> IsFrame(fs[i]))
    && forall i, j :: 0 <= i < |fs| && 0 <= j < |fs| ==> SameKind(Parse(fs[i]).value, Parse(fs[j]).value)
  }

  predicate AllTags(ts: seq<seq<byte>>)
  {
    forall i :: 0 <= i < |ts| ==> IsTag(ts[i])
  }

  function EventOf(f: seq<byte>): Event
    requires IsFrame(f)
  {
    Delivered(f, Parse(f).value)
  }

  function EventsOf(fs: seq<seq<byte>>): (r: seq<Event>)
    requires forall i :: 0 <= i < |fs| ==> IsFrame(fs[i])
    ensures |r| == |fs|
  {
    seq(|fs|, i requires 0 <= i < |fs| => EventOf(fs[i]))
  }

  /** What is still to come: the rest of a tag, whole tags, frames, and anything at all behind them. */
  datatype Plan = Plan(tail: seq<byte>, tags: seq<seq<byte>>, frames: seq<seq<byte>>, junk: seq<byte>) {
    predicate Valid() { AllTags(tags) && SameStream(frames) }
    function Bytes(): seq<byte> { tail + (Concat(tags) + (Concat(frames) + junk)) }
    predicate Finished() { tail == [] && tags == [] && frames == [] }
  }

  /** The buffer holds a prefix of the plan, all of it at the end of the stream. */
  predicate Follows(s: State, p: Plan)
  {
    && p.Valid() && s.skip == |p.tail| && s.rem <= p.Bytes()
    && (s.ended ==> s.rem == p.Bytes())
    && (s.synced || |p.frames| != 1 || p.junk == [])
  }

  predicate IsSuffix(a: seq<byte>, b: seq<byte>)
  {
    |a| <= |b| && a == b[|b| - |a|..]
  }

  lemma SuffixTrans(a: seq<byte>, b: seq<byte>, c: seq<byte>)
    requires IsSuffix(a, b) && IsSuffix(b, c)
    ensures IsSuffix(a, c)
  {
  }

  lemma HeadParses(f: seq<byte>, rem: seq<byte>)
    requires IsFrame(f) && HeaderLen <= |rem| && rem[..HeaderLen] == f[..HeaderLen]
    ensures Parse(rem) == Parse(f)
  {
    ParseStable(rem[..HeaderLen], rem[HeaderLen..]);
    assert rem == rem[..HeaderLen] + rem[HeaderLen..];
    ParseStable(f[..HeaderLen], f[HeaderLen..]);
    assert f == f[..HeaderLen] + f[HeaderLen..];
  }

  lemma TagHead(t: seq<byte>, rem: seq<byte>)
    requires IsTag(t) && TagHeaderLen <= |rem| && rem[..TagHeaderLen] == t[..TagHeaderLen]
    ensures TagHeader(rem) && TagLen(rem) == |t|
  {
    forall i | 0 <= i < TagHeaderLen ensures rem[i] == t[i] {
      assert rem[..TagHeaderLen][i] == t[..TagHeaderLen][i];
    }
  }

  /** In the middle of a tag its bytes are taken as they come. */
  lemma JudgeTail(s: State, p: Plan) returns (q: Plan)
    requires Follows(s, p) && p.tail != []
    ensures var v := Judge(s);
            if v.Wait? then !s.ended
            else
              v.SkipTag? && Follows(Act(s, v), q) && q.frames == p.frames && q.junk == p.junk
              && |q.Bytes()| - |Act(s, v).rem| == |p.Bytes()| - |s.rem| && IsSuffix(q.Bytes(), p.Bytes())
  {
    hide Parse, TagLen, JudgeAudio, SameStream, AllTags, Concat;
    var k := Min(|p.tail|, |s.rem|);
    q := p.(tail := p.tail[k..]);
    assert p.Bytes()[k..] == q.Bytes();
  }

  /** In front of a tag: wait for its header, then skip the length it declares. */
  lemma JudgeTag(s: State, p: Plan) returns (q: Plan)
    requires Follows(s, p) && p.tail == [] && p.tags != []
    ensures var v := Judge(s);
            if v.Wait? then !s.ended
            else
              v.SkipTag? && Follows(Act(s, v), q) && q.frames == p.frames && q.junk == p.junk
              && |q.Bytes()| - |Act(s, v).rem| == |p.Bytes()| - |s.rem| && IsSuffix(q.Bytes(), p.Bytes())
  {
    hide Parse, TagLen, JudgeAudio, SameStream;
    q := p;
    var t := p.tags[0];
    var rest := Concat(p.tags[1..]) + (Concat(p.frames) + p.junk);
    assert IsTag(t);
    assert p.Bytes() == t + rest;
    if |s.rem| >= TagHeaderLen {
      assert s.rem[..TagHeaderLen] == t[..TagHeaderLen];
      var k := Min(|t|, |s.rem|);
      q := p.(tail := t[k..], tags := p.tags[1..]);
      TagCut(t, rest, k, q);
      TagDecided(s, t);
      hide Judge, IsTag, Concat;
    } else {
      if |s.rem| >= 3 {
        assert s.rem[0] == t[0] && s.rem[1] == t[1] && s.rem[2] == t[2];
      }
      ShortWaits(s);
    }
  }

  lemma TagDecided(s: State, t: seq<byte>)
    requires IsTag(t) && TagHeaderLen <= |s.rem| && s.rem[..TagHeaderLen] == t[..TagHeaderLen] && s.skip == 0
    ensures Judge(s) == SkipTag(|t|)
  {
    TagHead(t, s.rem);
  }

  lemma TagCut(t: seq<byte>, rest: seq<byte>, k: nat, q: Plan)
    requires k <= |t| && q.tail == t[k..] && rest == Concat(q.tags) + (Concat(q.frames) + q.junk)
    ensures (t + rest)[k..] == q.Bytes()
  {
  }

  /** Fewer than a header's bytes, or an unfinished tag header, decide nothing. */
  lemma ShortWaits(s: State)
    requires s.skip == 0 && (|s.rem| < HeaderLen || (TagMagic(s.rem) && |s.rem| < TagHeaderLen))
    ensures Judge(s).Wait?
  {
  }

  /** The decision in front of a frame: wait, or take exactly it. */
  lemma JudgeFrames(s: State, p: Plan)
    requires Follows(s, p) && p.tail == [] && p.tags == [] && p.frames != []
    ensures var v := Judge(s); var f := p.frames[0];
            if v.Wait? then !s.ended
            else
              && v.Accept? && v.hdr == Parse(f).value && |f| <= |s.rem| && s.rem[..|f|] == f
              && (|p.frames| == 2 && p.junk != [] ==> v.synced)
  {
    hide Parse, TagLen, Scan;
    var f := p.frames[0];
    var rest := Concat(p.frames[1..]) + p.junk;
    assert IsFrame(f);
    assert p.Bytes() == f + rest;
    if |s.rem| < HeaderLen {
      ShortWaits(s);
    } else {
      assert s.rem[..HeaderLen] == f[..HeaderLen];
      HeadParses(f, s.rem);
      Prefilter(f);
      assert s.rem[0] == s.rem[..HeaderLen][0] == f[0];
      HeaderHere(s);
      if |f| <= |s.rem| {
        assert s.rem[..|f|] == f;
        if |p.frames| > 1 && |s.rem| >= |f| + HeaderLen {
          var g := p.frames[1];
          assert IsFrame(g) && SameKind(Parse(g).value, Parse(f).value);
          assert p.frames[1..][0] == g;
          assert rest[..HeaderLen] == g[..HeaderLen];
          assert s.rem[|f|..][..HeaderLen] == g[..HeaderLen] by {
            assert s.rem[|f|..] <= rest;
          }
          HeadParses(g, s.rem[|f|..]);
        }
        if |p.frames| > 1 && s.ended {
          assert |p.frames[1]| >= HeaderLen by { assert IsFrame(p.frames[1]); }
          assert p.frames[1..][0] == p.frames[1];
        }
      }
    }
  }

  lemma HeaderHere(s: State)
    requires HeaderLen <= |s.rem| && Parse(s.rem).Some? && s.skip == 0 && s.rem[0] == 0xFF
    ensures Judge(s) == JudgeFrame(s)
  {
    hide Parse;
    assert s.rem[0..] == s.rem;
    assert HeaderAt(s.rem, 0);
  }

  lemma TakesFrame(s: State, p: Plan)
    requires Follows(s, p) && p.tail == [] && p.tags == [] && p.frames != [] && !Judge(s).Wait?
    ensures IsFrame(p.frames[0]) && Judge(s).Accept?
    ensures var q := p.(frames := p.frames[1..]); var t := Act(s, Judge(s));
            && Follows(t, q) && t.log == s.log + [EventOf(p.frames[0])]
            && |q.Bytes()| - |t.rem| == |p.Bytes()| - |s.rem| && IsSuffix(q.Bytes(), p.Bytes())
  {
    JudgeFrames(s, p);
    FirstFrame(p);
    hide Parse, Judge, Concat;
    var f, q := p.frames[0], p.(frames := p.frames[1..]);
    assert s.rem[|f|..] <= q.Bytes();
  }

  lemma FirstFrame(p: Plan)
    requires p.Valid() && p.tail == [] && p.tags == [] && p.frames != []
    ensures var q := p.(frames := p.frames[1..]);
            && IsFrame(p.frames[0]) && q.Valid() && p.Bytes() == p.frames[0] + q.Bytes() && IsSuffix(q.Bytes(), p.Bytes())
  {
    hide IsFrame, SameKind, Parse;
    assert IsFrame(p.frames[0]);
    var q := p.(frames := p.frames[1..]);
    assert p.Bytes() == p.frames[0] + q.Bytes();
  }

  /** What draining to `t` along `p` up to `q`, past `k` frames, amounts to. */
  predicate Drained(s: State, p: Plan, t: State, q: Plan, k: nat)
  {
    && SameStream(p.frames) && k <= |p.frames| && q.junk == p.junk && q.frames == p.frames[k..]
    && NonTags(s.log) + EventsOf(p.frames[..k]) <= NonTags(t.log)
    && (!q.Finished() ==>
          && NonTags(s.log) + EventsOf(p.frames[..k]) == NonTags(t.log)
          && Follows(t, q) && !s.ended && IsSuffix(q.Bytes(), p.Bytes())
          && |q.Bytes()| - |t.rem| == |p.Bytes()| - |s.rem|)
    && (q.Finished() && p.junk == [] ==>
          NonTags(s.log) + EventsOf(p.frames) == NonTags(t.log) && t.rem == [] && t.skip == 0 && |s.rem| == |p.Bytes()|)
  }

  lemma DrainedNowhere(s: State, p: Plan)
    requires Follows(s, p) && !p.Finished() && !s.ended
    ensures Drained(s, p, s, p, 0)
  {
    hide Parse, EventOf, Judge, NonTags, Concat;
    assert p.frames[0..] == p.frames && EventsOf(p.frames[..0]) == [];
    assert NonTags(s.log) + [] == NonTags(s.log);
  }

  /** A tag step changes neither the frames nor the events that are not tags. */
  lemma DrainedPastTag(s: State, p: Plan, s1: State, p1: Plan, t: State, q: Plan, k: nat)
    requires Drained(s1, p1, t, q, k) && NonTags(s1.log) == NonTags(s.log) && s1.ended == s.ended
    requires p1.frames == p.frames && p1.junk == p.junk
    requires |p1.Bytes()| - |s1.rem| == |p.Bytes()| - |s.rem| && IsSuffix(p1.Bytes(), p.Bytes())
    ensures Drained(s, p, t, q, k)
  {
    if !q.Finished() {
      SuffixTrans(q.Bytes(), p1.Bytes(), p.Bytes());
    }
    hide IsSuffix, Concat;
    hide Parse, EventOf, EventsOf, Judge, NonTags, Follows, SameStream;
  }

  lemma DrainedPastFrame(s: State, p: Plan, s1: State, p1: Plan, t: State, q: Plan, k: nat)
    requires Drained(s1, p1, t, q, k) && SameStream(p.frames) && p.frames != []
    requires s1.ended == s.ended && s1.log == s.log + [EventOf(p.frames[0])]
    requires p1 == p.(frames := p.frames[1..])
    requires |p1.Bytes()| - |s1.rem| == |p.Bytes()| - |s.rem| && IsSuffix(p1.Bytes(), p.Bytes())
    ensures Drained(s, p, t, q, k + 1)
  {
    if !q.Finished() {
      SuffixTrans(q.Bytes(), p1.Bytes(), p.Bytes());
    }
    hide IsSuffix, Concat;
    FramesOf(p.frames);
    hide Parse, EventOf, EventsOf, Judge, NonTags, Follows, SameStream, Consumed, Gaps;
    LogSnoc(s.log, EventOf(p.frames[0]));
    FirstAndRest(NonTags(s.log), p.frames, k);
    FirstAndRest(NonTags(s.log), p.frames, |p1.frames|);
    assert p1.frames[..|p1.frames|] == p1.frames && p.frames[..|p.frames|] == p.frames;
  }

  /** Draining along a plan takes tags and whole frames, and stops short or finishes the plan. */
  lemma {:induction false} DrainFollows(s: State, p: Plan) returns (q: Plan, k: nat)
    requires Follows(s, p)
    ensures Drained(s, p, Drain(s), q, k)
    decreases |s.rem|
  {
    hide Judge, Parse, Drained, Act, Follows;
    var v := Judge(s);
    if p.Finished() {
      q, k := p, 0;
      FinishedDrain(s, p);
    } else if p.tail == [] && p.tags == [] {
      JudgeFrames(s, p);
      if v.Wait? {
        q, k := p, 0;
        DrainedNowhere(s, p);
      } else {
        FramesStreamed(p, s);
        TakesFrame(s, p);
        var p1 := p.(frames := p.frames[1..]);
        var k1: nat;
        q, k1 := DrainFollows(Act(s, v), p1);
        k := k1 + 1;
        DrainedPastFrame(s, p, Act(s, v), p1, Drain(s), q, k1);
      }
    } else {
      var p1: Plan;
      if p.tail != [] {
        p1 := JudgeTail(s, p);
      } else {
        p1 := JudgeTag(s, p);
      }
      if v.Wait? {
        q, k := p, 0;
        DrainedNowhere(s, p);
      } else {
        TagLogged(s);
        q, k := DrainFollows(Act(s, v), p1);
        DrainedPastTag(s, p, Act(s, v), p1, Drain(s), q, k);
      }
    }
  }

  lemma FramesOf(fs: seq<seq<byte>>)
    requires SameStream(fs)
    ensures forall i :: 0 <= i < |fs| ==> IsFrame(fs[i])
  {
  }

  lemma FirstAndRest(log: seq<Event>, fs: seq<seq<byte>>, k: nat)
    requires fs != [] && k < |fs| && forall i :: 0 <= i < |fs| ==> IsFrame(fs[i])
    ensures fs[1..][k..] == fs[k + 1..]
    ensures log + [EventOf(fs[0])] + EventsOf(fs[1..][..k]) == log + EventsOf(fs[..k + 1])
  {
    hide EventOf;
    assert EventsOf(fs[..k + 1]) == [EventOf(fs[0])] + EventsOf(fs[1..][..k]);
  }

  lemma TagLogged(s: State)
    requires Judge(s).SkipTag?
    ensures NonTags(Act(s, Judge(s)).log) == NonTags(s.log)
  {
    hide Judge, NonTags, Gaps, Consumed;
    var t := Act(s, Judge(s));
    LogSnoc(s.log, t.log[|s.log|]);
  }

  lemma {:induction false} NonTagsGrow(s: State)
    ensures NonTags(s.log) <= NonTags(Drain(s).log)
    decreases |s.rem|
  {
    hide Judge, NonTags, Act;
    if !Judge(s).Wait? {
      var t := Act(s, Judge(s));
      NonTagsStep(s);
      NonTagsGrow(t);
    }
  }

  lemma NonTagsStep(s: State)
    requires !Judge(s).Wait?
    ensures NonTags(s.log) <= NonTags(Act(s, Judge(s)).log)
  {
    hide Judge, NonTags, Gaps, Consumed;
    var t := Act(s, Judge(s));
    assert t.log == s.log + [t.log[|s.log|]];
    LogSnoc(s.log, t.log[|s.log|]);
  }

  lemma FinishedDrain(s: State, p: Plan)
    requires Follows(s, p) && p.Finished()
    ensures Drained(s, p, Drain(s), p, 0)
  {
    hide NonTags;
    NonTagsGrow(s);
    assert p.frames[..0] == [] && p.frames[0..] == p.frames;
    assert NonTags(s.log) + [] == NonTags(s.log);
    if p.junk == [] {
      assert p.Bytes() == [];
      ShortWaits(s);
    }
  }

  lemma FramesStreamed(p: Plan, s: State)
    requires Follows(s, p) && p.frames != []
    ensures SameStream(p.frames)
  {
  }

  lemma {:induction false} DrainKeepsEnded(s: State)
    ensures Drain(s).ended == s.ended
    decreases |s.rem|
  {
    hide Judge;
    if !Judge(s).Wait? {
      DrainKeepsEnded(Act(s, Judge(s)));
    }
  }

  lemma {:induction false} RoundsGrow(s: State, chunks: seq<seq<byte>>)
    ensures NonTags(s.log) <= NonTags(Rounds(s, chunks).log)
    decreases |chunks|
  {
    hide Drain, NonTags;
    if chunks != [] {
      NonTagsGrow(Fed(s, chunks[0]));
      RoundsGrow(Drain(Fed(s, chunks[0])), chunks[1..]);
    }
  }

  lemma {:induction false} RoundsKeepEnded(s: State, chunks: seq<seq<byte>>)
    ensures Rounds(s, chunks).ended == s.ended
    decreases |chunks|
  {
    hide Drain;
    if chunks != [] {
      DrainKeepsEnded(Fed(s, chunks[0]));
      RoundsKeepEnded(Drain(Fed(s, chunks[0])), chunks[1..]);
    }
  }

  /** All of what is left of the plan, past `k` frames, is buffered. */
  predicate AtPlan(before: seq<Event>, p: Plan, t: State, q: Plan, k: nat)
  {
    && SameStream(p.frames) && k <= |p.frames| && q.junk == p.junk && q.frames == p.frames[k..]
    && Follows(t, q) && t.rem == q.Bytes() && before + EventsOf(p.frames[..k]) == NonTags(t.log)
  }

  /** With everything fed, either the plan is still being followed or its frames are all out. */
  ghost predicate Progressed(before: seq<Event>, p: Plan, t: State)
  {
    || (exists q: Plan, k: nat :: AtPlan(before, p, t, q, k))
    || (SameStream(p.frames) && p.junk != [] && before + EventsOf(p.frames) <= NonTags(t.log))
  }

  lemma EventsSplit(before: seq<Event>, fs: seq<seq<byte>>, k: nat, m: nat)
    requires k + m <= |fs| && forall i :: 0 <= i < |fs| ==> IsFrame(fs[i])
    ensures fs[k..][m..] == fs[k + m..]
    ensures before + EventsOf(fs[..k]) + EventsOf(fs[k..][..m]) == before + EventsOf(fs[..k + m])
  {
    hide EventOf;
    assert EventsOf(fs[..k + m]) == EventsOf(fs[..k]) + EventsOf(fs[k..][..m]);
  }

  /** Progress after `k` frames, along the plan that is left, is progress along the whole plan. */
  lemma ProgressLater(before: seq<Event>, p: Plan, q: Plan, k: nat, mid: seq<Event>, t: State)
    requires SameStream(p.frames) && k <= |p.frames| && q.junk == p.junk && q.frames == p.frames[k..]
    requires mid == before + EventsOf(p.frames[..k]) && Progressed(mid, q, t)
    ensures Progressed(before, p, t)
  {
    FramesOf(p.frames);
    hide Follows, EventsOf, NonTags, Concat, SameStream;
    if r: Plan, m: nat :| AtPlan(mid, q, t, r, m) {
      EventsSplit(before, p.frames, k, m);
      assert AtPlan(before, p, t, r, k + m);
    } else {
      EventsSplit(before, p.frames, k, |q.frames|);
      assert q.frames[..|q.frames|] == q.frames && p.frames[..|p.frames|] == p.frames;
    }
  }

  lemma {:induction false} RoundsFollow(s: State, p: Plan, chunks: seq<seq<byte>>)
    requires Follows(s, p) && !s.ended && s.rem + Concat(chunks) == p.Bytes()
    ensures Progressed(NonTags(s.log), p, Rounds(s, chunks))
    decreases |chunks|
  {
    FollowsStreamed(s, p);
    hide Drain, Follows, NonTags, EventsOf, SameStream, Drained;
    if chunks == [] {
      assert s.rem + [] == s.rem && p.frames[0..] == p.frames;
      assert NonTags(s.log) + EventsOf(p.frames[..0]) == NonTags(s.log);
      assert AtPlan(NonTags(s.log), p, s, p, 0);
    } else {
      var f, later := Fed(s, chunks[0]), Concat(chunks[1..]);
      assert f.rem + later == p.Bytes();
      FedFollows(s, p, chunks[0]);
      var q, k := DrainFollows(f, p);
      var d := Drain(f);
      DrainKeepsEnded(f);
      NextRound(f, p, d, q, k, later);
      if q.Finished() && p.junk != [] {
        RoundsGrow(d, chunks[1..]);
        AllOut(NonTags(s.log), p, q, k, d, Rounds(d, chunks[1..]));
      } else {
        RoundsFollow(d, q, chunks[1..]);
        ProgressLater(NonTags(s.log), p, q, k, NonTags(d.log), Rounds(d, chunks[1..]));
      }
    }
  }

  lemma FollowsStreamed(s: State, p: Plan)
    requires Follows(s, p)
    ensures SameStream(p.frames)
  {
  }

  lemma FedFollows(s: State, p: Plan, c: seq<byte>)
    requires Follows(s, p) && !s.ended && s.rem + c <= p.Bytes()
    ensures Follows(Fed(s, c), p)
  {
  }

  /** What is left of a prefix's plan, from the same point on, meets the same later bytes. */
  lemma LeftMeetsLater(rem: seq<byte>, whole: seq<byte>, rem': seq<byte>, left: seq<byte>, later: seq<byte>)
    requires rem + later == whole && rem' <= left && IsSuffix(left, whole)
    requires |left| - |rem'| == |whole| - |rem|
    ensures rem' + later == left
  {
    assert later == whole[|rem|..];
    assert left[|rem'|..] == later;
    assert left == left[..|rem'|] + left[|rem'|..];
  }

  /** After a drain that has not run into the junk, the rest of the plan meets the rest of the stream. */
  lemma NextRound(f: State, p: Plan, d: State, q: Plan, k: nat, later: seq<byte>)
    requires Drained(f, p, d, q, k) && Follows(f, p) && f.rem + later == p.Bytes() && !f.ended && !d.ended
    ensures !(q.Finished() && p.junk != []) ==>
              && Follows(d, q) && d.rem + later == q.Bytes()
              && NonTags(d.log) == NonTags(f.log) + EventsOf(p.frames[..k])
  {
    hide NonTags, EventsOf, Concat, IsSuffix, SameKind, IsFrame, IsTag;
    if !q.Finished() {
      LeftMeetsLater(f.rem, p.Bytes(), d.rem, q.Bytes(), later);
    } else if p.junk == [] {
      assert p.frames[..k] == p.frames;
      NothingLeft(q);
    }
  }

  lemma NothingLeft(q: Plan)
    requires q.Finished() && q.junk == []
    ensures q.Bytes() == [] && AllTags(q.tags) && SameStream(q.frames)
  {
  }

  lemma AllOut(before: seq<Event>, p: Plan, q: Plan, k: nat, d: State, t: State)
    requires SameStream(p.frames) && k <= |p.frames| && q.frames == p.frames[k..] && q.Finished() && p.junk != []
    requires before + EventsOf(p.frames[..k]) <= NonTags(d.log) <= NonTags(t.log)
    ensures Progressed(before, p, t)
  {
    assert p.frames[..k] == p.frames;
  }

  lemma {:induction false} GapsWithoutDiscards(log: seq<Event>)
    requires forall e :: e in NonTags(log) ==> e.Delivered?
    ensures Gaps(log) == 0
  {
    if log != [] {
      var init := log[..|log| - 1];
      assert forall e :: e in NonTags(init) ==> e in NonTags(log);
      assert !log[|log| - 1].Tag? ==> log[|log| - 1] in NonTags(log);
      GapsWithoutDiscards(init);
    }
  }

  lemma EndedFollows(r: State, q: Plan)
    requires Follows(r.(ended := false), q) && r.rem == q.Bytes()
    ensures Follows(r, q)
  {
  }

  /** The last drain, with everything buffered, follows the plan to its end. */
  lemma EndFollows(before: seq<Event>, p: Plan, r: State, q: Plan, k: nat)
    requires AtPlan(before, p, r.(ended := false), q, k) && r.ended
    ensures before + EventsOf(p.frames) <= NonTags(Drain(r).log)
    ensures p.junk == [] ==> before + EventsOf(p.frames) == NonTags(Drain(r).log) && Drain(r).rem == []
  {
    hide NonTags, EventsOf, SameStream, Concat, Drain, Follows, IsSuffix, Drained;
    FramesOf(p.frames);
    EndedFollows(r, q);
    FollowsStreamed(r, q);
    FramesOf(q.frames);
    var q1, k1 := DrainFollows(r, q);
    DrainedAll(r, q, Drain(r), q1, k1);
    EventsSplit(before, p.frames, k, |q.frames|);
    assert q.frames[..|q.frames|] == q.frames && p.frames[..|p.frames|] == p.frames;
  }

  /** At the end of the stream a drain leaves nothing of the plan but the junk. */
  lemma DrainedAll(s: State, p: Plan, t: State, q: Plan, k: nat)
    requires Drained(s, p, t, q, k) && s.ended
    ensures NonTags(s.log) + EventsOf(p.frames) <= NonTags(t.log)
    ensures p.junk == [] ==> NonTags(s.log) + EventsOf(p.frames) == NonTags(t.log) && t.rem == []
  {
    hide NonTags, EventsOf, Concat, Follows, IsSuffix;
    assert q.Finished();
    assert p.frames[..k] == p.frames;
  }

  /**
   The delivery theorem.  Leading tags of any size, then mutually consistent frames, then anything
   at all, cut into chunks anywhere: every frame is delivered, in order, before anything else.  With
   nothing behind the frames they are all there is, no discard is charged and nothing is left over.
   (A lone frame is a frame only when nothing follows it: it has no second header to confirm it.)
   */
  lemma DeliveryTheorem(tags: seq<seq<byte>>, fs: seq<seq<byte>>, junk: seq<byte>, chunks: seq<seq<byte>>)
    requires AllTags(tags) && SameStream(fs) && (|fs| != 1 || junk == [])
    requires Concat(chunks) == Plan([], tags, fs, junk).Bytes()
    ensures var s := Session(chunks);
            && EventsOf(fs) <= NonTags(s.log)
            && (junk == [] ==> NonTags(s.log) == EventsOf(fs) && s.rem == [] && GapsAtEnd(s) == 0)
  {
    FramesOf(fs);
    hide Drain, Rounds, EventsOf, SameStream, AllTags, Parse;
    var p := Plan([], tags, fs, junk);
    assert Start.rem + Concat(chunks) == p.Bytes() && NonTags([]) == [];
    RoundsFollow(Start, p, chunks);
    var t := Rounds(Start, chunks);
    var r := t.(ended := true);
    RoundsKeepEnded(Start, chunks);
    assert [] + EventsOf(fs) == EventsOf(fs);
    if q: Plan, k: nat :| AtPlan([], p, t, q, k) {
      assert r.(ended := false) == t;
      EndFollows([], p, r, q, k);
    } else {
      NonTagsGrow(r);
    }
    if junk == [] {
      assert forall e :: e in EventsOf(fs) ==> e.Delivered? by { AllDelivered(fs); }
      GapsWithoutDiscards(Session(chunks).log);
    }
  }

  lemma AllDelivered(fs: seq<seq<byte>>)
    requires SameStream(fs)
    ensures (forall i :: 0 <= i < |fs| ==> IsFrame(fs[i])) && forall e :: e in EventsOf(fs) ==> e.Delivered?
  {
  }

  // ---- the framer object ---------------------------------------------------

  /** One frame's duration in nanoseconds. */
  function FrameDuration(h: Header): nat
  {
    if h.sampleRate == 0 then 0 else h.samplesPerFrame * 1000000000 / h.sampleRate
  }

  lemma NextWaits(s: State)
    requires Judge(s).Wait?
    ensures Next(s) == Outcome(s, false)
  {
  }

  lemma NextStep(s: State)
    requires !Judge(s).Wait?
    ensures Next(s) == if Judge(s).Accept? then Outcome(Act(s, Judge(s)), true) else Next(Act(s, Judge(s)))
  {
    hide Judge, Act;
  }

  /** Learning a tag's length and then skipping is one decision. */
  lemma SkipAfterHeader(s: State)
    requires s.skip == 0 && TagHeader(s.rem)
    ensures var t := s.(skip := TagLen(s.rem));
            !Judge(s).Wait? && !Judge(t).Wait? && !Judge(s).Accept? && !Judge(t).Accept?
            && Act(s, Judge(s)) == Act(t, Judge(t))
  {
  }

  lemma JudgeNothing(s: State)
    requires s.skip == 0 && !TagHeader(s.rem) && !(TagMagic(s.rem) && |s.rem| < TagHeaderLen) && Scan(s.rem, 0) == None
    ensures Judge(s) == if |s.rem| > HeaderLen - 1 then Lose(|s.rem| - (HeaderLen - 1)) else Wait
  {
  }

  /** Dropping garbage leaves the header it exposes at the cursor. */
  lemma LoseExposesHeader(s: State, i: nat)
    requires s.skip == 0 && !TagHeader(s.rem) && !(TagMagic(s.rem) && |s.rem| < TagHeaderLen)
    requires Scan(s.rem, 0) == Some(i) && 0 < i
    ensures Judge(s) == Lose(i) && HeaderLen <= |s.rem[i..]| && Parse(s.rem[i..]).Some?
  {
    hide Parse;
    assert HeaderAt(s.rem, i);
  }

  lemma AtHeader(s: State)
    requires s.skip == 0 && HeaderLen <= |s.rem| && Parse(s.rem).Some?
    ensures Judge(s) == JudgeFrame(s)
  {
    Prefilter(s.rem);
    HeaderHere(s);
  }

  lemma RejectUnsynced(s: State)
    ensures Judge(s).Reject? ==> !s.synced
  {
    hide Parse;
  }

  /** Pending tag bytes skipped as far as they have arrived. */
  function Skipped(s: State): State
  {
    var k := Min(s.skip, |s.rem|);
    s.(rem := s.rem[k..], skip := s.skip - k, log := s.log + [Tag(s.rem[..k])])
  }

  lemma SkippedIs(s: State, buf: seq<byte>, off: nat, k: nat)
    requires off <= |buf| && s.rem == buf[off..] && k == Min(s.skip, |s.rem|)
    ensures Skipped(s) == State(buf[off + k..], s.skip - k, s.synced, s.ended, Skipped(s).log)
  {
  }

  lemma SkipStep(s: State)
    requires s.skip > 0 && s.rem != []
    ensures Next(s) == Next(Skipped(s)) && Gaps(Skipped(s).log) == Gaps(s.log)
    ensures Skipped(s).skip > 0 ==> Judge(Skipped(s)).Wait?
  {
    NextStep(s);
    assert Judge(s) == SkipTag(s.skip) && Act(s, Judge(s)) == Skipped(s);
    LogSnoc(s.log, Tag(s.rem[..Min(s.skip, |s.rem|)]));
  }

  lemma DiscardStep(s: State, n: nat)
    requires Judge(s) == Lose(n) || (Judge(s).Reject? && n == 1)
    ensures n <= |s.rem| && !Judge(s).Wait?
    ensures var t := Act(s, Judge(s));
            && t == s.(rem := s.rem[n..], synced := false, log := t.log)
            && Gaps(t.log) == Gaps(s.log) + 1 && Next(s) == Next(t)
  {
    RejectUnsynced(s);
    NextStep(s);
    hide Judge, Parse, Gaps, Next, Consumed, NonTags;
    var t := Act(s, Judge(s));
    assert t.log == s.log + [t.log[|s.log|]];
    LogSnoc(s.log, t.log[|s.log|]);
  }

  lemma TakeStep(s: State, h: Header, keep: bool)
    requires Judge(s) == Accept(h, keep)
    ensures var t := s.(rem := s.rem[h.frameLen..], synced := keep, log := s.log + [Delivered(s.rem[..h.frameLen], h)]);
            t == Act(s, Accept(h, keep)) && Next(s) == Outcome(t, true) && Gaps(t.log) == Gaps(s.log)
  {
    NextStep(s);
    hide Judge, Parse, Gaps, Next, Consumed, NonTags;
    LogSnoc(s.log, Delivered(s.rem[..h.frameLen], h));
  }

  class Stream {
    var buf: seq<byte>
    var off: nat
    var id3Skip: nat
    var synced: bool
    var ended: bool
    var gaps: nat
    ghost var log: seq<Event>

    ghost predicate Valid()
      reads this
    {
      off <= |buf| && gaps == Gaps(log)
    }

    ghost function View(): State
      requires Valid()
      reads this
    {
      State(buf[off..], id3Skip, synced, ended, log)
    }

    constructor ()
      ensures Valid() && View() == Start
    {
      buf, off, id3Skip, synced, ended, gaps, log := [], 0, 0, false, false, 0, [];
    }

    method Feed(p: seq<byte>)
      requires Valid()
      modifies this`buf
      ensures Valid() && View() == Fed(old(View()), p)
    {
      buf := buf + p;
    }

    method Compact()
      requires Valid()
      modifies this`buf, this`off
      ensures Valid() && View() == old(View()) && off == 0
    {
      if off == 0 {
        return;
      }
      buf := buf[off..];
      off := 0;
    }

    method SetEOF()
      requires Valid()
      modifies this`ended
      ensures Valid() && View() == old(View()).(ended := true)
    {
      ended := true;
    }

    method Finish()
      requires Valid()
      modifies this`gaps
      ensures gaps == GapsAtEnd(old(View()))
    {
      if |buf| - off > 0 {
        gaps := gaps + 1;
      }
    }

    /** Takes the pending tag bytes that have arrived. */
    method SkipArrived(drop: nat)
      requires Valid() && id3Skip > 0 && off < |buf| && drop == Min(id3Skip, |buf| - off)
      modifies this`off, this`id3Skip, this`log
      ensures Valid() && View() == Skipped(old(View()))
      ensures off == old(off) + drop && id3Skip == old(id3Skip) - drop
    {
      hide Gaps, Next, Judge, Skipped;
      ghost var s := View();
      SkipStep(s);
      SkippedIs(s, buf, off, drop);
      log := Skipped(s).log;
      off := off + drop;
      id3Skip := id3Skip - drop;
    }

    /** Discards the tag bytes that have arrived; true when none are pending. */
    method ConsumeID3() returns (clear: bool)
      requires Valid()
      modifies this`off, this`id3Skip, this`log
      ensures Valid() && Next(View()) == Next(old(View())) && off >= old(off)
      ensures clear <==> id3Skip == 0
      ensures !clear ==> Judge(View()).Wait?
      ensures clear && old(id3Skip) > 0 ==> off > old(off)
    {
      hide Gaps, Next, Judge, Skipped;
      if id3Skip == 0 {
        return true;
      }
      var avail := |buf| - off;
      if avail == 0 {
        WaitsForTag(View());
      } else {
        SkipStep(View());
        SkipArrived(Min(id3Skip, avail));
      }
      return id3Skip == 0;
    }

    /** Records the length of the tag at the cursor. */
    method StartID3Skip()
      requires Valid() && id3Skip == 0 && TagHeader(buf[off..])
      modifies this`id3Skip
      ensures Valid() && id3Skip > 0 && Next(View()) == Next(old(View()))
    {
      hide Gaps, Next, Judge, TagLen, Act;
      SkipAfterHeader(View());
      NextStep(View());
      id3Skip := TagLen(buf[off..]);
      NextStep(View());
    }

    /** Moves to the next valid header, charging the bytes before it; or drops all but a short tail. */
    method FindHeader() returns (h: Option<Header>)
      requires Valid() && id3Skip == 0 && !TagHeader(buf[off..]) && !(TagMagic(buf[off..]) && |buf| - off < TagHeaderLen)
      modifies this`off, this`gaps, this`synced, this`log
      ensures Valid() && Next(View()) == Next(old(View())) && off >= old(off)
      ensures h.None? ==> Judge(View()).Wait?
      ensures h.Some? ==> HeaderLen <= |buf| - off && Parse(buf[off..]) == h
    {
      hide Judge, Act, Next, Parse, Gaps;
      var rem := buf[off..];
      var found := ScanHeader(rem);
      if found == None {
        JudgeNothing(View());
        if |rem| > HeaderLen - 1 {
          Discard(|rem| - (HeaderLen - 1));
          ShortWaits(View());
        }
        return None;
      }
      if found.value > 0 {
        LoseExposesHeader(View(), found.value);
        Discard(found.value);
      } else {
        assert rem[0..] == rem;
        assert HeaderAt(rem, 0);
      }
      return Parse(buf[off..]);
    }

    /** Advances past `n` unusable bytes and counts one gap; the sync is lost, if there was one. */
    method Discard(n: nat)
      requires Valid()
      requires Judge(View()) == Lose(n) || (Judge(View()).Reject? && n == 1)
      modifies this`off, this`gaps, this`synced, this`log
      ensures Valid() && View() == Act(old(View()), old(Judge(View()))) && Next(View()) == Next(old(View()))
      ensures View().rem == old(View()).rem[n..] && n > 0 && off == old(off) + n
    {
      hide Judge, Gaps, Next, Parse, Act;
      DiscardStep(View(), n);
      ghost var s := View();
      log := Act(s, Judge(s)).log;
      off := off + n;
      gaps := gaps + 1;
      synced := false;
      assert buf[off..] == s.rem[n..];
    }

    /** Takes the frame at the cursor. */
    method Take(h: Header, keep: bool) returns (frame: seq<byte>)
      requires Valid() && Judge(View()) == Accept(h, keep)
      modifies this`off, this`synced, this`log
      ensures Valid() && View() == Act(old(View()), Accept(h, keep)) && Next(old(View())) == Outcome(View(), true)
      ensures log == old(log) + [Delivered(frame, h)]
    {
      hide Judge, Gaps, Next, Parse, Act;
      TakeStep(View(), h, keep);
      ghost var s := View();
      frame := buf[off..off + h.frameLen];
      assert frame == s.rem[..h.frameLen];
      log := log + [Delivered(frame, h)];
      off := off + h.frameLen;
      synced := keep;
      assert buf[off..] == s.rem[h.frameLen..];
    }

    /** The decision on a valid header at the cursor, carried out. */
    method TakeConfirmed(h: Header) returns (frame: seq<byte>, settled: bool, ok: bool)
      requires Valid() && id3Skip == 0 && HeaderLen <= |buf| - off && Parse(buf[off..]) == Some(h)
      modifies this`off, this`gaps, this`synced, this`log
      ensures Valid() && (ok ==> settled)
      ensures settled ==> Next(old(View())) == Outcome(View(), ok)
      ensures settled && ok ==> log == old(log) + [Delivered(frame, h)]
      ensures settled && !ok ==> frame == []
      ensures !settled ==> Next(old(View())) == Next(View()) && |View().rem| < |old(View()).rem|
    {
      AtHeader(View());
      UnfoldFrame(View());
      hide Judge, JudgeFrame, Next, Gaps, Act, Parse;
      var rem := buf[off..];
      if |rem| < h.frameLen {
        NextWaits(View());
        return [], true, false;
      }
      var keep := synced;
      if |rem| >= h.frameLen + HeaderLen {
        if Consistent(rem[h.frameLen..], h) {
          keep := true;
        } else if synced {
          keep := false;
        } else {
          Discard(1);
          return [], false, false;
        }
      } else if !synced && !ended {
        NextWaits(View());
        return [], true, false;
      }
      frame := Take(h, keep);
      return frame, true, true;
    }

    /** The next whole frame, or nothing when no more can be confirmed: exactly `Next`. */
    method NextFrame() returns (frame: seq<byte>, dur: nat, ok: bool)
      requires Valid()
      modifies this`off, this`id3Skip, this`gaps, this`synced, this`log
      ensures Valid() && Outcome(View(), ok) == Next(old(View()))
      ensures !ok ==> frame == [] && dur == 0
      ensures ok ==> var e := View().log[|View().log| - 1]; frame == e.frame && dur == FrameDuration(e.hdr)
    {
      hide Judge, JudgeFrame, JudgeAudio, Act, Next, Parse, Gaps, TagLen, FrameDuration, Consistent;
      while true
        invariant Valid()
        invariant Next(old(View())) == Next(View())
        decreases |buf| - off, if id3Skip == 0 then 1 else 0
      {
        var clear := ConsumeID3();
        if !clear {
          NextWaits(View());
          return [], 0, false;
        }
        var rem := buf[off..];
        if TagMagic(rem) && |rem| < TagHeaderLen {
          ShortWaits(View());
          NextWaits(View());
          return [], 0, false;
        }
        if TagHeader(rem) {
          StartID3Skip();
          continue;
        }
        var h := FindHeader();
        if h == None {
          NextWaits(View());
          return [], 0, false;
        }
        var settled: bool;
        frame, settled, ok := TakeConfirmed(h.value);
        if settled {
          return frame, if ok then FrameDuration(h.value) else 0, ok;
        }
      }
    }
  }

  lemma WaitsForTag(s: State)
    requires s.skip > 0 && s.rem == []
    ensures Judge(s).Wait?
  {
  }

  /** The decision on a header at the cursor, case by case. */
  lemma UnfoldFrame(s: State)
    requires HeaderLen <= |s.rem| && Parse(s.rem).Some?
    ensures var h := Parse(s.rem).value; var v := JudgeFrame(s);
            && (|s.rem| < h.frameLen ==> v == Wait)
            && (h.frameLen <= |s.rem| < h.frameLen + HeaderLen ==>
                  v == if !s.synced && !s.ended then Wait else Accept(h, s.synced))
            && (|s.rem| >= h.frameLen + HeaderLen ==>
                  v == if Consistent(s.rem[h.frameLen..], h) then Accept(h, true)
                       else if s.synced then Accept(h, false) else Reject)
  {
    hide Parse;
  }
}
