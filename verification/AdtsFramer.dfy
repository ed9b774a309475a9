/**
 The streaming ADTS framer.  It cuts an arbitrarily chunked byte stream into raw access
 units, resynchronising past garbage and false syncs.  `Drain` is the reference: one
 decision at a time on the unconsumed bytes, each recorded in a log.
 */
module AdtsFramer {
  import opened Bits
  import opened Adts

  /** What the framer did with the bytes it took. */
  datatype Event =
    | Garbage(bytes: seq<byte>)
    | FalseSync(b: byte)
    | Dropped(frame: seq<byte>)
    | Delivered(frame: seq<byte>, hdr: Header)

  /** Unconsumed bytes, sync and end-of-stream flags, and the log of everything consumed. */
  datatype State = State(rem: seq<byte>, synced: bool, ended: bool, log: seq<Event>)

  const Start := State([], false, false, [])

  // ---- scanning ------------------------------------------------------------

  predicate HeaderAt(rem: seq<byte>, i: nat)
  {
    i + MinHeaderLen <= |rem| && Parse(rem[i..]).Some?
  }

  /** Index of the first valid header at or after `i`. */
  function Scan(rem: seq<byte>, i: nat): (r: Option<nat>)
    ensures r.Some? ==> i <= r.value && HeaderAt(rem, r.value)
    ensures forall j: nat {:trigger HeaderAt(rem, j)} :: i <= j && (r.Some? ==> j < r.value) ==> !HeaderAt(rem, j)
    decreases |rem| - i
  {
    if i + MinHeaderLen > |rem| then None
    else if HeaderAt(rem, i) then Some(i)
    else Scan(rem, i + 1)
  }

  /** The scanning loop, with its sync prefilter, finds the first valid header. */
  method ScanADTS(rem: seq<byte>) returns (r: Option<nat>)
    ensures r == Scan(rem, 0)
  {
    hide Parse;
    var i := 0;
    while i + MinHeaderLen <= |rem|
      invariant Scan(rem, 0) == Scan(rem, i)
    {
      if rem[i] == 0xFF && rem[i + 1] >= 0xF0 && (rem[i + 1] / 2) % 4 == 0 {
        if Parse(rem[i..]).Some? {
          return Some(i);
        }
      } else {
        Prefilter(rem[i..]);
      }
      i := i + 1;
    }
    return None;
  }

  /** The prefilter never skips a valid header. */
  lemma Prefilter(b: seq<byte>)
    ensures Parse(b).Some? ==> b[0] == 0xFF && b[1] >= 0xF0 && (b[1] / 2) % 4 == 0
  {
  }

  // ---- one decision --------------------------------------------------------

  datatype Verdict = Wait | Lose(n: nat) | Reject | Accept(hdr: Header)

  function Judge(s: State): (v: Verdict)
    ensures v.Lose? ==> 0 < v.n <= |s.rem|
    ensures v.Reject? ==> Parse(s.rem).Some? && Parse(s.rem).value.frameLen + MinHeaderLen <= |s.rem|
    ensures v.Accept? ==> Parse(s.rem) == Some(v.hdr) && v.hdr.frameLen <= |s.rem|
  {
    match Scan(s.rem, 0)
    case None => if |s.rem| > MinHeaderLen - 1 then Lose(|s.rem| - (MinHeaderLen - 1)) else Wait
    case Some(i) =>
      if i > 0 then Lose(i) else
        assert s.rem[0..] == s.rem;
        var h := Parse(s.rem).value;
        if |s.rem| < h.frameLen then Wait
        else if |s.rem| >= h.frameLen + MinHeaderLen then
          if Consistent(s.rem[h.frameLen..], h) then Accept(h) else Reject
        else if !s.synced && !s.ended then Wait
        else Accept(h)
  }

  /** The state after acting on a verdict. */
  function Act(s: State, v: Verdict): (s': State)
    requires v == Judge(s) && !v.Wait?
    ensures |s'.rem| < |s.rem| && s'.ended == s.ended
  {
    match v
    case Lose(n) => State(s.rem[n..], false, s.ended, s.log + [Garbage(s.rem[..n])])
    case Reject => State(s.rem[1..], false, s.ended, s.log + [FalseSync(s.rem[0])])
    case Accept(h) =>
      var frame := s.rem[..h.frameLen];
      State(s.rem[h.frameLen..], s.synced || |s.rem| >= h.frameLen + MinHeaderLen, s.ended,
            s.log + [if h.numRawBlocks > 0 then Dropped(frame) else Delivered(frame, h)])
  }

  /** Everything the framer can do without more bytes. */
  function Drain(s: State): (s': State)
    ensures Judge(s').Wait?
    decreases |s.rem|
  {
    var v := Judge(s);
    if v.Wait? then s else Drain(Act(s, v))
  }

  /** One call: act until a frame is delivered or nothing more can be done. */
  datatype Outcome = Outcome(state: State, ok: bool)

  predicate Delivers(v: Verdict) { v.Accept? && v.hdr.numRawBlocks == 0 }

  function Next(s: State): (r: Outcome)
    ensures !r.ok ==> Judge(r.state).Wait?
    ensures r.ok ==> r.state.log != [] && r.state.log[|r.state.log| - 1].Delivered?
    ensures |r.state.rem| <= |s.rem| && (r.ok ==> |r.state.rem| < |s.rem|)
    decreases |s.rem|
  {
    var v := Judge(s);
    if v.Wait? then Outcome(s, false)
    else if Delivers(v) then Outcome(Act(s, v), true)
    else Next(Act(s, v))
  }

  lemma {:induction false} DrainByNext(s: State)
    ensures Drain(s) == if Next(s).ok then Drain(Next(s).state) else Next(s).state
    decreases |s.rem|
  {
    hide Judge, Act;
    var v := Judge(s);
    if !v.Wait? && !Delivers(v) {
      DrainByNext(Act(s, v));
    }
  }

  // ---- what the log means --------------------------------------------------

  function BytesOf(e: Event): seq<byte>
  {
    match e
    case Garbage(b) => b
    case FalseSync(b) => [b]
    case Dropped(f) => f
    case Delivered(f, _) => f
  }

  function Consumed(log: seq<Event>): seq<byte>
  {
    if log == [] then [] else BytesOf(log[0]) + Consumed(log[1..])
  }

  function Gaps(log: seq<Event>): nat
  {
    if log == [] then 0 else (if log[|log| - 1].Delivered? then 0 else 1) + Gaps(log[..|log| - 1])
  }

  /**
   Why an event was right, given the bytes that follow it.  Garbage holds no position whose
   seven-byte window was not there to be tested, and none that passed; a false sync has a
   header whose successor is not consistent; a frame is exactly what its header declares.
   */
  predicate Justified(e: Event, rest: seq<byte>)
  {
    var all := BytesOf(e) + rest;
    match e
    case Garbage(b) =>
      && b != []
      && |b| + MinHeaderLen - 1 <= |all|
      && forall k: nat {:trigger HeaderAt(all, k)} :: k < |b| ==> !HeaderAt(all, k)
    case FalseSync(_) =>
      && Parse(all).Some?
      && Parse(all).value.frameLen + MinHeaderLen <= |all|
      && !Consistent(all[Parse(all).value.frameLen..], Parse(all).value)
    case Dropped(f) =>
      Parse(all).Some? && |f| == Parse(all).value.frameLen && Parse(all).value.numRawBlocks > 0
    case Delivered(f, h) =>
      Parse(all) == Some(h) && |f| == h.frameLen && h.numRawBlocks == 0
  }

  /** A log that consumes a prefix of `stream`, every event justified by what follows it there. */
  predicate Explains(log: seq<Event>, stream: seq<byte>)
    decreases log
  {
    log == [] ||
    (BytesOf(log[0]) <= stream
     && Justified(log[0], stream[|BytesOf(log[0])|..])
     && Explains(log[1..], stream[|BytesOf(log[0])|..]))
  }

  lemma {:induction false} ConsumedConcat(a: seq<Event>, b: seq<Event>)
    ensures Consumed(a + b) == Consumed(a) + Consumed(b)
  {
    hide BytesOf;
    if a == [] {
      assert a + b == b;
    } else {
      assert (a + b)[1..] == a[1..] + b;
      ConsumedConcat(a[1..], b);
    }
  }

  lemma JustifiedStable(e: Event, rest: seq<byte>, more: seq<byte>)
    requires Justified(e, rest)
    ensures Justified(e, rest + more)
  {
    var all := BytesOf(e) + rest;
    assert BytesOf(e) + (rest + more) == all + more;
    match e
    case Garbage(b) =>
      forall k: nat | k < |b| ensures !HeaderAt(all + more, k) {
        assert !HeaderAt(all, k);
        assert (all + more)[k..] == all[k..] + more;
        ParseStable(all[k..], more);
      }
    case FalseSync(_) =>
      ParseStable(all, more);
      var n := Parse(all).value.frameLen;
      assert (all + more)[n..] == all[n..] + more;
      ParseStable(all[n..], more);
    case Dropped(f) => ParseStable(all, more);
    case Delivered(f, h) => ParseStable(all, more);
  }

  lemma {:induction false} ExplainsMore(log: seq<Event>, stream: seq<byte>, more: seq<byte>)
    requires Explains(log, stream)
    ensures Explains(log, stream + more)
  {
    hide Justified;
    if log != [] {
      var n := |BytesOf(log[0])|;
      assert (stream + more)[n..] == stream[n..] + more;
      JustifiedStable(log[0], stream[n..], more);
      ExplainsMore(log[1..], stream[n..], more);
    }
  }

  lemma {:induction false} ExplainsSnoc(log: seq<Event>, e: Event, rest: seq<byte>)
    requires Explains(log, Consumed(log) + (BytesOf(e) + rest)) && Justified(e, rest)
    ensures Explains(log + [e], Consumed(log) + (BytesOf(e) + rest))
  {
    hide Justified, BytesOf;
    if log == [] {
      assert log + [e] == [e] && [e][1..] == [];
      assert (Consumed(log) + (BytesOf(e) + rest))[|BytesOf(e)|..] == rest;
    } else {
      var n := |BytesOf(log[0])|;
      var stream := Consumed(log) + (BytesOf(e) + rest);
      assert stream[n..] == Consumed(log[1..]) + (BytesOf(e) + rest);
      ExplainsSnoc(log[1..], e, rest);
      assert (log + [e])[1..] == log[1..] + [e];
    }
  }

  /** A decision takes the front bytes off the buffer, logs them, and is justified by the rest. */
  lemma ActJustified(s: State) returns (e: Event)
    requires !Judge(s).Wait?
    ensures var s' := Act(s, Judge(s));
            s'.log == s.log + [e] && s.rem == BytesOf(e) + s'.rem && Justified(e, s'.rem)
  {
    hide Parse;
    var s' := Act(s, Judge(s));
    e := s'.log[|s.log|];
    assert s.rem == BytesOf(e) + s'.rem;
  }

  /** One decision keeps the account exact. */
  lemma ActExplains(s: State)
    requires !Judge(s).Wait? && Explains(s.log, Consumed(s.log) + s.rem)
    ensures var s' := Act(s, Judge(s));
            && Consumed(s'.log) + s'.rem == Consumed(s.log) + s.rem
            && Explains(s'.log, Consumed(s'.log) + s'.rem)
  {
    hide Explains, Judge, Act, Justified, Consumed, BytesOf;
    var s' := Act(s, Judge(s));
    var e := ActJustified(s);
    ConsumedConcat(s.log, [e]);
    ConsumedOne(e);
    assert Consumed(s.log) + (BytesOf(e) + s'.rem) == Consumed(s.log) + BytesOf(e) + s'.rem;
    ExplainsSnoc(s.log, e, s'.rem);
  }

  lemma ConsumedOne(e: Event)
    ensures Consumed([e]) == BytesOf(e)
  {
    assert [e][1..] == [];
  }

  lemma {:induction false} DrainExplains(s: State)
    requires Explains(s.log, Consumed(s.log) + s.rem)
    ensures var s' := Drain(s);
            && Consumed(s'.log) + s'.rem == Consumed(s.log) + s.rem
            && Explains(s'.log, Consumed(s'.log) + s'.rem)
            && s.log <= s'.log
    decreases |s.rem|
  {
    hide Judge, Explains;
    var v := Judge(s);
    if !v.Wait? {
      ActExplains(s);
      DrainExplains(Act(s, v));
    }
  }

  /** After a drain the backlog is less than one frame and one header. */
  lemma BacklogBound(s: State)
    ensures |Drain(s).rem| <= MaxFrameLen + MinHeaderLen - 1
  {
    hide Parse;
    var s' := Drain(s);
    assert Judge(s').Wait?;
  }

  // ---- sessions ------------------------------------------------------------

  function Fed(s: State, p: seq<byte>): State { s.(rem := s.rem + p) }

  /** Feed a chunk and drain, for each chunk in turn. */
  function Rounds(s: State, chunks: seq<seq<byte>>): State
    decreases |chunks|
  {
    if chunks == [] then s else Rounds(Drain(Fed(s, chunks[0])), chunks[1..])
  }

  /** The whole life of a framer: rounds, then end of stream and a last drain. */
  function Session(chunks: seq<seq<byte>>): State
  {
    Drain(Rounds(Start, chunks).(ended := true))
  }

  /** Discard count after Finish, which charges a truncated final frame once. */
  function GapsAtEnd(s: State): nat { Gaps(s.log) + if s.rem != [] then 1 else 0 }

  function Concat(ss: seq<seq<byte>>): seq<byte>
  {
    if ss == [] then [] else ss[0] + Concat(ss[1..])
  }

  lemma {:induction false} RoundsExplain(s: State, chunks: seq<seq<byte>>)
    requires Explains(s.log, Consumed(s.log) + s.rem)
    ensures var s' := Rounds(s, chunks);
            && Consumed(s'.log) + s'.rem == Consumed(s.log) + s.rem + Concat(chunks)
            && Explains(s'.log, Consumed(s'.log) + s'.rem)
    decreases |chunks|
  {
    hide Drain, Explains;
    if chunks != [] {
      ExplainsMore(s.log, Consumed(s.log) + s.rem, chunks[0]);
      var f := Fed(s, chunks[0]);
      assert Consumed(s.log) + s.rem + chunks[0] == Consumed(f.log) + f.rem;
      DrainExplains(f);
      RoundsExplain(Drain(f), chunks[1..]);
      assert Consumed(f.log) + f.rem + Concat(chunks[1..])
          == Consumed(s.log) + s.rem + (chunks[0] + Concat(chunks[1..]));
    }
  }

  /**
   On arbitrary bytes in arbitrary chunks: what was delivered, dropped and discarded, in
   order, followed by the unconsumed tail, is the stream; and every discard was justified.
   */
  lemma SessionExplains(chunks: seq<seq<byte>>)
    ensures var s := Session(chunks);
            && Consumed(s.log) + s.rem == Concat(chunks)
            && Explains(s.log, Concat(chunks))
            && |s.rem| <= MaxFrameLen + MinHeaderLen - 1
  {
    hide Drain, Rounds;
    RoundsExplain(Start, chunks);
    var r := Rounds(Start, chunks).(ended := true);
    DrainExplains(r);
    BacklogBound(r);
    assert Consumed(Start.log) + Start.rem + Concat(chunks) == Concat(chunks);
  }

  // ---- well-formed streams -------------------------------------------------

  predicate IsFrame(f: seq<byte>)
  {
    Parse(f).Some? && Parse(f).value.frameLen == |f|
  }

  /** A whole valid frame; the witness carries a one-byte access unit. */
  type Frame = f: seq<byte> | IsFrame(f) witness [0xFF, 0xF1, 0x50, 0x80, 0x01, 0x00, 0x00, 0x00]

  predicate SameStream(fs: seq<Frame>)
  {
    forall i, j :: 0 <= i < |fs| && 0 <= j < |fs| ==> SameConfig(Parse(fs[i]).value, Parse(fs[j]).value)
  }

  function EventOf(f: Frame): Event
  {
    var h := Parse(f).value;
    if h.numRawBlocks > 0 then Dropped(f) else Delivered(f, h)
  }

  function EventsOf(fs: seq<Frame>): (r: seq<Event>)
    ensures |r| == |fs|
  {
    seq(|fs|, i requires 0 <= i < |fs| => EventOf(fs[i]))
  }

  lemma ConcatNotEmpty(fs: seq<Frame>)
    ensures fs != [] ==> MinHeaderLen < |Concat(fs)|
  {
    if fs != [] {
      assert IsFrame(fs[0]);
    }
  }

  /** With some prefix of a well-formed stream buffered, the next decision is to wait or take one frame. */
  lemma JudgeWellFormed(s: State, fs: seq<Frame>)
    requires SameStream(fs) && s.rem <= Concat(fs)
    ensures var v := Judge(s);
            if v.Wait? then s.ended ==> s.rem == [] || s.rem != Concat(fs)
            else
              && fs != [] && v == Accept(Parse(fs[0]).value) && |fs[0]| <= |s.rem|
              && s.rem[..|fs[0]|] == fs[0] && s.rem[|fs[0]|..] <= Concat(fs[1..])
  {
    hide Parse;
    if |s.rem| < MinHeaderLen {
      ConcatNotEmpty(fs);
    } else {
      assert fs != [];
      var f, rest := fs[0], Concat(fs[1..]);
      HeadParses(f, rest, s.rem);
      assert s.rem[0..] == s.rem;
      assert HeaderAt(s.rem, 0);
      if |f| <= |s.rem| {
        assert s.rem[..|f|] == f;
        assert s.rem[|f|..] <= rest;
        if |s.rem| >= |f| + MinHeaderLen {
          assert fs[1..] != [];
          assert fs[1] == fs[1..][0];
          HeadParses(fs[1], Concat(fs[2..]), s.rem[|f|..]);
          assert fs[1..][1..] == fs[2..];
          assert SameConfig(Parse(fs[1]).value, Parse(fs[0]).value);
        }
      }
    }
  }

  lemma HeadParses(f: Frame, rest: seq<byte>, rem: seq<byte>)
    requires MinHeaderLen <= |rem| && rem <= f + rest
    ensures Parse(rem) == Parse(f)
  {
    ParseStable(rem[..MinHeaderLen], rem[MinHeaderLen..]);
    assert rem == rem[..MinHeaderLen] + rem[MinHeaderLen..];
    ParseStable(f[..MinHeaderLen], f[MinHeaderLen..]);
    assert f == f[..MinHeaderLen] + f[MinHeaderLen..];
    assert rem[..MinHeaderLen] == f[..MinHeaderLen];
  }

  lemma ActOnFrame(s: State, f: Frame)
    requires Judge(s) == Accept(Parse(f).value) && |f| <= |s.rem| && s.rem[..|f|] == f
    ensures var s' := Act(s, Judge(s)); s'.rem == s.rem[|f|..] && s'.log == s.log + [EventOf(f)]
  {
    hide Judge, Parse;
  }

  /** Draining a prefix of a well-formed stream takes whole frames and nothing else. */
  lemma {:induction false} DrainWellFormed(s: State, fs: seq<Frame>) returns (k: nat)
    requires SameStream(fs) && s.rem <= Concat(fs)
    ensures k <= |fs|
    ensures var s' := Drain(s);
            && s'.log == s.log + EventsOf(fs[..k])
            && s'.rem <= Concat(fs[k..])
            && |Concat(fs[k..])| - |s'.rem| == |Concat(fs)| - |s.rem|
            && (s.ended && s.rem == Concat(fs) ==> k == |fs|)
    decreases |s.rem|
  {
    hide Judge, Parse, EventOf, SameStream;
    JudgeWellFormed(s, fs);
    var v := Judge(s);
    if v.Wait? {
      k := 0;
      assert fs[0..] == fs && EventsOf(fs[..0]) == [];
      assert s.log + [] == s.log;
      ConcatNotEmpty(fs);
    } else {
      var s1 := Act(s, v);
      ActOnFrame(s, fs[0]);
      SameStreamSuffix(fs, 1);
      var k1 := DrainWellFormed(s1, fs[1..]);
      k := k1 + 1;
      assert fs[1..][k1..] == fs[k..];
      assert EventsOf(fs[..k]) == [EventOf(fs[0])] + EventsOf(fs[1..][..k1]);
      assert s.log + [EventOf(fs[0])] + EventsOf(fs[1..][..k1]) == s.log + EventsOf(fs[..k]);
    }
  }

  lemma {:induction false} RoundsWellFormed(s: State, fs: seq<Frame>, chunks: seq<seq<byte>>) returns (k: nat)
    requires SameStream(fs) && s.rem + Concat(chunks) == Concat(fs)
    ensures k <= |fs|
    ensures var s' := Rounds(s, chunks);
            s'.log == s.log + EventsOf(fs[..k]) && s'.rem == Concat(fs[k..]) && s'.ended == s.ended
    decreases |chunks|
  {
    hide Drain, SameStream, Concat, EventsOf, EventOf, IsFrame;
    if chunks == [] {
      k := 0;
      NoRounds(s, fs);
    } else {
      ConcatCons(chunks);
      var f := Fed(s, chunks[0]);
      assert f.rem + Concat(chunks[1..]) == Concat(fs);
      var k0 := DrainWellFormed(f, fs);
      var d := Drain(f);
      DrainKeepsEnded(f);
      SameStreamSuffix(fs, k0);
      RemainderMatches(f, d, fs, k0, Concat(chunks[1..]));
      var k1 := RoundsWellFormed(d, fs[k0..], chunks[1..]);
      k := k0 + k1;
      EventsSplit(s.log, fs, k0, k1);
    }
  }

  lemma NoRounds(s: State, fs: seq<Frame>)
    requires s.rem + Concat([]) == Concat(fs)
    ensures s.rem == Concat(fs[0..]) && s.log == s.log + EventsOf(fs[..0])
  {
    assert fs[0..] == fs && EventsOf(fs[..0]) == [] && s.rem + [] == s.rem;
  }

  lemma EventsSplit(log: seq<Event>, fs: seq<Frame>, k0: nat, k1: nat)
    requires k0 + k1 <= |fs|
    ensures fs[k0..][k1..] == fs[k0 + k1..]
    ensures log + EventsOf(fs[..k0]) + EventsOf(fs[k0..][..k1]) == log + EventsOf(fs[..k0 + k1])
  {
    hide EventOf;
    assert EventsOf(fs[..k0 + k1]) == EventsOf(fs[..k0]) + EventsOf(fs[k0..][..k1]);
  }

  lemma ConcatCons(ss: seq<seq<byte>>)
    requires ss != []
    ensures Concat(ss) == ss[0] + Concat(ss[1..])
  {
  }

  lemma SameStreamSuffix(fs: seq<Frame>, k: nat)
    requires SameStream(fs) && k <= |fs|
    ensures SameStream(fs[k..])
  {
  }

  lemma {:induction false} DrainKeepsEnded(s: State)
    ensures Drain(s).ended == s.ended
    decreases |s.rem|
  {
    hide Judge;
    if !Judge(s).Wait? {
      DrainKeepsEnded(Act(s, Judge(s)));
    }
  }

  lemma {:induction false} ConcatSuffix(fs: seq<Frame>, k: nat)
    requires k <= |fs|
    ensures Concat(fs) == Concat(fs[..k]) + Concat(fs[k..])
  {
    if k == 0 {
      assert fs[0..] == fs && fs[..0] == [];
    } else {
      ConcatSuffix(fs[1..], k - 1);
      assert fs[1..][..k - 1] == fs[..k][1..] && fs[1..][k - 1..] == fs[k..];
    }
  }

  /** What is left of a stream from some point on meets the same later bytes. */
  lemma LeftMeetsLater(rem: seq<byte>, whole: seq<byte>, rem': seq<byte>, left: seq<byte>, later: seq<byte>)
    requires rem + later == whole && rem' <= left && |left| <= |whole| && left == whole[|whole| - |left|..]
    requires |left| - |rem'| == |whole| - |rem|
    ensures rem' + later == left
  {
    assert later == whole[|rem|..];
    assert left[|rem'|..] == later;
    assert left == left[..|rem'|] + left[|rem'|..];
  }

  lemma RemainderMatches(f: State, d: State, fs: seq<Frame>, k: nat, later: seq<byte>)
    requires k <= |fs| && f.rem + later == Concat(fs)
    requires d.rem <= Concat(fs[k..]) && |Concat(fs[k..])| - |d.rem| == |Concat(fs)| - |f.rem|
    ensures d.rem + later == Concat(fs[k..])
  {
    hide Concat;
    ConcatSuffix(fs, k);
    LeftMeetsLater(f.rem, Concat(fs), d.rem, Concat(fs[k..]), later);
  }

  /**
   The delivery theorem: a stream of valid, mutually consistent frames, cut into chunks
   anywhere, yields exactly its single-block frames in order; the multi-block frames are
   the only gaps and nothing is left over.
   */
  lemma DeliveryTheorem(fs: seq<Frame>, chunks: seq<seq<byte>>)
    requires SameStream(fs) && Concat(chunks) == Concat(fs)
    ensures var s := Session(chunks);
            s.log == EventsOf(fs) && s.rem == [] && GapsAtEnd(s) == Gaps(EventsOf(fs))
  {
    hide Drain, Rounds, EventsOf, SameStream, Gaps;
    assert Start.rem + Concat(chunks) == Concat(fs);
    var k := RoundsWellFormed(Start, fs, chunks);
    var r := Rounds(Start, chunks).(ended := true);
    SameStreamSuffix(fs, k);
    var k1 := DrainWellFormed(r, fs[k..]);
    EventsSplit([], fs, k, k1);
    assert fs[..k + k1] == fs && fs[k + k1..] == [];
    assert [] + EventsOf(fs[..k]) == EventsOf(fs[..k]) && [] + EventsOf(fs) == EventsOf(fs);
  }

  /**
   On bytes that are not well formed, chunking matters: a frame at the end of a chunk is
   trusted once the stream is in sync, while with the junk behind it already there the
   same frame is a false sync.
   */
  lemma ChunkingMattersOnJunk(a: Frame, b: Frame, junk: seq<byte>)
    requires SameStream([a, b]) && Parse(a).value.numRawBlocks == 0 && Parse(b).value.numRawBlocks == 0
    requires |junk| >= MinHeaderLen && !Consistent(junk, Parse(b).value)
    ensures var h := Parse(b).value;
            && |Session([a + b, junk]).log| > 1 && Session([a + b, junk]).log[1] == Delivered(b, h)
            && |Session([a + b + junk]).log| > 1 && Session([a + b + junk]).log[1] == FalseSync(b[0])
  {
    hide Parse, Drain, Explains;
    TwoFrames(a, b, []);
    TwoFrames(a, b, junk);
    var s1 := Fed(Start, a + b + []);
    assert a + b + [] == a + b;
    assert Fed(Start, a + b) == s1;
    SessionExtends([a + b, junk], Drain(s1), [junk]);
    SessionExtends([a + b + junk], Drain(Fed(Start, a + b + junk)), []);
  }

  lemma SessionExtends(chunks: seq<seq<byte>>, s: State, later: seq<seq<byte>>)
    requires chunks != [] && s == Drain(Fed(Start, chunks[0])) && later == chunks[1..]
    ensures s.log <= Session(chunks).log
  {
    hide Drain;
    LogGrowsRounds(s, later);
    LogGrows(Rounds(s, later).(ended := true));
  }

  lemma {:induction false} LogGrows(s: State)
    ensures s.log <= Drain(s).log
    decreases |s.rem|
  {
    hide Judge;
    if !Judge(s).Wait? {
      LogGrows(Act(s, Judge(s)));
    }
  }

  lemma {:induction false} LogGrowsRounds(s: State, chunks: seq<seq<byte>>)
    ensures s.log <= Rounds(s, chunks).log
    decreases |chunks|
  {
    hide Drain;
    if chunks != [] {
      LogGrows(Fed(s, chunks[0]));
      LogGrowsRounds(Drain(Fed(s, chunks[0])), chunks[1..]);
    }
  }

  /** Two good frames in one chunk, followed by at least a header's worth of junk or by nothing. */
  lemma TwoFrames(a: Frame, b: Frame, junk: seq<byte>)
    requires SameStream([a, b]) && Parse(a).value.numRawBlocks == 0 && Parse(b).value.numRawBlocks == 0
    requires junk == [] || (|junk| >= MinHeaderLen && !Consistent(junk, Parse(b).value))
    ensures var log := Drain(Fed(Start, a + b + junk)).log;
            |log| > 1 && log[1] == if junk == [] then Delivered(b, Parse(b).value) else FalseSync(b[0])
  {
    hide Parse;
    assert SameConfig(Parse([a, b][1]).value, Parse([a, b][0]).value);
    var s := Fed(Start, a + b + junk);
    assert s.rem == a + (b + junk) == a + b + junk;
    HeadParses(a, b + junk, s.rem);
    assert s.rem[0..] == s.rem;
    assert HeaderAt(s.rem, 0);
    assert s.rem[|a|..] == b + junk && s.rem[..|a|] == a;
    HeadParses(b, junk, b + junk);
    assert Judge(s) == Accept(Parse(a).value);
    var t := Act(s, Judge(s));
    assert t.rem == b + junk && t.synced && t.log == [Delivered(a, Parse(a).value)];
    assert t.rem[0..] == t.rem;
    assert HeaderAt(t.rem, 0);
    assert t.rem[|b|..] == junk && t.rem[..|b|] == b;
    assert Judge(t) == if junk == [] then Accept(Parse(b).value) else Reject;
    LogGrows(Act(t, Judge(t)));
  }

  // ---- the framer object ---------------------------------------------------

  lemma LoseExposesHeader(s: State, i: nat)
    requires Scan(s.rem, 0) == Some(i) && 0 < i
    ensures Judge(s) == Lose(i)
    ensures Scan(s.rem[i..], 0) == Some(0)
  {
    hide Parse;
    assert s.rem[i..][0..] == s.rem[i..];
    assert HeaderAt(s.rem, i);
    assert HeaderAt(s.rem[i..], 0);
  }

  lemma JudgeNothing(s: State)
    requires Scan(s.rem, 0) == None
    ensures Judge(s) == if |s.rem| > MinHeaderLen - 1 then Lose(|s.rem| - (MinHeaderLen - 1)) else Wait
  {
  }

  lemma JudgeShort(s: State)
    requires |s.rem| < MinHeaderLen
    ensures Judge(s) == Wait
  {
  }

  /** The decision on a header at the cursor. */
  lemma ScanHere(s: State)
    requires Scan(s.rem, 0) == Some(0)
    ensures Parse(s.rem).Some?
    ensures var h := Parse(s.rem).value;
            Judge(s) == if |s.rem| < h.frameLen then Wait
                        else if |s.rem| >= h.frameLen + MinHeaderLen then
                          if Consistent(s.rem[h.frameLen..], h) then Accept(h) else Reject
                        else if !s.synced && !s.ended then Wait
                        else Accept(h)
  {
    hide Parse;
    assert s.rem[0..] == s.rem;
  }

  lemma NextWaits(s: State)
    requires Judge(s).Wait?
    ensures Next(s) == Outcome(s, false)
  {
  }

  lemma NextStep(s: State)
    requires !Judge(s).Wait?
    ensures Next(s) == if Delivers(Judge(s)) then Outcome(Act(s, Judge(s)), true) else Next(Act(s, Judge(s)))
  {
    hide Judge, Act;
  }

  lemma GapsSnoc(log: seq<Event>, e: Event)
    ensures Gaps(log + [e]) == Gaps(log) + if e.Delivered? then 0 else 1
  {
    assert (log + [e])[..|log|] == log;
  }

  /** Discarding, field by field. */
  lemma DiscardStep(s: State, n: nat, v: Verdict)
    requires v == Judge(s) && (v == Lose(n) || (v.Reject? && n == 1))
    ensures n <= |s.rem|
    ensures var t := Act(s, v);
            t == State(s.rem[n..], false, s.ended, t.log) && Gaps(t.log) == Gaps(s.log) + 1
  {
    hide Judge, Gaps;
    var t := Act(s, v);
    assert t.log == s.log + [t.log[|s.log|]];
    GapsSnoc(s.log, t.log[|s.log|]);
  }

  /** Accepting a frame, field by field. */
  lemma AcceptStep(s: State, h: Header, confirmed: bool)
    requires Judge(s) == Accept(h) && confirmed == (s.synced || |s.rem| >= h.frameLen + MinHeaderLen)
    ensures var t := Act(s, Accept(h));
            && t == State(s.rem[h.frameLen..], confirmed, s.ended, t.log)
            && Gaps(t.log) == (if h.numRawBlocks > 0 then Gaps(s.log) + 1 else Gaps(s.log))
            && (h.numRawBlocks == 0 ==> t.log == s.log + [Delivered(s.rem[..h.frameLen], h)])
  {
    hide Judge, Gaps;
    GapsSnoc(s.log, if h.numRawBlocks > 0 then Dropped(s.rem[..h.frameLen]) else Delivered(s.rem[..h.frameLen], h));
  }

  class Stream {
    var buf: seq<byte>
    var off: nat
    var synced: bool
    var ended: bool
    var gaps: nat
    var hdr: Option<Header>
    ghost var log: seq<Event>

    ghost predicate Valid()
      reads this
    {
      off <= |buf| && gaps == Gaps(log)
    }

    ghost function View(): State
      requires Valid()
      reads this
    {
      State(buf[off..], synced, ended, log)
    }

    constructor ()
      ensures Valid() && View() == Start && hdr == None
    {
      buf, off, synced, ended, gaps, hdr, log := [], 0, false, false, 0, None, [];
    }

    method Feed(p: seq<byte>)
      requires Valid()
      modifies this`buf
      ensures Valid() && View() == Fed(old(View()), p)
    {
      buf := buf + p;
    }

    /** Slides the unconsumed bytes to the front. */
    method Compact()
      requires Valid()
      modifies this`buf, this`off
      ensures Valid() && View() == old(View()) && off == 0
    {
      if off == 0 {
        return;
      }
      buf := buf[off..];
      off := 0;
    }

    method SetEOF()
      requires Valid()
      modifies this`ended
      ensures Valid() && View() == old(View()).(ended := true)
    {
      ended := true;
    }

    /** Charges a truncated final frame once. */
    method Finish()
      requires Valid()
      modifies this`gaps
      ensures gaps == GapsAtEnd(old(View()))
    {
      if |buf| - off > 0 {
        gaps := gaps + 1;
      }
    }

    /** Advances past `n` unusable bytes, which are one gap, and drops the sync. */
    method Discard(n: nat, ghost v: Verdict)
      requires Valid() && v == Judge(View()) && (v == Lose(n) || (v.Reject? && n == 1))
      modifies this`off, this`gaps, this`synced, this`log
      ensures Valid() && View() == Act(old(View()), v) && View().rem == old(View()).rem[n..]
    {
      hide Judge, Act, Gaps, Parse;
      DiscardStep(View(), n, v);
      ghost var s := View();
      assert buf[off + n..] == s.rem[n..];
      log := Act(s, v).log;
      off := off + n;
      gaps := gaps + 1;
      synced := false;
    }

    /** Takes the frame at the cursor; only a single-block frame is delivered. */
    method Take(h: Header, confirmed: bool) returns (frame: seq<byte>)
      requires Valid() && Judge(View()) == Accept(h)
      requires confirmed == (synced || |View().rem| >= h.frameLen + MinHeaderLen)
      modifies this`off, this`gaps, this`synced, this`log, this`hdr
      ensures Valid() && View() == Act(old(View()), Accept(h))
      ensures frame == old(View()).rem[..h.frameLen]
      ensures h.numRawBlocks == 0 ==> log == old(log) + [Delivered(frame, h)]
      ensures hdr == if h.numRawBlocks > 0 then old(hdr) else Some(h)
    {
      hide Judge, Act, Gaps, Parse;
      AcceptStep(View(), h, confirmed);
      ghost var s := View();
      frame := buf[off..off + h.frameLen];
      assert frame == s.rem[..h.frameLen] && buf[off + h.frameLen..] == s.rem[h.frameLen..];
      log := Act(s, Accept(h)).log;
      synced := confirmed;
      off := off + h.frameLen;
      if h.numRawBlocks > 0 {
        gaps := gaps + 1;
      } else {
        hdr := Some(h);
      }
    }

    /**
     The next deliverable access unit, header stripped, with its duration; or ok == false
     when nothing more can be confirmed.  The new state is exactly `Next` of the old one.
     */
    method NextFrame() returns (data: seq<byte>, dur: nat, ok: bool)
      requires Valid()
      modifies this`off, this`gaps, this`synced, this`log, this`hdr
      ensures Valid()
      ensures Outcome(View(), ok) == Next(old(View()))
      ensures !ok ==> data == [] && dur == 0 && hdr == old(hdr)
      ensures ok ==>
                var e := View().log[|View().log| - 1];
                hdr == Some(e.hdr) && e.hdr.headerLen <= |e.frame|
                && data == e.frame[e.hdr.headerLen..] && dur == FrameDuration(e.hdr)
    {
      hide Judge, Act, Next, Parse, Gaps;
      while true
        invariant Valid() && hdr == old(hdr)
        invariant Next(old(View())) == Next(View())
        decreases |buf| - off
      {
        var rem := buf[off..];
        var found := ScanADTS(rem);
        if found == None {
          JudgeNothing(View());
          if |rem| > MinHeaderLen - 1 {
            NextStep(View());
            Discard(|rem| - (MinHeaderLen - 1), Judge(View()));
            JudgeShort(View());
          }
          NextWaits(View());
          return [], 0, false;
        }
        var i := found.value;
        if i > 0 {
          LoseExposesHeader(View(), i);
          NextStep(View());
          Discard(i, Judge(View()));
          rem := buf[off..];
        }
        ScanHere(View());
        var h := Parse(rem).value;
        if |rem| < h.frameLen {
          NextWaits(View());
          return [], 0, false;
        }
        var confirmed := synced;
        if |rem| >= h.frameLen + MinHeaderLen {
          if !Consistent(rem[h.frameLen..], h) {
            NextStep(View());
            Discard(1, Judge(View()));
            continue;
          }
          confirmed := true;
        } else if !synced && !ended {
          NextWaits(View());
          return [], 0, false;
        }
        NextStep(View());
        var frame := Take(h, confirmed);
        if h.numRawBlocks > 0 {
          continue;
        }
        return frame[h.headerLen..], FrameDuration(h), true;
      }
    }
  }
}
