/**
 When does the ADTS framer cut the same frames out of a byte stream however the stream is chunked?
 In sync it trusts a frame at the end of the buffer; with more bytes there it may have rejected it.
 The answer is an exact condition on the bytes alone.
 */
module AdtsChunking {
  import opened Bits
  import opened Adts
  import opened AdtsFramer

  // ---- the frames taken, with their positions ------------------------------

  /** A frame taken from the stream, delivered or dropped, and where it started. */
  datatype Cut = Cut(at: nat, event: Event)

  predicate Takes(e: Event) { e.Delivered? || e.Dropped? }

  /** Bytes of the stream a log accounts for. */
  function Taken(log: seq<Event>): nat
  {
    if log == [] then 0 else Taken(log[..|log| - 1]) + |BytesOf(log[|log| - 1])|
  }

  function Frames(log: seq<Event>): seq<Cut>
  {
    if log == [] then [] else
      var init, e := log[..|log| - 1], log[|log| - 1];
      Frames(init) + if Takes(e) then [Cut(Taken(init), e)] else []
  }

  lemma LogSnoc(log: seq<Event>, e: Event)
    ensures Taken(log + [e]) == Taken(log) + |BytesOf(e)|
    ensures Frames(log + [e]) == Frames(log) + if Takes(e) then [Cut(Taken(log), e)] else []
  {
    assert (log + [e])[..|log|] == log;
  }

  // ---- the whole stream at once --------------------------------------------

  /** All of the stream from some point on, its end known. */
  function AtOnce(rem: seq<byte>, synced: bool): State { State(rem, synced, true, []) }

  /** The frames taken from `rem`, which starts `at` bytes into the stream. */
  function Cuts(rem: seq<byte>, synced: bool, at: nat): seq<Cut>
    decreases |rem|
  {
    var s := AtOnce(rem, synced);
    var v := Judge(s);
    if v.Wait? then [] else
      var t := Act(s, v);
      (if v.Accept? then [Cut(at, t.log[0])] else []) + Cuts(t.rem, t.synced, at + |rem| - |t.rem|)
  }

  function Less(a: nat, b: nat): nat { if a < b then 0 else a - b }

  /**
   Walking the whole stream, a header is rejected in sync only where the bytes that disprove it had
   to be there already: `seen` bytes were needed to reject an earlier header.
   */
  predicate Foreseen(rem: seq<byte>, synced: bool, seen: nat)
    decreases |rem|
  {
    var s := AtOnce(rem, synced);
    match Judge(s)
    case Wait => true
    case Lose(n) => Foreseen(rem[n..], false, Less(seen, n))
    case Reject =>
      var need := Parse(rem).value.frameLen + MinHeaderLen;
      && (synced ==> need <= seen)
      && Foreseen(rem[1..], false, (if seen < need then need else seen) - 1)
    case Accept(h) =>
      Foreseen(rem[h.frameLen..], synced || |rem| >= h.frameLen + MinHeaderLen, Less(seen, h.frameLen))
  }

  // ---- a buffer that ends early --------------------------------------------

  /** The first header of a longer buffer is the one found, if one was found. */
  lemma ScanMore(rem: seq<byte>, later: seq<byte>)
    ensures Scan(rem, 0).Some? ==> Scan(rem + later, 0) == Scan(rem, 0)
    ensures Scan(rem, 0).None? && Scan(rem + later, 0).Some? ==> Scan(rem + later, 0).value + MinHeaderLen > |rem|
  {
    hide Parse;
    forall j: nat | j + MinHeaderLen <= |rem|
      ensures HeaderAt(rem + later, j) <==> HeaderAt(rem, j)
    {
      assert (rem + later)[j..] == rem[j..] + later;
      ParseStable(rem[j..], later);
    }
  }

  /** A verdict on part of the stream, against the verdict on all of it. */
  lemma JudgeEarly(s: State, later: seq<byte>)
    requires !s.ended && !Judge(s).Wait?
    ensures var v, w := Judge(s), Judge(AtOnce(s.rem + later, s.synced));
            && (v.Lose? ==> w.Lose? && v.n <= w.n)
            && (v.Reject? ==> w.Reject?)
            && (v.Accept? ==> w == v || (w.Reject? && s.synced && |s.rem| < v.hdr.frameLen + MinHeaderLen))
            && (!v.Lose? ==> Parse(s.rem) == Parse(s.rem + later))
  {
    hide Parse;
    ScanMore(s.rem, later);
    var all := s.rem + later;
    if Scan(s.rem, 0) == Some(0) {
      assert s.rem[0..] == s.rem && all[0..] == all;
      ParseStable(s.rem, later);
      var h := Parse(s.rem).value;
      if |s.rem| >= h.frameLen + MinHeaderLen {
        assert all[h.frameLen..] == s.rem[h.frameLen..] + later;
        ParseStable(s.rem[h.frameLen..], later);
      }
    }
  }

  lemma LoseStep(rem: seq<byte>, synced: bool, n: nat, at: nat, seen: nat)
    requires Judge(AtOnce(rem, synced)) == Lose(n)
    ensures n <= |rem|
    ensures Cuts(rem, synced, at) == Cuts(rem[n..], false, at + n)
    ensures Foreseen(rem, synced, seen) == Foreseen(rem[n..], false, Less(seen, n))
  {
    hide Judge;
    assert [] + Cuts(rem[n..], false, at + n) == Cuts(rem[n..], false, at + n);
  }

  /** Garbage may be dropped in several steps. */
  lemma LoseInParts(rem: seq<byte>, synced: bool, n: nat, at: nat, seen: nat)
    requires Judge(AtOnce(rem, synced)).Lose? && n <= Judge(AtOnce(rem, synced)).n
    ensures n <= |rem|
    ensures Cuts(rem, synced, at) == Cuts(rem[n..], false, at + n)
    ensures Foreseen(rem, synced, seen) == Foreseen(rem[n..], false, Less(seen, n))
  {
    hide Judge, Cuts, Foreseen;
    var m := Judge(AtOnce(rem, synced)).n;
    LoseStep(rem, synced, m, at, seen);
    if n < m {
      LosesTheRest(rem, synced, n, m);
      LoseStep(rem[n..], false, m - n, at + n, Less(seen, n));
      assert rem[n..][m - n..] == rem[m..];
    }
  }

  lemma LosesTheRest(rem: seq<byte>, synced: bool, n: nat, m: nat)
    requires Judge(AtOnce(rem, synced)) == Lose(m) && n < m
    ensures m <= |rem| && Judge(AtOnce(rem[n..], false)) == Lose(m - n)
  {
    hide Parse;
    var rest := rem[n..];
    forall j: nat
      ensures HeaderAt(rest, j) <==> HeaderAt(rem, n + j)
    {
      if j + MinHeaderLen <= |rest| {
        assert rest[j..] == rem[n + j..];
      }
    }
    var r, q := Scan(rem, 0), Scan(rest, 0);
    if r.Some? {
      assert HeaderAt(rest, m - n);
    }
    if q.Some? {
      assert HeaderAt(rem, n + q.value);
    }
  }

  function EventAt(rem: seq<byte>, h: Header): Event
    requires h.frameLen <= |rem|
  {
    var frame := rem[..h.frameLen];
    if h.numRawBlocks > 0 then Dropped(frame) else Delivered(frame, h)
  }

  lemma AcceptUnfold(rem: seq<byte>, synced: bool, h: Header, at: nat, seen: nat)
    requires Judge(AtOnce(rem, synced)) == Accept(h)
    ensures var synced' := synced || |rem| >= h.frameLen + MinHeaderLen;
            && Cuts(rem, synced, at) == [Cut(at, EventAt(rem, h))] + Cuts(rem[h.frameLen..], synced', at + h.frameLen)
            && Foreseen(rem, synced, seen) == Foreseen(rem[h.frameLen..], synced', Less(seen, h.frameLen))
  {
    hide Judge;
  }

  lemma RejectUnfold(rem: seq<byte>, synced: bool, at: nat, seen: nat)
    requires Judge(AtOnce(rem, synced)).Reject?
    ensures var need := Parse(rem).value.frameLen + MinHeaderLen;
            && Cuts(rem, synced, at) == Cuts(rem[1..], false, at + 1)
            && (Foreseen(rem, synced, seen) <==>
                  && (synced ==> need <= seen)
                  && Foreseen(rem[1..], false, (if seen < need then need else seen) - 1))
  {
    hide Judge, Parse;
    assert [] + Cuts(rem[1..], false, at + 1) == Cuts(rem[1..], false, at + 1);
  }

  /** The frames taken so far and those the rest of the stream would yield, were it all there now. */
  function Outlook(s: State, later: seq<byte>): seq<Cut>
  {
    Frames(s.log) + Cuts(s.rem + later, s.synced, Taken(s.log))
  }

  /** One decision on a buffer that ends early does not change the outlook. */
  lemma ActFollows(s: State, later: seq<byte>, seen: nat) returns (seen': nat)
    requires !s.ended && !Judge(s).Wait? && seen <= |s.rem| && Foreseen(s.rem + later, s.synced, seen)
    ensures var t := Act(s, Judge(s));
            seen' <= |t.rem| && Foreseen(t.rem + later, t.synced, seen') && Outlook(t, later) == Outlook(s, later)
  {
    hide Parse, Cuts, Foreseen, Frames, Taken;
    var all, at, v := s.rem + later, Taken(s.log), Judge(s);
    JudgeEarly(s, later);
    match v
    case Lose(n) =>
      assert all[n..] == s.rem[n..] + later;
      LoseInParts(all, s.synced, n, at, seen);
      LogSnoc(s.log, Garbage(s.rem[..n]));
      assert Frames(s.log) + [] == Frames(s.log);
      seen' := Less(seen, n);
    case Reject =>
      assert all[1..] == s.rem[1..] + later;
      RejectUnfold(all, s.synced, at, seen);
      LogSnoc(s.log, FalseSync(s.rem[0]));
      assert Frames(s.log) + [] == Frames(s.log);
      var need := Parse(s.rem).value.frameLen + MinHeaderLen;
      seen' := (if seen < need then need else seen) - 1;
    case Accept(h) =>
      RejectUnfoldOnly(all, s.synced, at, seen);
      AcceptFollows(s, later, seen, h);
      seen' := Less(seen, h.frameLen);
  }

  lemma RejectUnfoldOnly(rem: seq<byte>, synced: bool, at: nat, seen: nat)
    requires Foreseen(rem, synced, seen)
    ensures Judge(AtOnce(rem, synced)).Reject? && synced ==> Parse(rem).value.frameLen + MinHeaderLen <= seen
  {
    hide Judge, Parse;
  }

  lemma AcceptFollows(s: State, later: seq<byte>, seen: nat, h: Header)
    requires !s.ended && Judge(s) == Accept(h) && Judge(AtOnce(s.rem + later, s.synced)) == Accept(h)
    requires Foreseen(s.rem + later, s.synced, seen)
    ensures var t := Act(s, Accept(h));
            Foreseen(t.rem + later, t.synced, Less(seen, h.frameLen)) && Outlook(t, later) == Outlook(s, later)
  {
    hide Cuts, Foreseen, Frames, Taken, Parse;
    var all, at := s.rem + later, Taken(s.log);
    AcceptUnfold(all, s.synced, h, at, seen);
    var e := EventAt(s.rem, h);
    assert all[..h.frameLen] == s.rem[..h.frameLen] && all[h.frameLen..] == s.rem[h.frameLen..] + later;
    LogSnoc(s.log, e);
    assert s.synced || |s.rem| >= h.frameLen + MinHeaderLen;
    hide Judge;
    var t := Act(s, Accept(h));
    assert Frames(t.log) == Frames(s.log) + [Cut(at, e)];
    var rest := Cuts(t.rem + later, t.synced, Taken(t.log));
    assert Frames(s.log) + ([Cut(at, e)] + rest) == Frames(s.log) + [Cut(at, e)] + rest;
  }

  lemma {:induction false} DrainFollows(s: State, later: seq<byte>, seen: nat) returns (seen': nat)
    requires !s.ended && seen <= |s.rem| && Foreseen(s.rem + later, s.synced, seen)
    ensures var t := Drain(s);
            && !t.ended && seen' <= |t.rem| && Foreseen(t.rem + later, t.synced, seen')
            && Outlook(t, later) == Outlook(s, later)
    decreases |s.rem|
  {
    hide Judge, Act, Foreseen, Outlook;
    seen' := seen;
    if !Judge(s).Wait? {
      var next := ActFollows(s, later, seen);
      seen' := DrainFollows(Act(s, Judge(s)), later, next);
    }
  }

  lemma {:induction false} RoundsFollow(s: State, chunks: seq<seq<byte>>, seen: nat)
    requires !s.ended && seen <= |s.rem| && Foreseen(s.rem + Concat(chunks), s.synced, seen)
    ensures var t := Rounds(s, chunks); !t.ended && Outlook(t, []) == Outlook(s, Concat(chunks))
    decreases |chunks|
  {
    hide Drain, Foreseen, Cuts, Frames, Taken;
    if chunks != [] {
      var f, later := Fed(s, chunks[0]), Concat(chunks[1..]);
      assert f.rem + later == s.rem + Concat(chunks);
      var next := DrainFollows(f, later, seen);
      RoundsFollow(Drain(f), chunks[1..], next);
    }
  }

  /** One decision on an ended stream takes the next frame in prospect, if it takes one. */
  lemma ActCuts(s: State)
    requires s.ended && !Judge(s).Wait?
    ensures var t := Act(s, Judge(s));
            Frames(t.log) + Cuts(t.rem, t.synced, Taken(t.log)) == Frames(s.log) + Cuts(s.rem, s.synced, Taken(s.log))
  {
    hide Parse, Judge, Frames, Taken, Cuts, Foreseen;
    JudgeIgnoresLog(s);
    var at := Taken(s.log);
    assert Frames(s.log) + [] == Frames(s.log);
    match Judge(s)
    case Lose(n) =>
      LoseStep(s.rem, s.synced, n, at, 0);
      LogSnoc(s.log, Garbage(s.rem[..n]));
    case Reject =>
      RejectUnfold(s.rem, s.synced, at, 0);
      LogSnoc(s.log, FalseSync(s.rem[0]));
    case Accept(h) =>
      AcceptUnfold(s.rem, s.synced, h, at, 0);
      var e := EventAt(s.rem, h);
      LogSnoc(s.log, e);
      var t := Act(s, Accept(h));
      var rest := Cuts(t.rem, t.synced, Taken(t.log));
      assert Frames(s.log) + ([Cut(at, e)] + rest) == Frames(s.log) + [Cut(at, e)] + rest;
  }

  lemma NoCuts(s: State)
    requires s.ended && Judge(s).Wait?
    ensures Cuts(s.rem, s.synced, Taken(s.log)) == []
  {
    hide Judge;
    JudgeIgnoresLog(s);
  }

  /** Draining the rest of an ended stream takes exactly the frames still in prospect. */
  lemma {:induction false} DrainCuts(s: State)
    requires s.ended
    ensures Frames(Drain(s).log) == Frames(s.log) + Cuts(s.rem, s.synced, Taken(s.log))
    decreases |s.rem|
  {
    hide Judge, Act, Frames, Taken, Cuts;
    if Judge(s).Wait? {
      NoCuts(s);
      assert Frames(s.log) + [] == Frames(s.log);
    } else {
      ActCuts(s);
      DrainCuts(Act(s, Judge(s)));
    }
  }

  lemma JudgeIgnoresLog(s: State)
    ensures Judge(s.(log := [])) == Judge(s)
  {
  }

  // ---- a stream on which it matters ----------------------------------------

  /** The same decision on the first `n` bytes, when they are enough for it. */
  lemma JudgePrefix(rem: seq<byte>, synced: bool, n: nat, log: seq<Event>)
    requires n <= |rem| && !Judge(AtOnce(rem, synced)).Wait?
    ensures var v, s := Judge(AtOnce(rem, synced)), State(rem[..n], synced, false, log);
            && (v.Lose? && v.n + MinHeaderLen <= n ==> Judge(s) == v)
            && (v.Reject? ==>
                  var h := Parse(rem).value;
                  && (h.frameLen + MinHeaderLen <= n ==> Judge(s) == v)
                  && (synced && h.frameLen <= n < h.frameLen + MinHeaderLen ==> Judge(s) == Accept(h)))
            && (v.Accept? && v.hdr.frameLen + MinHeaderLen <= n ==> Judge(s) == v)
  {
    hide Parse;
    var part, later := rem[..n], rem[n..];
    assert rem == part + later;
    ScanMore(part, later);
    assert rem[0..] == rem && part[0..] == part;
    if Scan(rem, 0).Some? && Scan(rem, 0).value + MinHeaderLen <= n {
      var i := Scan(rem, 0).value;
      assert rem[i..] == part[i..] + later;
      ParseStable(part[i..], later);
      assert HeaderAt(part, i);
      if i == 0 {
        var h := Parse(rem).value;
        if h.frameLen + MinHeaderLen <= n {
          assert rem[h.frameLen..] == part[h.frameLen..] + later;
          ParseStable(part[h.frameLen..], later);
        }
      }
    }
  }

  predicate Hits(cuts: seq<Cut>, p: nat)
  {
    exists k :: 0 <= k < |cuts| && cuts[k].at == p
  }

  lemma {:induction false} CutsFrom(rem: seq<byte>, synced: bool, at: nat)
    ensures forall k :: 0 <= k < |Cuts(rem, synced, at)| ==> at <= Cuts(rem, synced, at)[k].at
    decreases |rem|
  {
    hide Judge;
    var s := AtOnce(rem, synced);
    if !Judge(s).Wait? {
      var t := Act(s, Judge(s));
      hide Act;
      CutsFrom(t.rem, t.synced, at + |rem| - |t.rem|);
    }
  }

  lemma {:induction false} FramesGrow(a: seq<Event>, b: seq<Event>)
    requires a <= b
    ensures Frames(a) <= Frames(b)
    decreases |b|
  {
    if |a| < |b| {
      FramesGrow(a, b[..|b| - 1]);
    } else {
      assert a == b;
    }
  }

  /** In sync, with a whole frame and less than a header behind it, the framer takes what it would reject. */
  lemma Overtaken(rem: seq<byte>, at: nat, n: nat, log: seq<Event>)
    requires Judge(AtOnce(rem, true)).Reject? && Taken(log) == at
    requires Parse(rem).value.frameLen <= n < Parse(rem).value.frameLen + MinHeaderLen
    ensures n <= |rem| && !Hits(Cuts(rem, true, at), at)
    ensures Hits(Frames(Drain(State(rem[..n], true, false, log)).log), at)
  {
    hide Parse, Judge, Cuts, Frames, Taken, Foreseen, Drain;
    RejectUnfold(rem, true, at, 0);
    CutsFrom(rem[1..], false, at + 1);
    JudgePrefix(rem, true, n, log);
    var s, h := State(rem[..n], true, false, log), Parse(rem).value;
    var e := EventAt(s.rem, h);
    var t := Act(s, Accept(h));
    LogSnoc(log, e);
    assert Frames(t.log)[|Frames(log)|] == Cut(at, e);
    DrainStep(s);
    LogGrows(t);
    FramesGrow(t.log, Drain(t).log);
    assert Frames(Drain(t).log)[|Frames(log)|] == Cut(at, e);
  }

  lemma DrainStep(s: State)
    requires !Judge(s).Wait?
    ensures Drain(s) == Drain(Act(s, Judge(s)))
  {
    hide Judge, Act;
  }

  /** The decision of the whole stream, carried out on a prefix long enough for it. */
  lemma ActOnPrefix(rem: seq<byte>, synced: bool, n: nat, log: seq<Event>)
    requires n <= |rem|
    requires var v, s := Judge(AtOnce(rem, synced)), State(rem[..n], synced, false, log);
             && !v.Wait? && Judge(s) == v && (v.Accept? ==> v.hdr.frameLen + MinHeaderLen <= n)
    ensures var t := Act(AtOnce(rem, synced), Judge(AtOnce(rem, synced)));
            var k := |rem| - |t.rem|;
            && k <= n && |t.log| == 1 && |BytesOf(t.log[0])| == k && t.rem == rem[k..]
            && Drain(State(rem[..n], synced, false, log)) == Drain(State(t.rem[..n - k], t.synced, false, log + t.log))
  {
    hide Parse, Judge, Drain;
    var s := State(rem[..n], synced, false, log);
    DrainStep(s);
    var t := Act(AtOnce(rem, synced), Judge(s));
    var k := |rem| - |t.rem|;
    assert rem[..n][..k] == rem[..k] && rem[..n][k..] == rem[k..][..n - k];
    assert Act(s, Judge(s)).log == log + t.log;
  }

  /** Where the violation lies further on: what the next decision takes, and how much it needs. */
  lemma FurtherOn(rem: seq<byte>, synced: bool, at: nat, seen: nat) returns (seen': nat)
    requires !Foreseen(rem, synced, seen) && seen <= |rem| && !Judge(AtOnce(rem, synced)).Wait?
    requires Judge(AtOnce(rem, synced)).Reject? && synced ==> Parse(rem).value.frameLen + MinHeaderLen <= seen
    ensures var v := Judge(AtOnce(rem, synced)); var t := Act(AtOnce(rem, synced), v); var k := |rem| - |t.rem|;
            && !Foreseen(t.rem, t.synced, seen') && seen' <= |t.rem| && seen <= seen' + k
            && (v.Reject? ==> Parse(rem).value.frameLen + MinHeaderLen <= seen' + 1)
            && forall p :: at < p && !Hits(Cuts(t.rem, t.synced, at + k), p) ==> !Hits(Cuts(rem, synced, at), p)
  {
    hide Parse, Judge, Cuts, Foreseen, Hits;
    var v := Judge(AtOnce(rem, synced));
    match v
    case Lose(m) =>
      LoseStep(rem, synced, m, at, seen);
      seen' := Less(seen, m);
    case Reject =>
      RejectUnfold(rem, synced, at, seen);
      var need := Parse(rem).value.frameLen + MinHeaderLen;
      seen' := (if seen < need then need else seen) - 1;
    case Accept(h) =>
      AcceptUnfold(rem, synced, h, at, seen);
      seen' := Less(seen, h.frameLen);
      var t := Act(AtOnce(rem, synced), v);
      forall p | at < p && !Hits(Cuts(t.rem, t.synced, at + h.frameLen), p)
        ensures !Hits(Cuts(rem, synced, at), p)
      {
        HitsLater(Cut(at, EventAt(rem, h)), Cuts(t.rem, t.synced, at + h.frameLen), p);
      }
  }

  /** A way to cut off the buffer so that a frame is taken at `p`, where the whole stream yields none. */
  lemma {:induction false} FindOvertaken(rem: seq<byte>, synced: bool, at: nat, seen: nat, log: seq<Event>)
    returns (n: nat, p: nat)
    requires !Foreseen(rem, synced, seen) && seen <= |rem| && Taken(log) == at
    ensures seen <= n <= |rem| && MinHeaderLen <= n && at <= p
    ensures !Hits(Cuts(rem, synced, at), p)
    ensures Hits(Frames(Drain(State(rem[..n], synced, false, log)).log), p)
    decreases |rem|
  {
    hide Parse, Judge, Act, Cuts, Frames, Taken, Foreseen, Drain, Hits, BytesOf;
    SomethingAhead(rem, synced, seen);
    var v := Judge(AtOnce(rem, synced));
    if v.Reject? && synced && seen < Parse(rem).value.frameLen + MinHeaderLen {
      var len := Parse(rem).value.frameLen;
      n, p := if seen < len then len else seen, at;
      Overtaken(rem, at, n, log);
    } else {
      var seen' := FurtherOn(rem, synced, at, seen);
      var t := Act(AtOnce(rem, synced), v);
      var k := |rem| - |t.rem|;
      assert |t.log| == 1 && |BytesOf(t.log[0])| == k by { OneTaken(rem, synced); }
      LogSnoc(log, t.log[0]);
      assert log + t.log == log + [t.log[0]];
      n, p := FindOvertaken(t.rem, t.synced, at + k, seen', log + t.log);
      n := n + k;
      Sizes(rem, synced);
      JudgePrefix(rem, synced, n, log);
      ActOnPrefix(rem, synced, n, log);
    }
  }

  lemma OneTaken(rem: seq<byte>, synced: bool)
    requires !Judge(AtOnce(rem, synced)).Wait?
    ensures var t := Act(AtOnce(rem, synced), Judge(AtOnce(rem, synced)));
            |t.log| == 1 && |BytesOf(t.log[0])| == |rem| - |t.rem|
  {
    hide Judge;
  }

  /** How much each decision takes. */
  lemma Sizes(rem: seq<byte>, synced: bool)
    requires !Judge(AtOnce(rem, synced)).Wait?
    ensures var v := Judge(AtOnce(rem, synced)); var k := |rem| - |Act(AtOnce(rem, synced), v).rem|;
            && 0 < k && (v.Lose? ==> k == v.n) && (v.Reject? ==> k == 1) && (v.Accept? ==> k == v.hdr.frameLen)
  {
    hide Judge;
  }

  lemma SomethingAhead(rem: seq<byte>, synced: bool, seen: nat)
    requires !Foreseen(rem, synced, seen)
    ensures !Judge(AtOnce(rem, synced)).Wait?
  {
    hide Judge;
  }

  lemma HitsLater(c: Cut, cuts: seq<Cut>, p: nat)
    requires c.at < p && !Hits(cuts, p)
    ensures !Hits([c] + cuts, p)
  {
  }

  // ---- the exact condition -------------------------------------------------

  /** However the stream arrives, the same frames are taken from the same positions. */
  ghost predicate ChunkIndependent(stream: seq<byte>)
  {
    forall a, b :: Concat(a) == stream && Concat(b) == stream ==> Frames(Session(a).log) == Frames(Session(b).log)
  }

  /** A foreseen stream yields, in any chunks, the frames it yields at once. */
  lemma SessionTakes(chunks: seq<seq<byte>>)
    requires Foreseen(Concat(chunks), false, 0)
    ensures Frames(Session(chunks).log) == Cuts(Concat(chunks), false, 0)
  {
    hide Drain, Rounds, Foreseen, Cuts;
    assert Start.rem + Concat(chunks) == Concat(chunks) && Frames(Start.log) == [] && Taken(Start.log) == 0;
    RoundsFollow(Start, chunks, 0);
    var t := Rounds(Start, chunks);
    assert t.rem + [] == t.rem;
    DrainCuts(t.(ended := true));
  }

  /** The frames of a stream that arrives in one piece. */
  lemma OnePieceTakes(stream: seq<byte>)
    ensures Concat([stream]) == stream && Frames(Session([stream]).log) == Cuts(stream, false, 0)
  {
    hide Drain, Cuts, Judge;
    assert [stream][1..] == [] && stream + [] == stream && [] + stream == stream;
    var s := Fed(Start, stream);
    assert Rounds(Start, [stream]) == Rounds(Drain(s), []) == Drain(s);
    DrainEndedTwice(s);
    assert Frames([]) == [] && Taken([]) == 0;
    DrainCuts(s.(ended := true));
  }

  /** Knowing the end from the start changes nothing when all the bytes are there. */
  lemma {:induction false} DrainEndedTwice(s: State)
    requires !s.ended
    ensures Drain(Drain(s).(ended := true)) == Drain(s.(ended := true))
    decreases |s.rem|
  {
    hide Judge, Act;
    if !Judge(s).Wait? {
      EndKeepsVerdict(s);
      DrainEndedTwice(Act(s, Judge(s)));
    }
  }

  lemma EndKeepsVerdict(s: State)
    requires !s.ended && !Judge(s).Wait?
    ensures var e := s.(ended := true); Judge(e) == Judge(s) && Act(e, Judge(s)) == Act(s, Judge(s)).(ended := true)
  {
    hide Parse;
  }

  /**
   Chunking does not matter exactly when every header the whole stream rejects in sync is foreseen:
   when the bytes that disprove it were needed before to reject some other header.
   */
  lemma ChunkingExactly(stream: seq<byte>)
    ensures ChunkIndependent(stream) <==> Foreseen(stream, false, 0)
  {
    hide Foreseen, Session, Cuts, Frames;
    if Foreseen(stream, false, 0) {
      forall chunks | Concat(chunks) == stream
        ensures Frames(Session(chunks).log) == Cuts(stream, false, 0)
      {
        SessionTakes(chunks);
      }
    } else {
      var n, p := Interrupted(stream);
      OnePieceTakes(stream);
      TwoPieces(stream, n);
      assert Frames(Session([stream]).log) != Frames(Session([stream[..n], stream[n..]]).log);
    }
  }

  lemma TwoPieces(stream: seq<byte>, n: nat)
    requires n <= |stream|
    ensures Concat([stream[..n], stream[n..]]) == stream
  {
    var a, b := stream[..n], stream[n..];
    var tail: seq<seq<byte>> := [b];
    assert [a, b][1..] == tail && tail[1..] == [] && b + [] == b;
    assert Concat(tail) == b + Concat(tail[1..]);
    assert Concat([a, b]) == a + Concat(tail);
  }

  /** Cut off at the right place, the stream yields a frame it does not yield at once. */
  lemma Interrupted(stream: seq<byte>) returns (n: nat, p: nat)
    requires !Foreseen(stream, false, 0)
    ensures n <= |stream| && !Hits(Cuts(stream, false, 0), p)
    ensures Hits(Frames(Session([stream[..n], stream[n..]]).log), p)
  {
    hide Foreseen, Cuts, Frames, Drain, Session;
    assert Taken([]) == 0;
    n, p := FindOvertaken(stream, false, 0, 0, []);
    var a, b := stream[..n], stream[n..];
    assert [] + a == a;
    var d := Drain(Fed(Start, a));
    SessionExtends([a, b], d, [b]);
    FramesGrow(d.log, Session([a, b]).log);
    var k :| 0 <= k < |Frames(d.log)| && Frames(d.log)[k].at == p;
    assert Frames(Session([a, b]).log)[k].at == p;
  }

  // ---- the simpler condition -----------------------------------------------

  /** Walking the whole stream, no header is rejected in sync. */
  predicate KeepsSync(rem: seq<byte>, synced: bool)
    decreases |rem|
  {
    var s := AtOnce(rem, synced);
    var v := Judge(s);
    v.Wait? || (!(v.Reject? && synced) && KeepsSync(Act(s, v).rem, Act(s, v).synced))
  }

  /** A stream that keeps its sync is cut the same in any chunks. */
  lemma {:induction false} KeptSyncIsForeseen(rem: seq<byte>, synced: bool, seen: nat)
    requires KeepsSync(rem, synced)
    ensures Foreseen(rem, synced, seen)
    decreases |rem|
  {
    hide Parse;
    var s := AtOnce(rem, synced);
    var v := Judge(s);
    if !v.Wait? {
      var t := Act(s, v);
      var later := match v
        case Lose(n) => Less(seen, n)
        case Reject =>
          var need := Parse(rem).value.frameLen + MinHeaderLen;
          (if seen < need then need else seen) - 1
        case Accept(h) => Less(seen, h.frameLen);
      hide Judge;
      KeptSyncIsForeseen(t.rem, t.synced, later);
    }
  }

  // A false header that declares 23 bytes, two frames of 8 bytes, and no header behind them.
  const FalseHeader: seq<byte> := [0xFF, 0xF1, 0x50, 0x80, 0x02, 0xE0, 0x00]
  const TinyFrame: seq<byte> := [0xFF, 0xF1, 0x50, 0x80, 0x01, 0x00, 0x00, 0x00]
  const NoHeader: seq<byte> := [0, 0, 0, 0, 0, 0, 0]

  /** The first header of a stream, found by its first byte. */
  lemma ScanFinds(rem: seq<byte>, i: nat)
    requires i + MinHeaderLen <= |rem| && Parse(rem[i..]).Some? && forall j :: 0 <= j < i ==> rem[j] != 0xFF
    ensures Scan(rem, 0) == Some(i)
  {
    hide Parse;
    assert HeaderAt(rem, i);
    forall j: nat | j < i
      ensures !HeaderAt(rem, j)
    {
      Prefilter(rem[j..]);
    }
  }

  lemma ScanFails(rem: seq<byte>)
    requires forall j :: 0 <= j < |rem| ==> rem[j] != 0xFF
    ensures Scan(rem, 0) == None
  {
    hide Parse;
    forall j: nat
      ensures !HeaderAt(rem, j)
    {
      if j + MinHeaderLen <= |rem| {
        Prefilter(rem[j..]);
      }
    }
  }

  /** The false header is rejected, out of sync, and its bytes are garbage. */
  lemma FirstRejected()
    ensures var rem := FalseHeader + TinyFrame + TinyFrame + NoHeader;
            && Judge(AtOnce(rem, false)).Reject? && Parse(rem).value.frameLen == 23
            && Judge(AtOnce(rem[1..], false)) == Lose(6) && rem[1..][6..] == TinyFrame + TinyFrame + NoHeader
  {
    var rem := FalseHeader + TinyFrame + TinyFrame + NoHeader;
    assert rem[0..] == rem && rem[23..] == NoHeader;
    ScanFinds(rem, 0);
    assert rem[1..][6..] == TinyFrame + TinyFrame + NoHeader;
    ScanFinds(rem[1..], 6);
  }

  /** The first frame is confirmed by the second. */
  lemma FrameInSync()
    ensures var rem := TinyFrame + TinyFrame + NoHeader;
            Judge(AtOnce(rem, false)).Accept? && Judge(AtOnce(rem, false)).hdr.frameLen == 8
            && rem[8..] == TinyFrame + NoHeader
  {
    var rem := TinyFrame + TinyFrame + NoHeader;
    assert rem[0..] == rem && rem[8..] == TinyFrame + NoHeader;
    ScanFinds(rem, 0);
  }

  /** The second is rejected in sync, and nothing but garbage is left. */
  lemma LostInSync()
    ensures var rem := TinyFrame + NoHeader;
            && Judge(AtOnce(rem, true)).Reject? && Parse(rem).value.frameLen == 8
            && Judge(AtOnce(rem[1..], false)) == Lose(8) && Judge(AtOnce(rem[1..][8..], false)).Wait?
  {
    var rem := TinyFrame + NoHeader;
    assert rem[0..] == rem && rem[8..] == NoHeader;
    ScanFinds(rem, 0);
    ScanFails(rem[1..]);
    ScanFails(rem[1..][8..]);
  }

  lemma SyncUnfold(rem: seq<byte>, synced: bool)
    requires !Judge(AtOnce(rem, synced)).Wait?
    ensures var s := AtOnce(rem, synced);
            KeepsSync(rem, synced) ==> KeepsSync(Act(s, Judge(s)).rem, Act(s, Judge(s)).synced)
  {
    hide Judge;
  }

  lemma EndsHere(rem: seq<byte>, synced: bool, seen: nat)
    requires Judge(AtOnce(rem, synced)).Wait?
    ensures Foreseen(rem, synced, seen)
  {
    hide Judge;
  }

  lemma NotKept(rem: seq<byte>)
    requires Judge(AtOnce(rem, true)).Reject?
    ensures !KeepsSync(rem, true)
  {
    hide Judge;
  }

  /** Keeping sync is not necessary: on this stream sync is lost, and yet chunking does not matter. */
  lemma SyncNeedNotBeKept()
    ensures var stream := FalseHeader + TinyFrame + TinyFrame + NoHeader;
            ChunkIndependent(stream) && !KeepsSync(stream, false)
  {
    hide Session, Frames, Parse, Judge, Foreseen, KeepsSync, Cuts;
    var r0 := FalseHeader + TinyFrame + TinyFrame + NoHeader;
    var r2, r3 := TinyFrame + TinyFrame + NoHeader, TinyFrame + NoHeader;
    FirstRejected();
    FrameInSync();
    LostInSync();
    var rest := r3[1..][8..];
    EndsHere(rest, false, 6);
    NotKept(r3);
    LoseStep(r3[1..], false, 8, 0, 14);
    RejectUnfold(r3, true, 0, 15);
    AcceptUnfold(r2, false, Judge(AtOnce(r2, false)).hdr, 0, 23);
    LoseStep(r0[1..], false, 6, 0, 29);
    RejectUnfold(r0, false, 0, 0);
    SyncUnfold(r0, false);
    SyncUnfold(r0[1..], false);
    SyncUnfold(r2, false);
    ChunkingExactly(r0);
  }
}
