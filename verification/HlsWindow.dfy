/**
 The HLS live window (RFC 8216): how a media playlist numbers its segments, and how reloads are
 turned into segments fetched, skipped and missed, with the losses reported downstream.
 */
module HlsWindow {
  const MaxInt: nat := 0x7FFF_FFFF_FFFF_FFFF
  const MaxUint64: nat := 0xFFFF_FFFF_FFFF_FFFF
  const MaxSegments: nat := 131072

  datatype Segment = Segment(seqNo: nat, duration: nat, discontinuity: bool, gap: bool)

  // ---- segment numbering ---------------------------------------------------

  /** A playlist line as far as segments are concerned. */
  datatype Line = MediaSequence(n: nat) | Extinf(duration: nat) | Discontinuity | GapTag | Uri | Ignored

  /** The parser's state: numbering base, segments so far, and what is pending for the next URI. */
  datatype Parser = Parser(base: nat, segments: seq<Segment>, extinf: bool, duration: nat, disc: bool, gap: bool)

  const NewParser := Parser(0, [], false, 0, false, false)

  datatype Parsed = Parsed(parser: Parser) | Refused

  function ParseLine(p: Parser, l: Line): Parsed
  {
    match l
    case MediaSequence(n) => if n > MaxUint64 - (MaxSegments - 1) then Refused else Parsed(p.(base := n))
    case Extinf(d) => Parsed(p.(extinf := true, duration := d))
    case Discontinuity => Parsed(p.(disc := true))
    case GapTag => Parsed(p.(gap := true))
    case Ignored => Parsed(p)
    case Uri =>
      if !p.extinf || |p.segments| >= MaxSegments then Refused
      else Parsed(p.(segments := p.segments + [Segment(p.base + |p.segments|, p.duration, p.disc, p.gap)],
                     extinf := false, disc := false, gap := false))
  }

  function ParseLines(lines: seq<Line>): Parsed
  {
    if lines == [] then Parsed(NewParser) else
      match ParseLines(lines[..|lines| - 1])
      case Refused => Refused
      case Parsed(p) => ParseLine(p, lines[|lines| - 1])
  }

  predicate Consecutive(segs: seq<Segment>)
  {
    forall i :: 0 <= i < |segs| - 1 ==> segs[i + 1].seqNo == segs[i].seqNo + 1
  }

  /** No segment number wraps, whatever the playlist says. */
  lemma {:induction false} NumbersFit(lines: seq<Line>)
    requires ParseLines(lines).Parsed?
    ensures var p := ParseLines(lines).parser;
            && |p.segments| <= MaxSegments && p.base <= MaxUint64 - (MaxSegments - 1)
            && forall i :: 0 <= i < |p.segments| ==> p.segments[i].seqNo <= MaxUint64
  {
    if lines != [] {
      NumbersFit(lines[..|lines| - 1]);
    }
  }

  /** The media sequence in effect behind these lines: the last one stated, or 0. */
  function BaseOf(lines: seq<Line>): nat
  {
    if lines == [] then 0
    else if lines[|lines| - 1].MediaSequence? then lines[|lines| - 1].n
    else BaseOf(lines[..|lines| - 1])
  }

  /** Any two URI lines have the same media sequence in effect. */
  predicate OneBase(lines: seq<Line>)
  {
    forall i, j :: 0 <= i < |lines| && 0 <= j < |lines| && lines[i] == Uri && lines[j] == Uri ==>
      BaseOf(lines[..i]) == BaseOf(lines[..j])
  }

  /** The media sequences in effect at the URI lines, in order. */
  function UriBases(lines: seq<Line>): seq<nat>
  {
    if lines == [] then [] else
      var init := lines[..|lines| - 1];
      UriBases(init) + if lines[|lines| - 1] == Uri then [BaseOf(init)] else []
  }

  /** Line `i` is a URI with media sequence `b` in effect. */
  predicate UriAt(lines: seq<Line>, i: nat, b: nat)
  {
    i < |lines| && lines[i] == Uri && BaseOf(lines[..i]) == b
  }

  /** Segment k is numbered k above the media sequence in effect at its URI. */
  lemma {:induction false} NumberedByBase(lines: seq<Line>)
    requires ParseLines(lines).Parsed?
    ensures var p := ParseLines(lines).parser; var bs := UriBases(lines);
            && p.base == BaseOf(lines) && |bs| == |p.segments|
            && forall k :: 0 <= k < |bs| ==> p.segments[k].seqNo == bs[k] + k
  {
    if lines != [] {
      NumberedByBase(lines[..|lines| - 1]);
    }
  }

  lemma {:induction false} BasesAreAtUris(lines: seq<Line>, b: nat)
    ensures b in UriBases(lines) <==> exists i :: UriAt(lines, i, b)
  {
    if lines != [] {
      hide BaseOf;
      var n := |lines| - 1;
      var init := lines[..n];
      BasesAreAtUris(init, b);
      forall i: nat
        ensures i < n ==> (UriAt(lines, i, b) <==> UriAt(init, i, b))
      {
        if i < n {
          assert init[..i] == lines[..i];
        }
      }
      assert UriAt(lines, n, b) <==> lines[n] == Uri && BaseOf(init) == b;
    }
  }

  /** Numbers that rise by one over positions are one base plus the position. */
  lemma {:induction false} RisingByOne(segs: seq<Segment>, bs: seq<nat>, k: nat)
    requires |bs| == |segs| && Consecutive(segs) && k < |bs|
    requires forall i :: 0 <= i < |bs| ==> segs[i].seqNo == bs[i] + i
    ensures bs[k] == bs[0]
  {
    if k > 0 {
      RisingByOne(segs, bs, k - 1);
      assert segs[k - 1 + 1].seqNo == segs[k - 1].seqNo + 1;
    }
  }

  /**
   An accepted playlist numbers its segments consecutively exactly when no two of its URI lines have
   different media sequences in effect: a late tag is harmless when it restates the number in force
   or when no URI follows it.
   */
  lemma ConsecutiveExactly(lines: seq<Line>)
    requires ParseLines(lines).Parsed?
    ensures Consecutive(ParseLines(lines).parser.segments) <==> OneBase(lines)
  {
    hide ParseLines, UriBases, BaseOf;
    NumberedByBase(lines);
    var segs, bs := ParseLines(lines).parser.segments, UriBases(lines);
    forall b: nat
      ensures b in bs <==> exists i :: UriAt(lines, i, b)
    {
      BasesAreAtUris(lines, b);
    }
    if Consecutive(segs) {
      forall i, j | 0 <= i < |lines| && 0 <= j < |lines| && lines[i] == Uri && lines[j] == Uri
        ensures BaseOf(lines[..i]) == BaseOf(lines[..j])
      {
        var b, c := BaseOf(lines[..i]), BaseOf(lines[..j]);
        assert UriAt(lines, i, b) && UriAt(lines, j, c);
        assert b in bs && c in bs;
        var k: nat :| k < |bs| && bs[k] == b;
        var l: nat :| l < |bs| && bs[l] == c;
        RisingByOne(segs, bs, k);
        RisingByOne(segs, bs, l);
      }
    }
    if OneBase(lines) {
      forall k | 0 <= k < |segs| - 1
        ensures segs[k + 1].seqNo == segs[k].seqNo + 1
      {
        assert bs[k] in bs && bs[k + 1] in bs;
        var i :| UriAt(lines, i, bs[k]);
        var j :| UriAt(lines, j, bs[k + 1]);
      }
    }
  }

  lemma ParseSnoc(lines: seq<Line>, l: Line)
    ensures ParseLines(lines + [l])
            == if ParseLines(lines).Refused? then Refused else ParseLine(ParseLines(lines).parser, l)
  {
    assert (lines + [l])[..|lines|] == lines;
  }

  /** Stated later, it breaks the numbering: the very next segment can repeat an earlier number. */
  lemma LateNumberingRepeats(a: seq<Line>, n: nat, d: nat)
    requires ParseLines(a).Parsed? && 1 <= |ParseLines(a).parser.segments| < MaxSegments
    requires var segs := ParseLines(a).parser.segments; segs[|segs| - 1].seqNo == n + |segs|
    requires n <= MaxUint64 - (MaxSegments - 1)
    ensures var k := |ParseLines(a).parser.segments|;
            var r := ParseLines(a + [MediaSequence(n)] + [Extinf(d)] + [Uri]);
            r.Parsed? && |r.parser.segments| == k + 1 && r.parser.segments[k].seqNo == r.parser.segments[k - 1].seqNo
  {
    hide ParseLines;
    ParseSnoc(a, MediaSequence(n));
    ParseSnoc(a + [MediaSequence(n)], Extinf(d));
    ParseSnoc(a + [MediaSequence(n)] + [Extinf(d)], Uri);
  }

  // ---- the window ----------------------------------------------------------

  /** What happened, in order: segments missed (and how many of them were reported), skipped, fetched; frames. */
  datatype Event =
    | Missed(lost: nat, reported: nat)
    | Skipped(seqNo: nat, duration: nat)
    | Fetched(seqNo: nat, disc: bool, marked: bool)
    | Frame(seqGap: nat, duration: nat)

  datatype Window = Window(lastSeq: nat, seqGap: nat, disc: bool, pts: nat, log: seq<Event>)

  /** What fetching and demuxing one segment yields: frame durations, and whether it went through. */
  datatype Fetch = Unfetched | Demuxed(frames: seq<nat>, ok: bool)

  /** What a segment meets outside: its fetch, and whether the source is found closed behind it. */
  datatype Reply = Reply(fetch: Fetch, closed: bool)

  function DeliverFrame(w: Window, duration: nat): Window
  {
    w.(pts := w.pts + duration, seqGap := 0, log := w.log + [Frame(w.seqGap, duration)])
  }

  function DeliverFrames(w: Window, frames: seq<nat>): Window
  {
    if frames == [] then w else DeliverFrame(DeliverFrames(w, frames[..|frames| - 1]), frames[|frames| - 1])
  }

  /** The segments between the last one processed and `s`, fallen out of the window. */
  function Notice(w: Window, s: Segment, first: bool): Window
  {
    if first && s.seqNo > w.lastSeq + 1 then
      var lost := s.seqNo - w.lastSeq - 1;
      var reported := if lost > MaxInt then MaxInt else lost;
      w.(seqGap := w.seqGap + reported, disc := true, log := w.log + [Missed(lost, reported)])
    else w
  }

  /** A session goes on, was closed between segments, or failed in one. */
  datatype Status = Going | Closed | Failed

  datatype Step = Step(window: Window, status: Status)

  /** One new segment: skipped when marked absent, else fetched and demuxed. */
  function ProcessSegment(w: Window, s: Segment, f: Fetch): Step
  {
    if s.gap then
      Step(w.(pts := w.pts + s.duration, seqGap := w.seqGap + 1, log := w.log + [Skipped(s.seqNo, s.duration)]), Going)
    else if f.Unfetched? then Step(w, Failed)
    else
      var disc := w.disc || s.discontinuity;
      Step(DeliverFrames(w.(log := w.log + [Fetched(s.seqNo, disc, s.discontinuity)]), f.frames),
           if f.ok then Going else Failed)
  }

  /** One playlist entry, new or old. */
  function Advance(w: Window, s: Segment, x: Reply, first: bool): Step
  {
    if s.seqNo <= w.lastSeq then Step(w, Going) else
      var r := ProcessSegment(Notice(w, s, first), s, x.fetch);
      if r.status.Failed? then r
      else Step(r.window.(disc := s.gap, lastSeq := s.seqNo), if x.closed then Closed else Going)
  }

  /** A whole playlist; `first` until a new segment has been processed. */
  function Reload(w: Window, segs: seq<Segment>, xs: seq<Reply>, first: bool): Step
    requires |segs| == |xs|
    decreases |segs|
  {
    if segs == [] then Step(w, Going) else
      var r := Advance(w, segs[0], xs[0], first);
      if !r.status.Going? then r else Reload(r.window, segs[1..], xs[1..], first && segs[0].seqNo <= w.lastSeq)
  }

  // ---- what the log is promised --------------------------------------------

  /** The segment numbers processed, in order. */
  function Processed(log: seq<Event>): seq<nat>
  {
    if log == [] then [] else
      var e := log[|log| - 1];
      Processed(log[..|log| - 1]) + if e.Skipped? || e.Fetched? then [e.seqNo] else []
  }

  predicate Increasing(ns: seq<nat>, above: int)
  {
    forall i :: 0 <= i < |ns| ==> above < ns[i] && (i > 0 ==> ns[i - 1] < ns[i])
  }

  function Reported(log: seq<Event>): nat
  {
    if log == [] then 0 else Reported(log[..|log| - 1]) + if log[|log| - 1].Frame? then log[|log| - 1].seqGap else 0
  }

  /** Losses charged: reported window drops and gap segments. */
  function Charged(log: seq<Event>): nat
  {
    if log == [] then 0 else
      var e := log[|log| - 1];
      Charged(log[..|log| - 1]) + if e.Missed? then e.reported else if e.Skipped? then 1 else 0
  }

  /** Segment numbers accounted for: missed, skipped or fetched. */
  function Accounted(log: seq<Event>): nat
  {
    if log == [] then 0 else
      var e := log[|log| - 1];
      Accounted(log[..|log| - 1]) + if e.Missed? then e.lost else if e.Skipped? || e.Fetched? then 1 else 0
  }

  /** Media time: frames delivered and gap segments, and nothing for window drops. */
  function Clock(log: seq<Event>): nat
  {
    if log == [] then 0 else
      var e := log[|log| - 1];
      Clock(log[..|log| - 1]) + if e.Frame? || e.Skipped? then e.duration else 0
  }

  /** Does the log, frames aside, end in a loss? */
  predicate Broken(log: seq<Event>)
  {
    log != [] && var e := log[|log| - 1];
    e.Missed? || e.Skipped? || (e.Frame? && Broken(log[..|log| - 1]))
  }

  /** Each fetch resets the demuxer exactly when it is marked or right behind a loss. */
  predicate DiscsRight(log: seq<Event>)
  {
    log != [] ==>
      && DiscsRight(log[..|log| - 1])
      && (log[|log| - 1].Fetched? ==>
            (log[|log| - 1].disc <==> log[|log| - 1].marked || Broken(log[..|log| - 1])))
  }

  /** Every window drop is reported in full, up to the largest count a frame can carry. */
  predicate DropsReported(log: seq<Event>)
  {
    forall i :: 0 <= i < |log| && log[i].Missed? ==>
      log[i].reported == if log[i].lost > MaxInt then MaxInt else log[i].lost
  }

  lemma LogSnoc(log: seq<Event>, e: Event)
    ensures Processed(log + [e]) == Processed(log) + if e.Skipped? || e.Fetched? then [e.seqNo] else []
    ensures Reported(log + [e]) == Reported(log) + if e.Frame? then e.seqGap else 0
    ensures Charged(log + [e]) == Charged(log) + if e.Missed? then e.reported else if e.Skipped? then 1 else 0
    ensures Accounted(log + [e])
            == Accounted(log) + if e.Missed? then e.lost else if e.Skipped? || e.Fetched? then 1 else 0
    ensures Clock(log + [e]) == Clock(log) + if e.Frame? || e.Skipped? then e.duration else 0
    ensures Broken(log + [e]) <==> e.Missed? || e.Skipped? || (e.Frame? && Broken(log))
    ensures DiscsRight(log + [e]) <==> DiscsRight(log) && (e.Fetched? ==> (e.disc <==> e.marked || Broken(log)))
  {
    assert (log + [e])[..|log|] == log;
  }

  /** What holds even when a segment fails and ends the session. */
  predicate Balanced(w: Window, from: int)
  {
    && Increasing(Processed(w.log), from)
    && Reported(w.log) + w.seqGap == Charged(w.log)
    && w.pts == Clock(w.log)
    && DiscsRight(w.log)
    && DropsReported(w.log)
  }

  /** Between segments of a session that started just past number `from`. */
  predicate Settled(w: Window, from: int)
  {
    && Balanced(w, from)
    && w.lastSeq == (if Processed(w.log) == [] then from else Processed(w.log)[|Processed(w.log)| - 1])
    && (w.disc <==> Broken(w.log))
  }

  lemma {:induction false} FramesKept(w: Window, frames: seq<nat>, from: int)
    requires Balanced(w, from)
    ensures var t := DeliverFrames(w, frames);
            && Balanced(t, from) && Processed(t.log) == Processed(w.log) && t.lastSeq == w.lastSeq && t.disc == w.disc
            && Accounted(t.log) == Accounted(w.log) && (Broken(t.log) <==> Broken(w.log))
  {
    hide Processed, Reported, Charged, Clock, DiscsRight, Accounted, Broken, Increasing;
    if frames != [] {
      var init := frames[..|frames| - 1];
      FramesKept(w, init, from);
      var t := DeliverFrames(w, init);
      LogSnoc(t.log, Frame(t.seqGap, frames[|frames| - 1]));
      assert Processed(t.log) + [] == Processed(t.log);
    }
  }

  lemma NoticeKept(w: Window, s: Segment, first: bool, from: int)
    requires Settled(w, from)
    ensures var t := Notice(w, s, first);
            && Settled(t, from) && t.lastSeq == w.lastSeq && Processed(t.log) == Processed(w.log)
            && Accounted(t.log) == Accounted(w.log) + if first
              && s.seqNo > w.lastSeq + 1 then s.seqNo - w.lastSeq - 1 else 0
  {
    hide Processed, Reported, Charged, Clock, DiscsRight, Accounted, Broken, Increasing;
    if first && s.seqNo > w.lastSeq + 1 {
      var t := Notice(w, s, first);
      LogSnoc(w.log, t.log[|w.log|]);
      assert Processed(w.log) + [] == Processed(w.log);
    }
  }

  lemma IncreasingSnoc(ns: seq<nat>, n: nat, from: int)
    requires Increasing(ns, from) && n > (if ns == [] then from else ns[|ns| - 1])
    ensures Increasing(ns + [n], from)
  {
  }

  /** One entry keeps the books, and accounts for the numbers up to it when it is the next one or the first new one. */
  lemma AdvanceKept(w: Window, s: Segment, x: Reply, first: bool, from: int)
    requires Settled(w, from)
    ensures var r := Advance(w, s, x, first);
            && Balanced(r.window, from)
            && (!r.status.Failed? ==> Settled(r.window, from))
            && (!r.status.Failed? && s.seqNo > w.lastSeq && (first || s.seqNo == w.lastSeq + 1) ==>
                  Accounted(r.window.log) - Accounted(w.log) == s.seqNo - w.lastSeq && r.window.lastSeq == s.seqNo)
  {
    hide Processed, Reported, Charged, Clock, DiscsRight, Accounted, Broken, Increasing;
    if s.seqNo > w.lastSeq {
      NoticeKept(w, s, first, from);
      hide Notice;
      var n := Notice(w, s, first);
      IncreasingSnoc(Processed(n.log), s.seqNo, from);
      if s.gap {
        LogSnoc(n.log, Skipped(s.seqNo, s.duration));
      } else if x.fetch.Demuxed? {
        var e := Fetched(s.seqNo, n.disc || s.discontinuity, s.discontinuity);
        LogSnoc(n.log, e);
        assert Processed(n.log) + [s.seqNo] == Processed(n.log + [e]);
        FramesKept(n.(log := n.log + [e]), x.fetch.frames, from);
      }
    }
  }

  /**
   Any reload keeps the books: processed numbers strictly increase, so nothing is fetched twice; what
   frames reported plus what is pending is what was charged; the demuxer is reset exactly when a
   segment is marked or right behind a loss; and the clock has only frames and gap segments in it.
   */
  lemma {:induction false} ReloadKept(w: Window, segs: seq<Segment>, xs: seq<Reply>, first: bool, from: int)
    requires |segs| == |xs| && Settled(w, from)
    ensures var r := Reload(w, segs, xs, first);
            Balanced(r.window, from) && (!r.status.Failed? ==> Settled(r.window, from))
    decreases |segs|
  {
    hide Settled, Balanced, Advance;
    if segs != [] {
      AdvanceKept(w, segs[0], xs[0], first, from);
      var r := Advance(w, segs[0], xs[0], first);
      if r.status.Going? {
        ReloadKept(r.window, segs[1..], xs[1..], first && segs[0].seqNo <= w.lastSeq, from);
      }
    } else {
      SettledBalances(w, from);
    }
  }

  lemma SettledBalances(w: Window, from: int)
    requires Settled(w, from)
    ensures Balanced(w, from)
  {
  }

  /** With consecutive numbering every number the window moves past is fetched, skipped or counted as missed. */
  lemma {:induction false} ReloadAccounts(w: Window, segs: seq<Segment>, xs: seq<Reply>, first: bool, from: int)
    requires |segs| == |xs| && Settled(w, from) && Consecutive(segs)
    requires !first && segs != [] ==> segs[0].seqNo <= w.lastSeq + 1
    ensures var r := Reload(w, segs, xs, first);
            !r.status.Failed? ==> Accounted(r.window.log) - Accounted(w.log) == r.window.lastSeq - w.lastSeq
    decreases |segs|
  {
    hide Settled, Balanced, Accounted;
    if segs != [] {
      AdvanceKept(w, segs[0], xs[0], first, from);
      var r := Advance(w, segs[0], xs[0], first);
      if r.status.Going? {
        assert r.window.lastSeq == if segs[0].seqNo <= w.lastSeq then w.lastSeq else segs[0].seqNo;
        hide Advance;
        assert |segs| > 1 ==> segs[1].seqNo == segs[0].seqNo + 1;
        ReloadAccounts(r.window, segs[1..], xs[1..], first && segs[0].seqNo <= w.lastSeq, from);
      }
    }
  }

  // ---- whole sessions ------------------------------------------------------

  datatype Visit = Visit(segs: seq<Segment>, replies: seq<Reply>)

  function Session(from: nat, visits: seq<Visit>): Step
    requires forall i :: 0 <= i < |visits| ==> |visits[i].segs| == |visits[i].replies|
  {
    if visits == [] then Step(Window(from, 0, false, 0, []), Going) else
      var r := Session(from, visits[..|visits| - 1]);
      if !r.status.Going? then r else
        var v := visits[|visits| - 1];
        Reload(r.window, v.segs, v.replies, true)
  }

  /** The live-window promise over any run of reloads, of any playlists and any outcomes of fetching. */
  lemma {:induction false} SessionKept(from: nat, visits: seq<Visit>)
    requires forall i :: 0 <= i < |visits| ==> |visits[i].segs| == |visits[i].replies|
    ensures var r := Session(from, visits); Balanced(r.window, from) && (!r.status.Failed? ==> Settled(r.window, from))
  {
    if visits == [] {
      assert Settled(Window(from, 0, false, 0, []), from);
    } else {
      hide Settled, Balanced, Reload;
      SessionKept(from, visits[..|visits| - 1]);
      var r := Session(from, visits[..|visits| - 1]);
      if r.status.Going? {
        var v := visits[|visits| - 1];
        ReloadKept(r.window, v.segs, v.replies, true, from);
      }
    }
  }

  /** With consecutive playlists the window's advance is exactly what was fetched, skipped and missed. */
  lemma {:induction false} SessionAccounts(from: nat, visits: seq<Visit>)
    requires forall i :: 0 <= i < |visits| ==> |visits[i].segs| == |visits[i].replies| && Consecutive(visits[i].segs)
    ensures var r := Session(from, visits); !r.status.Failed? ==> r.window.lastSeq - from == Accounted(r.window.log)
  {
    if visits != [] {
      hide Settled, Balanced, Reload, Accounted;
      SessionAccounts(from, visits[..|visits| - 1]);
      SessionKept(from, visits[..|visits| - 1]);
      var r := Session(from, visits[..|visits| - 1]);
      if r.status.Going? {
        var v := visits[|visits| - 1];
        assert Consecutive(v.segs);
        ReloadAccounts(r.window, v.segs, v.replies, true, from);
      }
    }
  }

  lemma {:induction false} NeverTwice(ns: seq<nat>, from: int, i: nat, j: nat)
    requires Increasing(ns, from) && i < j < |ns|
    ensures ns[i] < ns[j]
  {
    if i + 1 < j {
      NeverTwice(ns, from, i, j - 1);
    }
  }

  // ---- the source object ---------------------------------------------------

  class LiveSource {
    var lastSeq: nat
    var pendingSeqGap: nat
    var pendingDisc: bool
    var mediaPTS: nat
    ghost var log: seq<Event>

    ghost function View(): Window
      reads this
    {
      Window(lastSeq, pendingSeqGap, pendingDisc, mediaPTS, log)
    }

    /** A source whose first segment, number `from`, was taken care of when it was opened. */
    constructor (from: nat)
      ensures View() == Window(from, 0, false, 0, [])
    {
      lastSeq, pendingSeqGap, pendingDisc, mediaPTS, log := from, 0, false, 0, [];
    }

    method Deliver(duration: nat) returns (seqGap: nat)
      modifies this`pendingSeqGap, this`mediaPTS, this`log
      ensures View() == DeliverFrame(old(View()), duration) && seqGap == old(pendingSeqGap)
    {
      log := log + [Frame(pendingSeqGap, duration)];
      if duration > 0 {
        mediaPTS := mediaPTS + duration;
      }
      seqGap := pendingSeqGap;
      pendingSeqGap := 0;
    }

    method Process(s: Segment, disc: bool, f: Fetch) returns (r: Status)
      requires disc == (pendingDisc || s.discontinuity)
      modifies this`pendingSeqGap, this`mediaPTS, this`log
      ensures Step(View(), r) == ProcessSegment(old(View()), s, f)
    {
      if s.gap {
        mediaPTS := mediaPTS + s.duration;
        pendingSeqGap := pendingSeqGap + 1;
        log := log + [Skipped(s.seqNo, s.duration)];
        return Going;
      }
      if f.Unfetched? {
        return Failed;
      }
      log := log + [Fetched(s.seqNo, disc, s.discontinuity)];
      ghost var w := View();
      for i := 0 to |f.frames|
        invariant View() == DeliverFrames(w, f.frames[..i])
      {
        assert f.frames[..i + 1][..i] == f.frames[..i];
        var gap := Deliver(f.frames[i]);
      }
      assert f.frames[..|f.frames|] == f.frames;
      return if f.ok then Going else Failed;
    }

    /** Every new segment of one playlist, in order. */
    method ProcessNewSegments(segs: seq<Segment>, xs: seq<Reply>) returns (delivered: bool, r: Status)
      requires |segs| == |xs|
      modifies this
      ensures Step(View(), r) == Reload(old(View()), segs, xs, true)
    {
      delivered := false;
      for i := 0 to |segs|
        invariant Reload(View(), segs[i..], xs[i..], !delivered) == Reload(old(View()), segs, xs, true)
      {
        ghost var w := View();
        var s := segs[i];
        assert segs[i..][0] == s && segs[i..][1..] == segs[i + 1..];
        assert xs[i..][0] == xs[i] && xs[i..][1..] == xs[i + 1..];
        if s.seqNo <= lastSeq {
          continue;
        }
        if !delivered && s.seqNo > lastSeq + 1 {
          var gap := s.seqNo - lastSeq - 1;
          var missed := if gap > MaxInt then MaxInt else gap;
          log := log + [Missed(gap, missed)];
          pendingSeqGap := pendingSeqGap + missed;
          pendingDisc := true;
        }
        assert View() == Notice(w, s, !delivered);
        var done := Process(s, pendingDisc || s.discontinuity, xs[i].fetch);
        if done.Failed? {
          return delivered, Failed;
        }
        pendingDisc := s.gap;
        lastSeq := s.seqNo;
        delivered := true;
        if xs[i].closed {
          return delivered, Closed;
        }
      }
      return delivered, Going;
    }
  }
}
