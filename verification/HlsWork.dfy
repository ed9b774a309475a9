/**
 What a live session does with its playlists, entry by entry: which segments it skips and fetches, which
 frames it hands on, and on which of them a loss is reported.
 */
module HlsWork {
  import opened HlsWindow

  /** The log without its losses: segments skipped or fetched, and the durations of frames. */
  datatype Item = Skip(seqNo: nat, duration: nat) | Fetch(seqNo: nat, marked: bool) | Play(duration: nat)

  function ItemOf(e: Event): seq<Item>
  {
    match e
    case Missed(_, _) => []
    case Skipped(n, d) => [Skip(n, d)]
    case Fetched(n, _, marked) => [Fetch(n, marked)]
    case Frame(_, d) => [Play(d)]
  }

  function Items(log: seq<Event>): seq<Item>
  {
    if log == [] then [] else Items(log[..|log| - 1]) + ItemOf(log[|log| - 1])
  }

  function Plays(frames: seq<nat>): (r: seq<Item>)
    ensures |r| == |frames|
  {
    seq(|frames|, i requires 0 <= i < |frames| => Play(frames[i]))
  }

  /**
   What the entries of a playlist call for behind number `last`: each that is above all before it is
   skipped when marked absent and else fetched, with all its frames; nothing behind a failure or a close.
   */
  function Due(segs: seq<Segment>, xs: seq<Reply>, last: nat): seq<Item>
    requires |segs| == |xs|
    decreases |segs|
  {
    if segs == [] then [] else
      var s, x := segs[0], xs[0];
      if s.seqNo <= last then Due(segs[1..], xs[1..], last)
      else if s.gap then [Skip(s.seqNo, s.duration)] + if x.closed then [] else Due(segs[1..], xs[1..], s.seqNo)
      else if x.fetch.Unfetched? then []
      else [Fetch(s.seqNo, s.discontinuity)] + Plays(x.fetch.frames)
           + if x.closed || !x.fetch.ok then [] else Due(segs[1..], xs[1..], s.seqNo)
  }

  /** Every frame reports all that was charged before it. */
  predicate Prompt(log: seq<Event>)
  {
    log != [] ==> Prompt(log[..|log| - 1]) && (log[|log| - 1].Frame? ==> Reported(log) == Charged(log))
  }

  lemma ItemsSnoc(log: seq<Event>, e: Event)
    ensures Items(log + [e]) == Items(log) + ItemOf(e)
    ensures Prompt(log + [e]) <==> Prompt(log) && (e.Frame? ==> Reported(log + [e]) == Charged(log + [e]))
  {
    assert (log + [e])[..|log|] == log;
  }

  lemma {:induction false} FramesDo(w: Window, frames: seq<nat>, from: int)
    requires Balanced(w, from) && Prompt(w.log)
    ensures var t := DeliverFrames(w, frames);
            && Items(t.log) == Items(w.log) + Plays(frames) && Prompt(t.log)
            && t.lastSeq == w.lastSeq && t.disc == w.disc
  {
    hide Balanced, Items, Prompt;
    if frames == [] {
      assert Items(w.log) + Plays(frames) == Items(w.log);
    } else {
      var init, d := frames[..|frames| - 1], frames[|frames| - 1];
      FramesDo(w, init, from);
      FramesKept(w, init, from);
      FramesKept(w, frames, from);
      var t := DeliverFrames(w, init);
      ItemsSnoc(t.log, Frame(t.seqGap, d));
      assert Plays(frames) == Plays(init) + [Play(d)];
      FrameReports(DeliverFrames(w, frames), from);
    }
  }

  lemma FrameReports(w: Window, from: int)
    requires Balanced(w, from) && w.seqGap == 0
    ensures Reported(w.log) == Charged(w.log)
  {
  }

  lemma NoticeDoes(w: Window, s: Segment, first: bool)
    requires Prompt(w.log)
    ensures var t := Notice(w, s, first); Items(t.log) == Items(w.log) && Prompt(t.log) && t.lastSeq == w.lastSeq
  {
    hide Items, Prompt;
    var t := Notice(w, s, first);
    if t.log != w.log {
      ItemsSnoc(w.log, t.log[|w.log|]);
      assert Items(w.log) + [] == Items(w.log);
    }
  }

  /** One new entry. */
  lemma EntryDoes(w: Window, s: Segment, x: Reply, first: bool, from: int)
    requires Settled(w, from) && Prompt(w.log) && s.seqNo > w.lastSeq
    ensures var r := Advance(w, s, x, first);
            && Prompt(r.window.log)
            && Items(r.window.log) == Items(w.log) + Due([s], [x], w.lastSeq)
            && (r.status.Going? ==> r.window.lastSeq == s.seqNo)
            && (r.status.Going? <==> (s.gap || (x.fetch.Demuxed? && x.fetch.ok)) && !x.closed)
  {
    hide Items, Prompt, Settled, Balanced, Due, DeliverFrames, Plays;
    var n := Notice(w, s, first);
    NoticeDoes(w, s, first);
    NoticeKept(w, s, first, from);
    OneDue(s, x, w.lastSeq);
    hide Notice;
    if s.gap {
      ItemsSnoc(n.log, Skipped(s.seqNo, s.duration));
    } else if x.fetch.Demuxed? {
      FetchDoes(n, s, x.fetch.frames, from);
    } else {
      assert Items(w.log) + [] == Items(w.log);
    }
  }

  lemma FetchDoes(n: Window, s: Segment, frames: seq<nat>, from: int)
    requires Settled(n, from) && Prompt(n.log) && s.seqNo > n.lastSeq
    ensures var f := n.(log := n.log + [Fetched(s.seqNo, n.disc || s.discontinuity, s.discontinuity)]);
            var t := DeliverFrames(f, frames);
            && Items(t.log) == Items(n.log) + ([Fetch(s.seqNo, s.discontinuity)] + Plays(frames)) && Prompt(t.log)
  {
    hide Items, Prompt, Settled, Balanced, DeliverFrames, Plays;
    var e := Fetched(s.seqNo, n.disc || s.discontinuity, s.discontinuity);
    ItemsSnoc(n.log, e);
    FetchKept(n, e, from, s);
    FramesDo(n.(log := n.log + [e]), frames, from);
    assert Items(n.log) + [Fetch(s.seqNo, s.discontinuity)] + Plays(frames)
        == Items(n.log) + ([Fetch(s.seqNo, s.discontinuity)] + Plays(frames));
  }

  lemma OneDue(s: Segment, x: Reply, last: nat)
    requires s.seqNo > last
    ensures Due([s], [x], last) ==
            if s.gap then [Skip(s.seqNo, s.duration)]
            else if x.fetch.Unfetched? then []
            else [Fetch(s.seqNo, s.discontinuity)] + Plays(x.fetch.frames)
  {
    assert [s][1..] == [] && [x][1..] == [];
  }

  lemma FetchKept(n: Window, e: Event, from: int, s: Segment)
    requires Settled(n, from) && s.seqNo > n.lastSeq
    requires e == Fetched(s.seqNo, n.disc || s.discontinuity, s.discontinuity)
    ensures Balanced(n.(log := n.log + [e]), from)
  {
    hide Processed, Reported, Charged, Clock, DiscsRight, Broken, Increasing;
    LogSnoc(n.log, e);
    IncreasingSnoc(Processed(n.log), s.seqNo, from);
  }

  /** A reload does exactly what its playlist calls for, and every frame reports all losses before it. */
  lemma {:induction false} ReloadDoes(w: Window, segs: seq<Segment>, xs: seq<Reply>, first: bool, from: int)
    requires |segs| == |xs| && Settled(w, from) && Prompt(w.log)
    ensures var r := Reload(w, segs, xs, first);
            Items(r.window.log) == Items(w.log) + Due(segs, xs, w.lastSeq) && Prompt(r.window.log)
    decreases |segs|
  {
    hide Settled, Items, Prompt, Plays, Due, Reload, Advance;
    if segs == [] {
      NothingDue(w, segs, xs, first);
      assert Items(w.log) + [] == Items(w.log);
    } else {
      ReloadUnfold(w, segs, xs, first);
      if segs[0].seqNo <= w.lastSeq {
        ReloadDoes(w, segs[1..], xs[1..], first, from);
      } else {
        EntryDoes(w, segs[0], xs[0], first, from);
        var r := Advance(w, segs[0], xs[0], first);
        if r.status.Going? {
          AdvanceKept(w, segs[0], xs[0], first, from);
          ReloadDoes(r.window, segs[1..], xs[1..], false, from);
          DueStep(segs, xs, w.lastSeq);
          var due, rest := Due([segs[0]], [xs[0]], w.lastSeq), Due(segs[1..], xs[1..], segs[0].seqNo);
          assert Items(w.log) + due + rest == Items(w.log) + (due + rest);
        } else {
          DueStop(segs, xs, w.lastSeq);
        }
      }
    }
  }

  lemma NothingDue(w: Window, segs: seq<Segment>, xs: seq<Reply>, first: bool)
    requires segs == [] && xs == []
    ensures Reload(w, segs, xs, first) == Step(w, Going) && Due(segs, xs, w.lastSeq) == []
  {
  }

  lemma ReloadUnfold(w: Window, segs: seq<Segment>, xs: seq<Reply>, first: bool)
    requires |segs| == |xs| > 0
    ensures segs[0].seqNo <= w.lastSeq ==>
              && Reload(w, segs, xs, first) == Reload(w, segs[1..], xs[1..], first)
              && Due(segs, xs, w.lastSeq) == Due(segs[1..], xs[1..], w.lastSeq)
    ensures segs[0].seqNo > w.lastSeq ==>
              var r := Advance(w, segs[0], xs[0], first);
              Reload(w, segs, xs, first) == if r.status.Going? then Reload(r.window, segs[1..], xs[1..], false) else r
  {
    hide ProcessSegment, Notice, Plays;
  }

  lemma DueStep(segs: seq<Segment>, xs: seq<Reply>, last: nat)
    requires |segs| == |xs| > 0 && segs[0].seqNo > last
    requires (segs[0].gap || (xs[0].fetch.Demuxed? && xs[0].fetch.ok)) && !xs[0].closed
    ensures Due(segs, xs, last) == Due([segs[0]], [xs[0]], last) + Due(segs[1..], xs[1..], segs[0].seqNo)
  {
    OneDue(segs[0], xs[0], last);
  }

  lemma DueStop(segs: seq<Segment>, xs: seq<Reply>, last: nat)
    requires |segs| == |xs| > 0 && segs[0].seqNo > last
    requires !((segs[0].gap || (xs[0].fetch.Demuxed? && xs[0].fetch.ok)) && !xs[0].closed)
    ensures Due(segs, xs, last) == Due([segs[0]], [xs[0]], last)
  {
    OneDue(segs[0], xs[0], last);
  }

  // ---- whole sessions ------------------------------------------------------

  /** What all playlists of a session call for, each behind the last number of those before it. */
  function AllDue(from: nat, visits: seq<Visit>): seq<Item>
    requires forall i :: 0 <= i < |visits| ==> |visits[i].segs| == |visits[i].replies|
  {
    if visits == [] then [] else
      var init, v := visits[..|visits| - 1], visits[|visits| - 1];
      var r := Session(from, init);
      AllDue(from, init) + if r.status.Going? then Due(v.segs, v.replies, r.window.lastSeq) else []
  }

  /**
   Over any reloads a session skips, fetches and plays exactly what its playlists call for, in order, and
   no frame leaves a loss charged before it for a later one to report.
   */
  lemma {:induction false} SessionDoes(from: nat, visits: seq<Visit>)
    requires forall i :: 0 <= i < |visits| ==> |visits[i].segs| == |visits[i].replies|
    ensures var r := Session(from, visits); Items(r.window.log) == AllDue(from, visits) && Prompt(r.window.log)
  {
    if visits != [] {
      hide Reload, Items, Prompt, Settled, Balanced;
      var init, v := visits[..|visits| - 1], visits[|visits| - 1];
      SessionDoes(from, init);
      SessionKept(from, init);
      var r := Session(from, init);
      if r.status.Going? {
        ReloadDoes(r.window, v.segs, v.replies, true, from);
      }
    } else {
      assert Items([]) == [] && Prompt([]);
    }
  }

  /** Consecutive entries behind `last`: those that carry a number above it, in order, when all goes well. */
  function Above(segs: seq<Segment>, xs: seq<Reply>, last: nat): seq<Item>
    requires |segs| == |xs|
    decreases |segs|
  {
    if segs == [] then [] else
      (if segs[0].seqNo <= last then []
       else if segs[0].gap then [Skip(segs[0].seqNo, segs[0].duration)]
       else [Fetch(segs[0].seqNo, segs[0].discontinuity)]
            + (if xs[0].fetch.Demuxed? then Plays(xs[0].fetch.frames) else []))
      + Above(segs[1..], xs[1..], last)
  }

  /** In a consecutive playlist that goes through, each entry above the last number is due once, whole. */
  lemma {:induction false} ConsecutiveDue(segs: seq<Segment>, xs: seq<Reply>, last: nat, above: nat)
    requires |segs| == |xs| && Consecutive(segs) && last <= above
    requires segs != [] && above > last ==> segs[0].seqNo > above
    requires forall i :: 0 <= i < |xs| ==> !xs[i].closed && xs[i].fetch.Demuxed? && xs[i].fetch.ok
    ensures Due(segs, xs, above) == Above(segs, xs, last)
    decreases |segs|
  {
    hide Plays;
    if segs != [] {
      var s := segs[0];
      assert |segs| > 1 ==> segs[1].seqNo == s.seqNo + 1;
      assert Consecutive(segs[1..]) by {
        forall i | 0 <= i < |segs[1..]| - 1
          ensures segs[1..][i + 1].seqNo == segs[1..][i].seqNo + 1
        {
          assert segs[i + 1 + 1].seqNo == segs[i + 1].seqNo + 1;
        }
      }
      ConsecutiveDue(segs[1..], xs[1..], last, if s.seqNo <= above then above else s.seqNo);
    }
  }

  // ---- playlists as written ------------------------------------------------

  /** A segment as a playlist states it. */
  datatype Written = Written(duration: nat, discontinuity: bool, gap: bool)

  function LinesOf(x: Written): seq<Line>
  {
    (if x.discontinuity then [Discontinuity] else []) + (if x.gap then [GapTag] else []) + [Extinf(x.duration), Uri]
  }

  function Playlist(base: nat, xs: seq<Written>): seq<Line>
  {
    if xs == [] then [MediaSequence(base)] else Playlist(base, xs[..|xs| - 1]) + LinesOf(xs[|xs| - 1])
  }

  function SegmentsOf(base: nat, xs: seq<Written>): (r: seq<Segment>)
    ensures |r| == |xs|
  {
    seq(|xs|, i requires 0 <= i < |xs| => Segment(base + i, xs[i].duration, xs[i].discontinuity, xs[i].gap))
  }

  /** One segment's lines add that segment, and leave nothing pending. */
  lemma SegmentReads(lines: seq<Line>, x: Written)
    requires ParseLines(lines).Parsed? && |ParseLines(lines).parser.segments| < MaxSegments
    requires var p := ParseLines(lines).parser; !p.extinf && !p.disc && !p.gap
    ensures var p, q := ParseLines(lines).parser, ParseLines(lines + LinesOf(x));
            q.Parsed? && !q.parser.extinf && !q.parser.disc && !q.parser.gap && q.parser.base == p.base
            && q.parser.segments
            == p.segments + [Segment(p.base + |p.segments|, x.duration, x.discontinuity, x.gap)]
  {
    hide ParseLines;
    var a := if x.discontinuity then lines + [Discontinuity] else lines;
    var b := if x.gap then a + [GapTag] else a;
    var c := b + [Extinf(x.duration)];
    ParseSnoc(lines, Discontinuity);
    ParseSnoc(a, GapTag);
    ParseSnoc(b, Extinf(x.duration));
    ParseSnoc(c, Uri);
    assert lines + LinesOf(x) == c + [Uri];
  }

  /** A playlist gives its segments back: numbered from its media sequence, each with its own marks. */
  lemma {:induction false} PlaylistReadsBack(base: nat, xs: seq<Written>)
    requires base <= MaxUint64 - (MaxSegments - 1) && |xs| <= MaxSegments
    ensures var r := ParseLines(Playlist(base, xs));
            r.Parsed? && r.parser == Parser(base, SegmentsOf(base, xs), false, r.parser.duration, false, false)
  {
    hide ParseLines, LinesOf;
    if xs == [] {
      ParseSnoc([], MediaSequence(base));
      assert [] + [MediaSequence(base)] == [MediaSequence(base)];
      assert ParseLines([]) == Parsed(NewParser) by { NoLines(); }
    } else {
      var init, x := xs[..|xs| - 1], xs[|xs| - 1];
      PlaylistReadsBack(base, init);
      SegmentReads(Playlist(base, init), x);
      assert SegmentsOf(base, xs) == SegmentsOf(base, init)
          + [Segment(base + |init|, x.duration, x.discontinuity, x.gap)];
    }
  }

  lemma NoLines()
    ensures ParseLines([]) == Parsed(NewParser)
  {
  }
}
