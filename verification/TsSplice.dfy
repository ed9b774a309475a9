/** What a lost packet does to the access units: nothing delivered reaches across a restart. */
module TsSplice {
  import opened Bits
  import opened TsPacket
  import opened TsDemux
  import opened TsLoss
  import opened TsDemuxer
  import F = AdtsFramer

  // ---- restarts separate ---------------------------------------------------

  /** A framing with more delivered and charged before it. */
  function Shifted(r: Framing, past: seq<AU>, gaps: nat): Framing
  {
    Framing(r.framer, past + r.past, gaps + r.gaps)
  }

  lemma PerformShifted(r: Framing, a: Action, past: seq<AU>, gaps: nat)
    ensures Perform(Shifted(r, past, gaps), a) == Shifted(Perform(r, a), past, gaps)
  {
    hide F.Drain, F.Fed, Units, F.GapsAtEnd;
    assert past + r.past + Units(Ended(r.framer).log) == past + (r.past + Units(Ended(r.framer).log));
  }

  /** Behind a restart the framer knows nothing of what came before. */
  lemma {:induction false} FromStart(x: seq<Action>, b: seq<Action>)
    requires Replay(x).framer == F.Start
    ensures Replay(x + b) == Shifted(Replay(b), Replay(x).past, Replay(x).gaps)
    decreases |b|
  {
    if b == [] {
      assert x + b == x;
      assert Replay(x).past + [] == Replay(x).past;
    } else {
      hide Perform, Shifted, Replay;
      var init, a := b[..|b| - 1], b[|b| - 1];
      assert b == init + [a] && x + b == (x + init) + [a];
      FromStart(x, init);
      ReplaySnoc(init, a);
      ReplaySnoc(x + init, a);
      PerformShifted(Replay(init), a, Replay(x).past, Replay(x).gaps);
    }
  }

  /**
   A restart separates: what is delivered over the actions around it is what a framer ended there
   delivers, followed by what a new one does with the actions behind it; gaps likewise.
   */
  lemma RestartSeparates(a: seq<Action>, b: seq<Action>)
    ensures var done := Replay(a + [Restart]);
            && Delivered(a + [Restart] + b) == done.past + Delivered(b)
            && Replay(a + [Restart] + b).gaps == done.gaps + Replay(b).gaps
            && done.past == Replay(a).past + Units(Ended(Replay(a).framer).log)
  {
    hide F.Drain, Units, F.GapsAtEnd;
    ReplaySnoc(a, Restart);
    FromStart(a + [Restart], b);
  }

  // ---- units are slices ----------------------------------------------------

  predicate NoRestart(acts: seq<Action>)
  {
    forall i :: 0 <= i < |acts| ==> acts[i] != Restart
  }

  ghost predicate SliceOf(x: seq<byte>, whole: seq<byte>)
  {
    exists n: nat | n <= |whole| :: x <= whole[n..]
  }

  /** The bytes of `u` lie in what `acts[i..j]` fed, without a restart among those. */
  ghost predicate FedBetween(u: AU, acts: seq<Action>, i: nat, j: nat)
  {
    i <= j <= |acts| && NoRestart(acts[i..j]) && SliceOf(u.data, FedOf(acts[i..j]))
  }

  ghost predicate OnOneSide(u: AU, acts: seq<Action>)
  {
    exists i: nat, j: nat :: FedBetween(u, acts, i, j)
  }

  lemma SliceWithin(x: seq<byte>, pre: seq<byte>, mid: seq<byte>, post: seq<byte>)
    requires SliceOf(x, mid)
    ensures SliceOf(x, pre + mid + post)
  {
    var n: nat :| n <= |mid| && x <= mid[n..];
    var whole := pre + mid + post;
    assert whole[|pre| + n..] == mid[n..] + post;
  }

  /** The units of a framer log are slices of what it consumed. */
  lemma {:induction false} UnitsInLog(log: seq<F.Event>, u: AU)
    requires u in Units(log)
    ensures SliceOf(u.data, F.Consumed(log))
    decreases |log|
  {
    var init, e := log[..|log| - 1], log[|log| - 1];
    ConsumedSnoc(init, e);
    assert log == init + [e];
    if u in Units(init) {
      UnitsInLog(init, u);
      SliceWithin(u.data, [], F.Consumed(init), F.BytesOf(e));
      assert [] + F.Consumed(init) + F.BytesOf(e) == F.Consumed(log);
    } else {
      assert u == UnitOf(e) && F.BytesOf(e) == e.frame;
      assert SliceOf(u.data, e.frame) by { UnitInFrame(e); }
      SliceWithin(u.data, F.Consumed(init), e.frame, []);
      assert F.Consumed(init) + e.frame + [] == F.Consumed(log);
    }
  }

  lemma UnitInFrame(e: F.Event)
    requires e.Delivered?
    ensures SliceOf(UnitOf(e).data, e.frame)
  {
    if e.hdr.headerLen <= |e.frame| {
      assert UnitOf(e).data <= e.frame[e.hdr.headerLen..];
    } else {
      assert UnitOf(e).data <= e.frame[0..];
    }
  }

  lemma {:induction false} ConsumedSnoc(log: seq<F.Event>, e: F.Event)
    ensures F.Consumed(log + [e]) == F.Consumed(log) + F.BytesOf(e)
  {
    if log == [] {
      assert ([] + [e])[1..] == [];
      assert F.Consumed([e]) == F.BytesOf(e) + F.Consumed([]);
    } else {
      assert (log + [e])[1..] == log[1..] + [e];
      ConsumedSnoc(log[1..], e);
    }
  }

  lemma FedSnoc(acts: seq<Action>, a: Action)
    ensures FedOf(acts + [a]) == FedOf(acts) + if a.Feed? then a.bytes else []
  {
    assert (acts + [a])[..|acts|] == acts;
  }

  /** What a framer has consumed and holds. */
  function Held(s: F.State): seq<byte> { F.Consumed(s.log) + s.rem }

  lemma ActHolds(s: F.State)
    requires !F.Judge(s).Wait?
    ensures Held(F.Act(s, F.Judge(s))) == Held(s)
  {
    hide F.Judge, F.Act, F.Consumed, F.BytesOf, F.Justified;
    var e := F.ActJustified(s);
    var s' := F.Act(s, F.Judge(s));
    ConsumedSnoc(s.log, e);
    assert F.Consumed(s.log) + (F.BytesOf(e) + s'.rem) == F.Consumed(s.log) + F.BytesOf(e) + s'.rem;
  }

  lemma {:induction false} DrainHolds(s: F.State)
    ensures Held(F.Drain(s)) == Held(s)
    decreases |s.rem|
  {
    hide F.Judge, F.Act, Held;
    var v := F.Judge(s);
    if !v.Wait? {
      ActHolds(s);
      assert |F.Act(s, v).rem| < |s.rem| by { ActShrinks(s); }
      DrainHolds(F.Act(s, v));
    }
  }

  lemma ActShrinks(s: F.State)
    requires !F.Judge(s).Wait?
    ensures |F.Act(s, F.Judge(s)).rem| < |s.rem|
  {
  }

  lemma PerformHolds(r: Framing, a: Action)
    requires a != Restart
    ensures Held(Perform(r, a).framer) == Held(r.framer) + if a.Feed? then a.bytes else []
  {
    hide F.Drain;
    match a
    case Feed(b) =>
      DrainHolds(F.Fed(r.framer, b));
      assert F.Consumed(r.framer.log) + (r.framer.rem + b) == F.Consumed(r.framer.log) + r.framer.rem + b;
    case Loss =>
      assert Held(r.framer) + [] == Held(r.framer);
  }

  /** The framer in use has consumed or holds exactly what was fed since the last restart. */
  lemma {:induction false} FramerHolds(acts: seq<Action>) returns (i: nat)
    ensures i <= |acts| && NoRestart(acts[i..])
    ensures Held(Replay(acts).framer) == FedOf(acts[i..])
    decreases |acts|
  {
    i := 0;
    if acts == [] {
      NothingFed(acts[i..]);
    } else {
      hide Perform, Held, FedOf, Replay, NoRestart;
      var init, a := acts[..|acts| - 1], acts[|acts| - 1];
      assert acts == init + [a];
      i := FramerHolds(init);
      ReplaySnoc(init, a);
      if a == Restart {
        i := |acts|;
        assert Perform(Replay(init), a).framer == F.Start by { Restarting(Replay(init)); }
        NothingFed(acts[i..]);
      } else {
        assert acts[i..] == init[i..] + [a];
        FedSnoc(init[i..], a);
        NoRestartSnoc(init[i..], a);
        PerformHolds(Replay(init), a);
      }
    }
  }

  lemma NoRestartSnoc(acts: seq<Action>, a: Action)
    requires NoRestart(acts) && a != Restart
    ensures NoRestart(acts + [a])
  {
  }

  lemma Restarting(r: Framing)
    ensures Perform(r, Restart).framer == F.Start
    ensures Perform(r, Restart).past == r.past + Units(Ended(r.framer).log)
  {
  }

  lemma PastGrows(r: Framing, a: Action)
    requires a != Restart
    ensures Perform(r, a).past == r.past
  {
  }

  lemma NothingFed(acts: seq<Action>)
    requires acts == []
    ensures Held(F.Start) == FedOf(acts) && NoRestart(acts)
  {
  }

  /** Units of a log that consumed part of what `acts[i..j]` fed. */
  lemma UnitsBetween(log: seq<F.Event>, rem: seq<byte>, acts: seq<Action>, i: nat, j: nat, u: AU)
    requires i <= j <= |acts| && NoRestart(acts[i..j]) && F.Consumed(log) + rem == FedOf(acts[i..j])
    requires u in Units(log)
    ensures OnOneSide(u, acts)
  {
    UnitsInLog(log, u);
    SliceWithin(u.data, [], F.Consumed(log), rem);
    assert [] + F.Consumed(log) + rem == F.Consumed(log) + rem;
    assert FedBetween(u, acts, i, j);
  }

  lemma SidesKept(u: AU, acts: seq<Action>, a: Action)
    requires OnOneSide(u, acts)
    ensures OnOneSide(u, acts + [a])
  {
    hide FedBetween;
    var i: nat, j: nat :| FedBetween(u, acts, i, j);
    FedStill(u, acts, a, i, j);
  }

  lemma FedStill(u: AU, acts: seq<Action>, a: Action, i: nat, j: nat)
    requires FedBetween(u, acts, i, j)
    ensures FedBetween(u, acts + [a], i, j)
  {
    hide FedOf, NoRestart, SliceOf;
    assert (acts + [a])[i..j] == acts[i..j];
  }

  lemma {:induction false} PastOnOneSide(acts: seq<Action>)
    ensures forall u :: u in Replay(acts).past ==> OnOneSide(u, acts)
    decreases |acts|
  {
    if acts != [] {
      hide Perform, Held, FedOf, OnOneSide, NoRestart, Units, Replay;
      var init, a := acts[..|acts| - 1], acts[|acts| - 1];
      assert acts == init + [a];
      PastOnOneSide(init);
      ReplaySnoc(init, a);
      forall u | u in Replay(acts).past
        ensures OnOneSide(u, acts)
      {
        if u in Replay(init).past {
          SidesKept(u, init, a);
        } else {
          assert a == Restart by { if a != Restart { PastGrows(Replay(init), a); } }
          Restarting(Replay(init));
          FlushedOnOneSide(init, u);
          SidesKept(u, init, a);
        }
      }
    } else {
      assert Replay(acts).past == [];
    }
  }

  /** So are the units of the framer in use, ended or not. */
  lemma FlushedOnOneSide(acts: seq<Action>, u: AU)
    requires u in Units(Ended(Replay(acts).framer).log) || u in Units(Replay(acts).framer.log)
    ensures OnOneSide(u, acts)
  {
    hide Replay, Units, F.Consumed, FedOf, OnOneSide, NoRestart, F.Drain;
    var i := FramerHolds(acts);
    assert acts[i..] == acts[i..|acts|];
    var s := Replay(acts).framer;
    if u in Units(s.log) {
      UnitsBetween(s.log, s.rem, acts, i, |acts|, u);
    } else {
      DrainHolds(s.(ended := true));
      UnitsBetween(Ended(s).log, Ended(s).rem, acts, i, |acts|, u);
    }
  }

  /**
   Whatever was fed and wherever the framer was restarted, the bytes of every delivered access unit
   were fed between two neighbouring restarts: no unit is spliced across a detected hole.
   */
  lemma NoUnitSpliced(acts: seq<Action>)
    ensures forall u :: u in Delivered(acts) ==> OnOneSide(u, acts)
  {
    hide Replay, Units, OnOneSide;
    PastOnOneSide(acts);
    forall u | u in Delivered(acts)
      ensures OnOneSide(u, acts)
    {
      if u !in Replay(acts).past {
        FlushedOnOneSide(acts, u);
      }
    }
  }

  // ---- a hole in a stream --------------------------------------------------

  lemma {:induction false} BlankKept(c: Control, parts: seq<Part>)
    ensures Blank(PesRun(c, parts)) == Blank(c)
    decreases |parts|
  {
    if parts != [] {
      hide Pes;
      BlankKept(Pes(c, parts[0].payload, parts[0].pusi), parts[1..]);
    }
  }

  lemma HoleActs(c: Control, b: seq<Part>, n: nat, a: seq<Part>)
    requires a != [] && n % 16 != 0 && n % 16 != 15
    ensures BehindHole(c, b, n, a).acts == PesRun(c, b).acts + [Restart, Loss] + PesRun(Blank(c), a).acts
  {
    hide PesRun;
    var mid := PesRun(c, b);
    var acts := mid.acts + [Restart, Loss];
    BlankKept(c, b);
    assert Charged(mid) == Blank(c).(acts := acts + Blank(c).acts);
    WholeIsPesRun(Blank(c).(acts := acts + Blank(c).acts), a, true);
    WholeIsPesRun(Blank(c), a, true);
    TakeAllAppends(Blank(c), Whole(a), true, acts);
  }

  /**
   A hole four-bit counters can tell, with audio on both sides: the access units delivered are those
   of the bytes before the hole, ended there, followed by those a new framer finds in the bytes behind
   it, and the gaps charged are those of the two and one more.
   */
  lemma HoleDelivers(
    c: Control, before: seq<Slot>, n: nat, after: seq<Slot>, cc: nat, pmtPID: nat, audioPID: nat)
    requires Acquired(c, pmtPID, audioPID) && InStep(c, cc, 0)
    requires forall i :: 0 <= i < |before| ==> ValidSlot(before[i], pmtPID, audioPID)
    requires forall i :: 0 <= i < |after| ==> ValidSlot(after[i], pmtPID, audioPID)
    requires Restated(SectionsOf(c), before + after, pmtPID, audioPID)
    requires PartsOf(before) != [] && PartsOf(after) != [] && n % 16 != 0 && n % 16 != 15
    ensures var acts := Run(c, Torn(before, n, after, pmtPID, audioPID, cc)).control.acts;
            var x, y := PesRun(c, PartsOf(before)).acts, PesRun(Blank(c), PartsOf(after)).acts;
            && Delivered(acts) == Replay(x + [Restart]).past + Delivered(y)
            && Replay(acts).gaps == Replay(x + [Restart]).gaps + 1 + Replay(y).gaps
            && forall u :: u in Delivered(acts) ==> OnOneSide(u, acts)
  {
    hide Run, Torn, PesRun, BehindHole, ValidSlot, Restated, Losses, Replay, Delivered, OnOneSide, PartsOf;
    hide SectionsOf;
    HoleExactly(c, before, n, after, cc, pmtPID, audioPID);
    var b, a := PartsOf(before), PartsOf(after);
    HoleActs(c, b, n, a);
    var x, y := PesRun(c, b).acts, PesRun(Blank(c), a).acts;
    var acts := x + [Restart, Loss] + y;
    assert acts == x + [Restart] + ([Loss] + y);
    RestartSeparates(x, [Loss] + y);
    LossFirst(y);
    NoUnitSpliced(acts);
  }

  lemma LossFirst(y: seq<Action>)
    ensures Delivered([Loss] + y) == Delivered(y) && Replay([Loss] + y).gaps == 1 + Replay(y).gaps
  {
    hide F.Drain, F.GapsAtEnd;
    assert Replay([Loss]) == Framing(F.Start, [], 1) by { ReplaySnoc([], Loss); assert [] + [Loss] == [Loss]; }
    FromStart([Loss], y);
    assert [] + Replay(y).past == Replay(y).past;
  }
}
