/**
 Lost transport packets.  Any packets of a segment may be missing; what the demultiplexer then does
 is stated over the number of audio packets missing before each one that arrived, and proved of the
 four-bit counters it really compares.
 */
module TsLoss {
  import opened Bits
  import opened TsPacket
  import opened TsDemux

  // ---- what was lost -------------------------------------------------------

  /** The packets of one slot, when the next audio counter is `cc`. */
  function PacketsOf(s: Slot, pmtPID: nat, audioPID: nat, cc: nat): seq<Packet>
    requires audioPID < 0x2000 && cc < 16 && ValidSlot(s, pmtPID, audioPID)
  {
    match s
    case ForeignSlot(p) => [p]
    case PsiSlot(p) => [p]
    case AudioSlot(part, a, twice) =>
      var p := AudioPacket(audioPID, part.pusi, cc, a, part.payload);
      if twice then [p, p] else [p]
  }

  /** The counter behind a slot: lost or not, an audio packet has used one up. */
  function CounterAfter(s: Slot, cc: nat): (r: nat)
    requires cc < 16
    ensures r < 16
  {
    if s.AudioSlot? then (cc + 1) % 16 else cc
  }

  /** The packets that arrive of a slot list numbered from `cc`, the slots flagged in `lost` missing. */
  function Received(slots: seq<Slot>, lost: seq<bool>, pmtPID: nat, audioPID: nat, cc: nat): seq<Packet>
    requires audioPID < 0x2000 && cc < 16 && |lost| == |slots|
    requires forall i :: 0 <= i < |slots| ==> ValidSlot(slots[i], pmtPID, audioPID)
    decreases |slots|
  {
    if slots == [] then [] else
      (if lost[0] then [] else PacketsOf(slots[0], pmtPID, audioPID, cc))
      + Received(slots[1..], lost[1..], pmtPID, audioPID, CounterAfter(slots[0], cc))
  }

  /** With nothing lost these are the packets sent. */
  lemma {:induction false} ReceivedWhole(slots: seq<Slot>, lost: seq<bool>, pmtPID: nat, audioPID: nat, cc: nat)
    requires audioPID < 0x2000 && cc < 16 && |lost| == |slots| && forall i :: 0 <= i < |lost| ==> !lost[i]
    requires forall i :: 0 <= i < |slots| ==> ValidSlot(slots[i], pmtPID, audioPID)
    ensures Received(slots, lost, pmtPID, audioPID, cc) == Packets(slots, pmtPID, audioPID, cc)
    decreases |slots|
  {
    hide AudioPacket;
    if slots != [] {
      assert ValidSlot(slots[0], pmtPID, audioPID);
      ReceivedWhole(slots[1..], lost[1..], pmtPID, audioPID, CounterAfter(slots[0], cc));
    }
  }

  /** The slots that arrived. */
  function Survivors(slots: seq<Slot>, lost: seq<bool>): seq<Slot>
    requires |lost| == |slots|
  {
    if slots == [] then [] else (if lost[0] then [] else [slots[0]]) + Survivors(slots[1..], lost[1..])
  }

  /** A part that arrived, and how many audio packets are missing right before it. */
  datatype Arrival = Arrival(part: Part, missing: nat)

  /** The parts that arrive when `missing` audio packets were lost just before the list. */
  function Arrivals(slots: seq<Slot>, lost: seq<bool>, missing: nat): seq<Arrival>
    requires |lost| == |slots|
    decreases |slots|
  {
    if slots == [] then []
    else if !slots[0].AudioSlot? then Arrivals(slots[1..], lost[1..], missing)
    else if lost[0] then Arrivals(slots[1..], lost[1..], missing + 1)
    else [Arrival(slots[0].part, missing)] + Arrivals(slots[1..], lost[1..], 0)
  }

  // ---- what is done about it -----------------------------------------------

  /** Can four-bit counters tell that `missing` packets are gone? */
  predicate Detectable(missing: nat) { missing % 16 != 0 && missing % 16 != 15 }

  /** The state behind a detected loss: nothing pending, the framer restarted, one loss charged. */
  function Charged(c: Control): Control
  {
    c.(hdrSkip := 0, dropping := false, acts := c.acts + [Restart, Loss])
  }

  /** One arrival; `first` when there is nothing to compare its counter with. */
  function Take(c: Control, a: Arrival, first: bool): Control
  {
    if !first && a.missing % 16 == 15 then c
    else Pes(if !first && Detectable(a.missing) then Charged(c) else c, a.part.payload, a.part.pusi)
  }

  function TakeAll(c: Control, arrivals: seq<Arrival>, first: bool): Control
    decreases |arrivals|
  {
    if arrivals == [] then c else TakeAll(Take(c, arrivals[0], first), arrivals[1..], false)
  }

  lemma TakeIgnoresRest(c: Control, a: Arrival, first: bool, cc: Option<nat>, b: Sections)
    ensures Take(With(c, cc, b), a, first) == With(Take(c, a, first), cc, b)
  {
  }

  lemma {:induction false} TakeAllIgnoresRest(
    c: Control, arrivals: seq<Arrival>, first: bool, cc: Option<nat>, b: Sections)
    ensures TakeAll(With(c, cc, b), arrivals, first) == With(TakeAll(c, arrivals, first), cc, b)
    decreases |arrivals|
  {
    if arrivals != [] {
      hide Take, With;
      TakeIgnoresRest(c, arrivals[0], first, cc, b);
      TakeAllIgnoresRest(Take(c, arrivals[0], first), arrivals[1..], false, cc, b);
    }
  }

  // ---- the counters agree --------------------------------------------------

  /** The next counter is as many ahead of the last one seen as packets are missing. */
  predicate InStep(c: Control, cc: nat, missing: nat)
  {
    cc < 16 && (c.cc.Some? ==> c.cc.value < 16 && cc == (c.cc.value + 1 + missing) % 16)
  }

  /** What the counters decide is what the missing packets call for. */
  lemma CountersTell(c: Control, part: Part, cc: nat, missing: nat)
    requires InStep(c, cc, missing)
    ensures var c' := AudioPayload(c, part.payload, part.pusi, cc);
            && c' == With(Take(c, Arrival(part, missing), c.cc.None?), Some(cc), SectionsOf(c))
            && AudioPayload(c', part.payload, part.pusi, cc) == c'
            && InStep(c', (cc + 1) % 16, 0)
            && SamePids(c, c')
  {
    if c.cc.Some? {
      SameCounter(c.cc.value, cc, missing);
    }
  }

  lemma SameCounter(k: nat, cc: nat, missing: nat)
    requires k < 16 && cc == (k + 1 + missing) % 16
    ensures cc == k <==> missing % 16 == 15
    ensures cc == (k + 1) % 16 <==> missing % 16 == 0
  {
    var m := missing % 16;
    assert missing == 16 * (missing / 16) + m;
    assert cc == (k + 1 + m) % 16;
  }

  lemma HandleAnyAudio(c: Control, part: Part, a: Adaptation, cc: nat, pmtPID: nat, audioPID: nat)
    requires Acquired(c, pmtPID, audioPID) && cc < 16 && ValidAdaptation(a) && |part.payload| == Room(a)
    ensures var p := AudioPacket(audioPID, part.pusi, cc, a, part.payload);
            Handle(c, p) == Handled(AudioPayload(c, part.payload, part.pusi, cc), None)
  {
    hide Payload, AudioPayload, TransportError, Scrambled, DiscontinuityIndicated, Pid, Pusi, Continuity, AudioPacket;
    AudioPacketFields(audioPID, part.pusi, cc, a, part.payload);
  }

  /** Running one slot that arrived. */
  lemma SlotRuns(c: Control, s: Slot, cc: nat, missing: nat, rest: seq<Packet>, pmtPID: nat, audioPID: nat)
    returns (d: Control)
    requires Acquired(c, pmtPID, audioPID) && InStep(c, cc, missing) && ValidSlot(s, pmtPID, audioPID)
    requires s.PsiSlot? ==> SamePrograms(SectionsOf(c), s.packet, pmtPID, audioPID)
    ensures Run(c, PacketsOf(s, pmtPID, audioPID, cc) + rest) == Run(d, rest)
    ensures Acquired(d, pmtPID, audioPID) && InStep(d, CounterAfter(s, cc), if s.AudioSlot? then 0 else missing)
    ensures SectionsOf(d) == if s.PsiSlot? then NextSections(SectionsOf(c), s.packet) else SectionsOf(c)
    ensures if s.AudioSlot? then d == With(Take(c, Arrival(s.part, missing), c.cc.None?), Some(cc), SectionsOf(c))
            else d == With(c, c.cc, SectionsOf(d))
  {
    hide Handle, Take, AudioPayload, AudioPacket, Announces, Foreign, NextSections, SamePrograms;
    match s
    case ForeignSlot(p) =>
      HandleForeign(c, p, pmtPID, audioPID);
      assert ([p] + rest)[1..] == rest;
      d := c;
    case PsiSlot(p) =>
      HandlePsi(c, p, pmtPID, audioPID);
      assert ([p] + rest)[1..] == rest;
      d := With(c, c.cc, NextSections(SectionsOf(c), p));
    case AudioSlot(part, a, twice) =>
      d := AudioRuns(c, part, a, twice, cc, missing, rest, pmtPID, audioPID);
  }

  lemma AudioRuns(
    c: Control, part: Part, a: Adaptation, twice: bool, cc: nat, missing: nat, rest: seq<Packet>,
    pmtPID: nat, audioPID: nat) returns (d: Control)
    requires Acquired(c, pmtPID, audioPID) && InStep(c, cc, missing)
    requires ValidSlot(AudioSlot(part, a, twice), pmtPID, audioPID)
    ensures Run(c, PacketsOf(AudioSlot(part, a, twice), pmtPID, audioPID, cc) + rest) == Run(d, rest)
    ensures Acquired(d, pmtPID, audioPID) && InStep(d, (cc + 1) % 16, 0)
    ensures d == With(Take(c, Arrival(part, missing), c.cc.None?), Some(cc), SectionsOf(c))
  {
    hide Handle, Take, AudioPayload, AudioPacket;
    var p := AudioPacket(audioPID, part.pusi, cc, a, part.payload);
    d := AudioPayload(c, part.payload, part.pusi, cc);
    CountersTell(c, part, cc, missing);
    HandleAnyAudio(c, part, a, cc, pmtPID, audioPID);
    HandleAnyAudio(d, part, a, cc, pmtPID, audioPID);
    if twice {
      assert ([p, p] + rest)[1..] == [p] + rest;
    }
    assert ([p] + rest)[1..] == rest;
  }

  /**
   Whatever is lost, the packets that arrive act as their parts do when each is taken knowing how
   many audio packets are missing before it.
   */
  lemma {:induction false} LossyRun(
    c: Control, slots: seq<Slot>, lost: seq<bool>, missing: nat, cc: nat, pmtPID: nat, audioPID: nat)
    returns (last: Option<nat>)
    requires Acquired(c, pmtPID, audioPID) && InStep(c, cc, missing) && |lost| == |slots|
    requires forall i :: 0 <= i < |slots| ==> ValidSlot(slots[i], pmtPID, audioPID)
    requires Restated(SectionsOf(c), Survivors(slots, lost), pmtPID, audioPID)
    ensures Run(c, Received(slots, lost, pmtPID, audioPID, cc))
            == Handled(With(TakeAll(c, Arrivals(slots, lost, missing), c.cc.None?), last,
                            SectionsAfter(SectionsOf(c), Survivors(slots, lost))), None)
    decreases |slots|
  {
    last := c.cc;
    if slots != [] {
      hide Take, PacketsOf, ValidSlot, Run, Acquired, InStep, TakeAll, Restated, SectionsAfter;
      if lost[0] {
        assert [] + Received(slots[1..], lost[1..], pmtPID, audioPID, CounterAfter(slots[0], cc))
            == Received(slots[1..], lost[1..], pmtPID, audioPID, CounterAfter(slots[0], cc));
        assert [] + Survivors(slots[1..], lost[1..]) == Survivors(slots[1..], lost[1..]);
        var m := if slots[0].AudioSlot? then missing + 1 else missing;
        assert InStep(c, CounterAfter(slots[0], cc), m) by { LostStep(c, slots[0], cc, missing); }
        last := LossyRun(c, slots[1..], lost[1..], m, CounterAfter(slots[0], cc), pmtPID, audioPID);
      } else {
        last := LossyNext(c, slots, lost, missing, cc, pmtPID, audioPID);
      }
    } else {
      assert Run(c, []) == Handled(c, None) && With(c, c.cc, SectionsOf(c)) == c;
    }
  }

  lemma LostStep(c: Control, s: Slot, cc: nat, missing: nat)
    requires InStep(c, cc, missing)
    ensures InStep(c, CounterAfter(s, cc), if s.AudioSlot? then missing + 1 else missing)
  {
  }

  lemma {:induction false} LossyNext(
    c: Control, slots: seq<Slot>, lost: seq<bool>, missing: nat, cc: nat, pmtPID: nat, audioPID: nat)
    returns (last: Option<nat>)
    requires Acquired(c, pmtPID, audioPID) && InStep(c, cc, missing) && |lost| == |slots| > 0 && !lost[0]
    requires forall i :: 0 <= i < |slots| ==> ValidSlot(slots[i], pmtPID, audioPID)
    requires Restated(SectionsOf(c), Survivors(slots, lost), pmtPID, audioPID)
    ensures Run(c, Received(slots, lost, pmtPID, audioPID, cc))
            == Handled(With(TakeAll(c, Arrivals(slots, lost, missing), c.cc.None?), last,
                            SectionsAfter(SectionsOf(c), Survivors(slots, lost))), None)
    decreases |slots|, 0
  {
    hide Take, PacketsOf, ValidSlot, Run, NextSections, SamePrograms;
    var s, rest := slots[0], Received(slots[1..], lost[1..], pmtPID, audioPID, CounterAfter(slots[0], cc));
    assert Survivors(slots, lost)[1..] == Survivors(slots[1..], lost[1..]);
    var d := SlotRuns(c, s, cc, missing, rest, pmtPID, audioPID);
    var m := if s.AudioSlot? then 0 else missing;
    last := LossyRun(d, slots[1..], lost[1..], m, CounterAfter(s, cc), pmtPID, audioPID);
    var more := Arrivals(slots[1..], lost[1..], m);
    if s.AudioSlot? {
      var arrivals := Arrivals(slots, lost, missing);
      assert arrivals[1..] == more;
      TakeAllIgnoresRest(Take(c, arrivals[0], c.cc.None?), more, false, Some(cc), SectionsOf(c));
    } else {
      TakeAllIgnoresRest(c, more, c.cc.None?, c.cc, SectionsOf(d));
    }
  }

  // ---- what the actions show -----------------------------------------------

  function Losses(acts: seq<Action>): nat
  {
    if acts == [] then 0 else Losses(acts[..|acts| - 1]) + if acts[|acts| - 1].Loss? then 1 else 0
  }

  function Restarts(acts: seq<Action>): nat
  {
    if acts == [] then 0 else Restarts(acts[..|acts| - 1]) + if acts[|acts| - 1].Restart? then 1 else 0
  }

  lemma {:induction false} LossesConcat(a: seq<Action>, b: seq<Action>)
    ensures Losses(a + b) == Losses(a) + Losses(b) && Restarts(a + b) == Restarts(a) + Restarts(b)
    decreases |b|
  {
    if b == [] {
      assert a + b == a;
    } else {
      assert (a + b)[..|a + b| - 1] == a + b[..|b| - 1];
      LossesConcat(a, b[..|b| - 1]);
    }
  }

  /** The holes in front of `arrivals` that four-bit counters can tell. */
  function DetectedIn(arrivals: seq<Arrival>, first: bool): nat
    decreases |arrivals|
  {
    if arrivals == [] then 0
    else (if !first && Detectable(arrivals[0].missing) then 1 else 0) + DetectedIn(arrivals[1..], false)
  }

  /** Control that has done nothing and has nothing pending, but knows what `c` knows. */
  function Blank(c: Control): Control { c.(hdrSkip := 0, dropping := false, acts := []) }

  lemma PesAppends(c: Control, payload: seq<byte>, pusi: bool, acts: seq<Action>)
    ensures Pes(c.(acts := acts + c.acts), payload, pusi) ==
            Pes(c, payload, pusi).(acts := acts + Pes(c, payload, pusi).acts)
    ensures c.acts <= Pes(c, payload, pusi).acts
    ensures forall i :: |c.acts| <= i < |Pes(c, payload, pusi).acts| ==> Pes(c, payload, pusi).acts[i].Feed?
  {
    assert forall es: seq<byte> :: acts + (c.acts + [Feed(es)]) == acts + c.acts + [Feed(es)];
  }

  lemma TakeAppends(c: Control, a: Arrival, first: bool, acts: seq<Action>)
    ensures Take(c.(acts := acts + c.acts), a, first) == Take(c, a, first).(acts := acts + Take(c, a, first).acts)
  {
    hide Pes;
    if first || a.missing % 16 != 15 {
      var c1 := if !first && Detectable(a.missing) then Charged(c) else c;
      assert acts + (c.acts + [Restart, Loss]) == acts + c.acts + [Restart, Loss];
      PesAppends(c1, a.part.payload, a.part.pusi, acts);
    }
  }

  /** What was done before only stands in front of what is done. */
  lemma {:induction false} TakeAllAppends(c: Control, arrivals: seq<Arrival>, first: bool, acts: seq<Action>)
    ensures TakeAll(c.(acts := acts + c.acts), arrivals, first)
            == TakeAll(c, arrivals, first).(acts := acts + TakeAll(c, arrivals, first).acts)
    decreases |arrivals|
  {
    if arrivals != [] {
      hide Take;
      TakeAppends(c, arrivals[0], first, acts);
      TakeAllAppends(Take(c, arrivals[0], first), arrivals[1..], false, acts);
    }
  }

  lemma {:induction false} TakeAllConcat(c: Control, a: seq<Arrival>, b: seq<Arrival>, first: bool)
    requires a != []
    ensures TakeAll(c, a + b, first) == TakeAll(TakeAll(c, a, first), b, false)
    decreases |a|
  {
    hide Take;
    assert (a + b)[1..] == a[1..] + b;
    if |a| > 1 {
      TakeAllConcat(Take(c, a[0], first), a[1..], b, false);
    } else {
      assert a[1..] + b == b;
      assert TakeAll(Take(c, a[0], first), [], false) == Take(c, a[0], first);
    }
  }

  /**
   A detected hole separates: what is done is what was done before it, one restart with one loss
   charged, and what a demultiplexer with nothing pending does with the rest, taking the arrival
   behind the hole as its first.
   */
  lemma HoleSeparates(c: Control, before: seq<Arrival>, a: Arrival, after: seq<Arrival>, first: bool)
    requires before != [] && Detectable(a.missing)
    ensures var mid := TakeAll(c, before, first);
            TakeAll(c, before + ([a] + after), first).acts
            == mid.acts + [Restart, Loss] + TakeAll(Blank(mid), [a] + after, true).acts
  {
    hide Pes, Detectable;
    TakeAllConcat(c, before, [a] + after, first);
    var mid := TakeAll(c, before, first);
    var acts := mid.acts + [Restart, Loss];
    assert ([a] + after)[1..] == after;
    assert Charged(mid) == Blank(mid).(acts := acts + Blank(mid).acts);
    PesAppends(Blank(mid), a.part.payload, a.part.pusi, acts);
    TakeAllAppends(Take(Blank(mid), a, true), after, false, acts);
    assert Detectable(a.missing) ==> a.missing % 16 != 15 by { DetectableIs(a.missing); }
  }

  lemma DetectableIs(missing: nat)
    ensures Detectable(missing) <==> missing % 16 != 0 && missing % 16 != 15
  {
  }

  lemma TakeCounts(c: Control, a: Arrival, first: bool)
    ensures var d, n := Take(c, a, first), if !first && Detectable(a.missing) then 1 else 0;
            && c.acts <= d.acts
            && Losses(d.acts) == Losses(c.acts) + n
            && Restarts(d.acts) == Restarts(c.acts) + n
  {
    hide Pes, Losses, Restarts, Detectable;
    if first || a.missing % 16 != 15 {
      var c1 := if !first && Detectable(a.missing) then Charged(c) else c;
      LossesConcat(c.acts, [Restart, Loss]);
      assert Losses([Restart, Loss]) == 1 && Restarts([Restart, Loss]) == 1 by { OneEach(); }
      PesAppends(c1, a.part.payload, a.part.pusi, []);
      OnlyFeeds(c1.acts, Take(c, a, first).acts);
    } else {
      DetectableIs(a.missing);
    }
  }

  /** Exactly one loss and one restart for every hole the counters can tell. */
  lemma {:induction false} LossesCounted(c: Control, arrivals: seq<Arrival>, first: bool)
    ensures var d := TakeAll(c, arrivals, first);
            && c.acts <= d.acts
            && Losses(d.acts) == Losses(c.acts) + DetectedIn(arrivals, first)
            && Restarts(d.acts) == Restarts(c.acts) + DetectedIn(arrivals, first)
    decreases |arrivals|
  {
    if arrivals != [] {
      hide Take, Losses, Restarts, Detectable;
      TakeCounts(c, arrivals[0], first);
      LossesCounted(Take(c, arrivals[0], first), arrivals[1..], false);
    }
  }

  lemma OneEach()
    ensures Losses([Restart, Loss]) == 1 && Restarts([Restart, Loss]) == 1
  {
    assert [Restart, Loss][..1] == [Restart] && [Restart][..0] == [];
  }

  lemma {:induction false} OnlyFeeds(a: seq<Action>, b: seq<Action>)
    requires a <= b && forall i :: |a| <= i < |b| ==> b[i].Feed?
    ensures Losses(b) == Losses(a) && Restarts(b) == Restarts(a)
    decreases |b|
  {
    if |b| == |a| {
      assert a == b;
    } else {
      OnlyFeeds(a, b[..|b| - 1]);
    }
  }

  // ---- one hole ------------------------------------------------------------

  /** Parts with nothing missing between them. */
  function Whole(parts: seq<Part>): (r: seq<Arrival>)
    ensures |r| == |parts|
  {
    if parts == [] then [] else [Arrival(parts[0], 0)] + Whole(parts[1..])
  }

  lemma {:induction false} WholeIsPesRun(c: Control, parts: seq<Part>, first: bool)
    ensures TakeAll(c, Whole(parts), first) == PesRun(c, parts)
    decreases |parts|
  {
    hide Pes;
    if parts != [] {
      assert Whole(parts)[1..] == Whole(parts[1..]);
      assert Take(c, Arrival(parts[0], 0), first) == Pes(c, parts[0].payload, parts[0].pusi);
      WholeIsPesRun(Pes(c, parts[0].payload, parts[0].pusi), parts[1..], false);
    }
  }

  /** The counter behind a slot list. */
  function CounterBehind(slots: seq<Slot>, cc: nat): (r: nat)
    requires cc < 16
    ensures r < 16
  {
    if slots == [] then cc else CounterBehind(slots[1..], CounterAfter(slots[0], cc))
  }

  /** It is as many on as there are audio slots. */
  lemma {:induction false} CounterBehindIs(slots: seq<Slot>, cc: nat)
    requires cc < 16
    ensures CounterBehind(slots, cc) == (cc + |PartsOf(slots)|) % 16
    decreases |slots|
  {
    if slots != [] {
      CounterBehindIs(slots[1..], CounterAfter(slots[0], cc));
      var k := |PartsOf(slots[1..])|;
      assert |PartsOf(slots)| == k + if slots[0].AudioSlot? then 1 else 0;
      hide PartsOf, CounterBehind;
      ModPlus(cc + 1, k);
      assert slots[0].AudioSlot? ==> cc + 1 + k == cc + |PartsOf(slots)|;
    }
  }

  lemma ModPlus(x: nat, k: nat)
    ensures (x % 16 + k) % 16 == (x + k) % 16
  {
    assert x == 16 * (x / 16) + x % 16;
  }

  lemma {:induction false} ReceivedConcat(
    a: seq<Slot>, b: seq<Slot>, la: seq<bool>, lb: seq<bool>, pmtPID: nat, audioPID: nat, cc: nat)
    requires audioPID < 0x2000 && cc < 16 && |la| == |a| && |lb| == |b|
    requires forall i :: 0 <= i < |a| ==> ValidSlot(a[i], pmtPID, audioPID)
    requires forall i :: 0 <= i < |b| ==> ValidSlot(b[i], pmtPID, audioPID)
    ensures Received(a + b, la + lb, pmtPID, audioPID, cc)
            == Received(a, la, pmtPID, audioPID, cc) + Received(b, lb, pmtPID, audioPID, CounterBehind(a, cc))
    decreases |a|
  {
    hide PacketsOf, ValidSlot, CounterAfter;
    if a == [] {
      assert a + b == b && la + lb == lb;
    } else {
      assert (a + b)[1..] == a[1..] + b && (la + lb)[1..] == la[1..] + lb;
      ReceivedConcat(a[1..], b, la[1..], lb, pmtPID, audioPID, CounterAfter(a[0], cc));
    }
  }

  lemma {:induction false} AllLost(slots: seq<Slot>, lost: seq<bool>, pmtPID: nat, audioPID: nat, cc: nat)
    requires audioPID < 0x2000 && cc < 16 && |lost| == |slots| && forall i :: 0 <= i < |lost| ==> lost[i]
    requires forall i :: 0 <= i < |slots| ==> ValidSlot(slots[i], pmtPID, audioPID)
    ensures Received(slots, lost, pmtPID, audioPID, cc) == [] && Survivors(slots, lost) == []
    decreases |slots|
  {
    hide ValidSlot, PacketsOf;
    if slots != [] {
      AllLost(slots[1..], lost[1..], pmtPID, audioPID, CounterAfter(slots[0], cc));
    }
  }

  lemma {:induction false} SurvivorsConcat(a: seq<Slot>, b: seq<Slot>, la: seq<bool>, lb: seq<bool>)
    requires |la| == |a| && |lb| == |b|
    ensures Survivors(a + b, la + lb) == Survivors(a, la) + Survivors(b, lb)
  {
    if a == [] {
      assert a + b == b && la + lb == lb;
    } else {
      assert (a + b)[1..] == a[1..] + b && (la + lb)[1..] == la[1..] + lb;
      SurvivorsConcat(a[1..], b, la[1..], lb);
    }
  }

  lemma {:induction false} NoneLost(slots: seq<Slot>, lost: seq<bool>)
    requires |lost| == |slots| && forall i :: 0 <= i < |lost| ==> !lost[i]
    ensures Survivors(slots, lost) == slots
  {
    if slots != [] {
      NoneLost(slots[1..], lost[1..]);
    }
  }

  /** Audio slots behind the first are preceded by nothing missing. */
  function Behind(parts: seq<Part>, missing: nat): (r: seq<Arrival>)
  {
    if parts == [] then [] else [Arrival(parts[0], missing)] + Whole(parts[1..])
  }

  lemma {:induction false} ArrivalsWhole(slots: seq<Slot>, lost: seq<bool>, missing: nat)
    requires |lost| == |slots| && forall i :: 0 <= i < |lost| ==> !lost[i]
    ensures Arrivals(slots, lost, missing) == Behind(PartsOf(slots), missing)
    decreases |slots|
  {
    if slots != [] {
      ArrivalsWhole(slots[1..], lost[1..], if slots[0].AudioSlot? then 0 else missing);
      if slots[0].AudioSlot? {
        assert PartsOf(slots)[1..] == PartsOf(slots[1..]);
        assert Behind(PartsOf(slots[1..]), 0) == Whole(PartsOf(slots[1..]));
      } else {
        assert PartsOf(slots) == PartsOf(slots[1..]);
      }
    }
  }

  lemma {:induction false} ArrivalsHole(hole: seq<Slot>, after: seq<Slot>, lh: seq<bool>, la: seq<bool>, missing: nat)
    requires |lh| == |hole| && |la| == |after| && forall i :: 0 <= i < |la| ==> !la[i]
    requires (forall i :: 0 <= i < |lh| ==> lh[i]) && (forall i :: 0 <= i < |hole| ==> hole[i].AudioSlot?)
    ensures Arrivals(hole + after, lh + la, missing) == Behind(PartsOf(after), |hole| + missing)
    decreases |hole|
  {
    if hole != [] {
      hide Behind, PartsOf;
      assert (hole + after)[1..] == hole[1..] + after && (lh + la)[1..] == lh[1..] + la;
      ArrivalsHole(hole[1..], after, lh[1..], la, missing + 1);
    } else {
      assert hole + after == after && lh + la == la;
      ArrivalsWhole(after, la, missing);
    }
  }

  lemma BehindStep(slots: seq<Slot>, missing: nat)
    requires slots != []
    ensures PartsOf(slots) == [] <==> !slots[0].AudioSlot? && PartsOf(slots[1..]) == []
    ensures Behind(PartsOf(slots), missing) ==
            if slots[0].AudioSlot? then [Arrival(slots[0].part, missing)] + Behind(PartsOf(slots[1..]), 0)
            else Behind(PartsOf(slots[1..]), missing)
  {
    if slots[0].AudioSlot? {
      assert PartsOf(slots)[1..] == PartsOf(slots[1..]);
      assert Behind(PartsOf(slots[1..]), 0) == Whole(PartsOf(slots[1..]));
    } else {
      assert PartsOf(slots) == PartsOf(slots[1..]);
    }
  }

  /** A hole between two stretches that arrive whole. */
  lemma {:induction false} ArrivalsAround(
    before: seq<Slot>, hole: seq<Slot>, after: seq<Slot>, lb: seq<bool>, lh: seq<bool>, la: seq<bool>, missing: nat)
    requires |lb| == |before| && |lh| == |hole| && |la| == |after|
    requires (forall i :: 0 <= i < |lb| ==> !lb[i]) && (forall i :: 0 <= i < |la| ==> !la[i])
    requires (forall i :: 0 <= i < |lh| ==> lh[i]) && (forall i :: 0 <= i < |hole| ==> hole[i].AudioSlot?)
    ensures Arrivals(before + (hole + after), lb + (lh + la), missing)
            == Behind(PartsOf(before), missing)
               + Behind(PartsOf(after), |hole| + if PartsOf(before) == [] then missing else 0)
    decreases |before|
  {
    hide Behind, PartsOf;
    if before != [] {
      hide Arrivals;
      var m := if before[0].AudioSlot? then 0 else missing;
      ArrivalsAround(before[1..], hole, after, lb[1..], lh, la, m);
      BehindStep(before, missing);
      FirstArrival(before, hole + after, lb, lh + la, missing);
    } else {
      assert before + (hole + after) == hole + after && lb + (lh + la) == lh + la;
      ArrivalsHole(hole, after, lh, la, missing);
      assert PartsOf(before) == [] && Behind(PartsOf(before), missing) == [] by { NothingBehind(before, missing); }
    }
  }

  lemma NothingBehind(slots: seq<Slot>, missing: nat)
    requires slots == []
    ensures PartsOf(slots) == [] && Behind(PartsOf(slots), missing) == []
  {
  }

  lemma FirstArrival(slots: seq<Slot>, more: seq<Slot>, lost: seq<bool>, lm: seq<bool>, missing: nat)
    requires slots != [] && |lost| == |slots| && |lm| == |more| && !lost[0]
    ensures Arrivals(slots + more, lost + lm, missing) ==
            if slots[0].AudioSlot? then [Arrival(slots[0].part, missing)] + Arrivals(slots[1..] + more, lost[1..] + lm, 0)
            else Arrivals(slots[1..] + more, lost[1..] + lm, missing)
  {
    assert (slots + more)[1..] == slots[1..] + more && (lost + lm)[1..] == lost[1..] + lm;
  }

  /** What remains of a slot list whose middle `n` audio packets are gone. */
  function Torn(before: seq<Slot>, n: nat, after: seq<Slot>, pmtPID: nat, audioPID: nat, cc: nat): seq<Packet>
    requires audioPID < 0x2000 && cc < 16
    requires forall i :: 0 <= i < |before| ==> ValidSlot(before[i], pmtPID, audioPID)
    requires forall i :: 0 <= i < |after| ==> ValidSlot(after[i], pmtPID, audioPID)
  {
    Packets(before, pmtPID, audioPID, cc)
    + Packets(after, pmtPID, audioPID, ((cc + |PartsOf(before)|) % 16 + n) % 16)
  }

  /** Such a list is one with `n` lost audio slots in it. */
  lemma TornIsReceived(before: seq<Slot>, n: nat, after: seq<Slot>, pmtPID: nat, audioPID: nat, cc: nat)
    returns (slots: seq<Slot>, lost: seq<bool>)
    requires audioPID < 0x2000 && cc < 16
    requires forall i :: 0 <= i < |before| ==> ValidSlot(before[i], pmtPID, audioPID)
    requires forall i :: 0 <= i < |after| ==> ValidSlot(after[i], pmtPID, audioPID)
    ensures |lost| == |slots| && forall i :: 0 <= i < |slots| ==> ValidSlot(slots[i], pmtPID, audioPID)
    ensures Received(slots, lost, pmtPID, audioPID, cc) == Torn(before, n, after, pmtPID, audioPID, cc)
    ensures Survivors(slots, lost) == before + after
    ensures forall missing: nat :: PartsOf(before) != [] ==>
              Arrivals(slots, lost, missing) == Behind(PartsOf(before), missing) + Behind(PartsOf(after), n)
  {
    hide ValidSlot, Packets, Received, Arrivals, Survivors;
    var blank := AudioSlot(Part(false, seq(184, _ => 0)), NoField, false);
    assert ValidSlot(blank, pmtPID, audioPID) by { Blanks(pmtPID, audioPID); }
    var hole := seq(n, _ => blank);
    var lb, lh, la := seq(|before|, _ => false), seq(n, _ => true), seq(|after|, _ => false);
    slots, lost := before + (hole + after), lb + (lh + la);
    ReceivedConcat(before, hole + after, lb, lh + la, pmtPID, audioPID, cc);
    var mid := (cc + |PartsOf(before)|) % 16;
    assert CounterBehind(before, cc) == mid by { CounterBehindIs(before, cc); }
    ReceivedConcat(hole, after, lh, la, pmtPID, audioPID, mid);
    assert CounterBehind(hole, mid) == (mid + n) % 16 by { CounterBehindIs(hole, mid); BlankParts(hole); }
    AllLost(hole, lh, pmtPID, audioPID, mid);
    ReceivedWhole(before, lb, pmtPID, audioPID, cc);
    ReceivedWhole(after, la, pmtPID, audioPID, (mid + n) % 16);
    SurvivorsConcat(before, hole + after, lb, lh + la);
    SurvivorsConcat(hole, after, lh, la);
    NoneLost(before, lb);
    NoneLost(after, la);
    forall missing: nat | PartsOf(before) != []
      ensures Arrivals(slots, lost, missing) == Behind(PartsOf(before), missing) + Behind(PartsOf(after), n)
    {
      ArrivalsAround(before, hole, after, lb, lh, la, missing);
    }
  }

  lemma Blanks(pmtPID: nat, audioPID: nat)
    ensures ValidSlot(AudioSlot(Part(false, seq(184, _ => 0)), NoField, false), pmtPID, audioPID)
  {
  }

  lemma {:induction false} BlankParts(slots: seq<Slot>)
    requires forall i :: 0 <= i < |slots| ==> slots[i].AudioSlot?
    ensures |PartsOf(slots)| == |slots|
  {
    if slots != [] {
      BlankParts(slots[1..]);
    }
  }

  /** What the state is behind a hole of `n` packets between the parts `b` and `a`. */
  function BehindHole(c: Control, b: seq<Part>, n: nat, a: seq<Part>): Control
    requires a != []
  {
    if n % 16 == 0 then PesRun(c, b + a)
    else if n % 16 == 15 then PesRun(c, b + a[1..])
    else PesRun(Charged(PesRun(c, b)), a)
  }

  lemma HoleTaken(c: Control, b: seq<Part>, n: nat, a: seq<Part>, first: bool)
    requires b != [] && a != []
    ensures TakeAll(c, Behind(b, 0) + Behind(a, n), first) == BehindHole(c, b, n, a)
  {
    hide Take, PesRun, TakeAll;
    assert Behind(b, 0) == Whole(b);
    WholeIsPesRun(c, b, first);
    TakeAllConcat(c, Whole(b), Behind(a, n), first);
    var mid := PesRun(c, b);
    assert Behind(a, n)[1..] == Whole(a[1..]);
    var taken := Take(mid, Arrival(a[0], n), false);
    assert TakeAll(mid, Behind(a, n), false) == TakeAll(taken, Whole(a[1..]), false) by { TakeFirst(mid, Behind(a, n)); }
    WholeIsPesRun(taken, a[1..], false);
    PesRunConcat(c, b, a);
    PesRunConcat(c, b, a[1..]);
    TakenFirst(mid, a, n);
  }

  lemma TakeFirst(c: Control, arrivals: seq<Arrival>)
    requires arrivals != []
    ensures TakeAll(c, arrivals, false) == TakeAll(Take(c, arrivals[0], false), arrivals[1..], false)
  {
  }

  lemma TakenFirst(c: Control, a: seq<Part>, n: nat)
    requires a != []
    ensures PesRun(Take(c, Arrival(a[0], n), false), a[1..]) ==
            if n % 16 == 0 then PesRun(c, a) else if n % 16 == 15 then PesRun(c, a[1..]) else PesRun(Charged(c), a)
  {
    hide Pes;
  }

  /**
   A hole of `n` audio packets, with audio on both sides of it. Unless `n` is 0 or 15 modulo 16 the
   pending header is forgotten and the framer restarted before anything behind the hole is fed, and
   one loss is charged. The two other residues go unnoticed: at 0 the bytes behind the hole are
   spliced to those before it, at 15 so are those of the second packet behind it, the first being
   taken for a duplicate.
   */
  lemma HoleExactly(
    c: Control, before: seq<Slot>, n: nat, after: seq<Slot>, cc: nat, pmtPID: nat, audioPID: nat)
    requires Acquired(c, pmtPID, audioPID) && InStep(c, cc, 0)
    requires forall i :: 0 <= i < |before| ==> ValidSlot(before[i], pmtPID, audioPID)
    requires forall i :: 0 <= i < |after| ==> ValidSlot(after[i], pmtPID, audioPID)
    requires Restated(SectionsOf(c), before + after, pmtPID, audioPID)
    requires PartsOf(before) != [] && PartsOf(after) != []
    ensures var h := Run(c, Torn(before, n, after, pmtPID, audioPID, cc));
            var d := BehindHole(c, PartsOf(before), n, PartsOf(after));
            && h.error == None && h.control.acts == d.acts
            && h.control.hdrSkip == d.hdrSkip && h.control.dropping == d.dropping
            && (Losses(d.acts) == Losses(c.acts) + 1 <==> n % 16 != 0 && n % 16 != 15)
            && (Losses(d.acts) == Losses(c.acts) <==> n % 16 == 0 || n % 16 == 15)
  {
    hide Run, Torn, Restated, TakeAll, ValidSlot, PesRun, BehindHole, Losses, Restarts, DetectedIn, Behind;
    hide Arrivals, Received, SectionsAfter, SectionsOf, PartsOf, Survivors;
    var slots, lost := TornIsReceived(before, n, after, pmtPID, audioPID, cc);
    var last := LossyRun(c, slots, lost, 0, cc, pmtPID, audioPID);
    var b, a := PartsOf(before), PartsOf(after);
    HoleTaken(c, b, n, a, c.cc.None?);
    LossesCounted(c, Behind(b, 0) + Behind(a, n), c.cc.None?);
    HoleDetected(b, n, a, c.cc.None?);
  }

  lemma HoleDetected(b: seq<Part>, n: nat, a: seq<Part>, first: bool)
    requires b != [] && a != []
    ensures DetectedIn(Behind(b, 0) + Behind(a, n), first) == if Detectable(n) then 1 else 0
  {
    hide Detectable;
    assert Behind(b, 0) == Whole(b);
    WholeDetectsNone(b, Behind(a, n), first);
    assert Behind(a, n)[1..] == Whole(a[1..]);
    WholeDetectsNone(a[1..], [], false);
    assert Whole(a[1..]) + [] == Whole(a[1..]);
  }

  lemma {:induction false} WholeDetectsNone(b: seq<Part>, more: seq<Arrival>, first: bool)
    ensures DetectedIn(Whole(b) + more, first) == DetectedIn(more, first && b == [])
    decreases |b|
  {
    if b == [] {
      assert Whole(b) + more == more;
    } else {
      assert (Whole(b) + more)[1..] == Whole(b[1..]) + more;
      WholeDetectsNone(b[1..], more, false);
    }
  }

  // ---- whole segments ------------------------------------------------------

  predicate Synced(ps: seq<Packet>)
  {
    forall i :: 0 <= i < |ps| ==> ps[i][0] == SyncByte
  }

  lemma SlotSynced(s: Slot, pmtPID: nat, audioPID: nat, cc: nat)
    requires audioPID < 0x2000 && cc < 16 && ValidSlot(s, pmtPID, audioPID)
    ensures Synced(PacketsOf(s, pmtPID, audioPID, cc))
  {
    hide Payload, Scrambled, TransportError, Pid, DiscontinuityIndicated;
  }

  lemma {:induction false} ReceivedSynced(slots: seq<Slot>, lost: seq<bool>, pmtPID: nat, audioPID: nat, cc: nat)
    requires audioPID < 0x2000 && cc < 16 && |lost| == |slots|
    requires forall i :: 0 <= i < |slots| ==> ValidSlot(slots[i], pmtPID, audioPID)
    ensures Synced(Received(slots, lost, pmtPID, audioPID, cc))
    decreases |slots|
  {
    if slots != [] {
      hide ValidSlot, PacketsOf;
      SlotSynced(slots[0], pmtPID, audioPID, cc);
      ReceivedSynced(slots[1..], lost[1..], pmtPID, audioPID, CounterAfter(slots[0], cc));
      var x := if lost[0] then [] else PacketsOf(slots[0], pmtPID, audioPID, cc);
      SyncedConcat(x, Received(slots[1..], lost[1..], pmtPID, audioPID, CounterAfter(slots[0], cc)));
    }
  }

  lemma SyncedConcat(a: seq<Packet>, b: seq<Packet>)
    requires Synced(a) && Synced(b)
    ensures Synced(a + b)
  {
  }

  /**
   A segment with any packets missing: one loss and one restart for every hole four-bit counters can
   tell, the counters of the segment before it being no measure.
   */
  lemma LossySegment(
    c: Control, slots: seq<Slot>, lost: seq<bool>, missing: nat, cc: nat, pmtPID: nat, audioPID: nat)
    requires Acquired(c, pmtPID, audioPID) && cc < 16 && |lost| == |slots|
    requires forall i :: 0 <= i < |slots| ==> ValidSlot(slots[i], pmtPID, audioPID)
    requires Restated(SectionsOf(c), Survivors(slots, lost), pmtPID, audioPID)
    requires Received(slots, lost, pmtPID, audioPID, cc) != []
    ensures var arrivals := Arrivals(slots, lost, missing);
            var h := Demux(c, Bytes(Received(slots, lost, pmtPID, audioPID, cc)), false);
            && h.error == None && h.control.acts == TakeAll(c, arrivals, true).acts
            && Losses(h.control.acts) == Losses(c.acts) + DetectedIn(arrivals, true)
            && Restarts(h.control.acts) == Restarts(c.acts) + DetectedIn(arrivals, true)
  {
    hide Segment, Run, Resync, TakeAll, Losses, Restarts, DetectedIn, Restated, Received, Arrivals, SectionsAfter;
    var ps := Received(slots, lost, pmtPID, audioPID, cc);
    var c0 := c.(cc := None);
    ReceivedSynced(slots, lost, pmtPID, audioPID, cc);
    AlignedStart(ps);
    SegmentIsRun(c0, [], ps);
    assert [] + Bytes(ps) == Bytes(ps);
    assert c0 == With(c, None, SectionsOf(c));
    var last := LossyRun(c0, slots, lost, missing, cc, pmtPID, audioPID);
    TakeAllIgnoresRest(c, Arrivals(slots, lost, missing), true, None, SectionsOf(c));
    LossesCounted(c, Arrivals(slots, lost, missing), true);
  }

  // ---- announced discontinuities -------------------------------------------

  function After(acts: seq<Action>, h: Handled): Handled
  {
    h.(control := h.control.(acts := acts + h.control.acts))
  }

  lemma AudioAppends(c: Control, payload: seq<byte>, pusi: bool, cc: nat, acts: seq<Action>)
    ensures AudioPayload(c.(acts := acts + c.acts), payload, pusi, cc) ==
            AudioPayload(c, payload, pusi, cc).(acts := acts + AudioPayload(c, payload, pusi, cc).acts)
  {
    hide Pes;
    if c.cc != Some(cc) {
      var c1 := if c.cc.None? || cc == (c.cc.value + 1) % 16 then c else Charged(c);
      assert acts + (c.acts + [Restart, Loss]) == acts + c.acts + [Restart, Loss];
      PesAppends(c1.(cc := Some(cc)), payload, pusi, acts);
    }
  }

  lemma RestartedAppends(c: Control, acts: seq<Action>)
    ensures Restarted(c.(acts := acts + c.acts)) == Restarted(c).(acts := acts + Restarted(c).acts)
  {
    assert acts + (c.acts + [Restart]) == acts + c.acts + [Restart];
  }

  /** A packet behind its splice announcement. */
  function Routed(c: Control, p: Packet, payload: seq<byte>): Handled
  {
    if Pid(p) == PatPID then Handled(PatPayload(c, payload, Pusi(p)), None)
    else if c.pmtPID == Some(Pid(p)) then PmtPayload(c, payload, Pusi(p))
    else if c.audioPID == Some(Pid(p)) then Handled(AudioPayload(c, payload, Pusi(p), Continuity(p)), None)
    else Handled(c, None)
  }

  lemma RoutedAppends(c: Control, p: Packet, payload: seq<byte>, acts: seq<Action>)
    ensures Routed(c.(acts := acts + c.acts), p, payload) == After(acts, Routed(c, p, payload))
  {
    hide AudioPayload, AudioOf, ProgramMapPid, Assemble, Pid, Pusi, Continuity;
    AudioAppends(c, payload, Pusi(p), Continuity(p), acts);
  }

  lemma HandleAppends(c: Control, p: Packet, acts: seq<Action>)
    ensures Handle(c.(acts := acts + c.acts), p) == After(acts, Handle(c, p))
  {
    hide AudioPayload, PmtPayload, PatPayload, Payload, Pid, Pusi, Continuity, Restarted;
    hide TransportError, Scrambled, DiscontinuityIndicated;
    RestartedAppends(c, acts);
    if Payload(p).Some? {
      RoutedAppends(c, p, Payload(p).value, acts);
      RoutedAppends(Restarted(c).(cc := None), p, Payload(p).value, acts);
    }
  }

  lemma {:induction false} SegmentAppends(c: Control, seg: seq<byte>, off: nat, acts: seq<Action>)
    ensures Segment(c.(acts := acts + c.acts), seg, off) == After(acts, Segment(c, seg, off))
    decreases |seg| - off
  {
    hide Handle;
    if off + PacketLen <= |seg| {
      if seg[off] != SyncByte {
        var r := Resync(seg[off..], 0);
        if r.Some? && r.value > 0 {
          SegmentAppends(c, seg, off + r.value, acts);
        }
      } else {
        var p := seg[off..off + PacketLen];
        HandleAppends(c, p, acts);
        if Handle(c, p).error.None? {
          SegmentAppends(Handle(c, p).control, seg, off + PacketLen, acts);
        }
      }
    }
  }

  /** A segment marked discontinuous ends what came before it and is then demultiplexed as a first one. */
  lemma DiscontinuityForgets(c: Control, seg: seq<byte>)
    ensures Demux(c, seg, true) == After(c.acts + [Restart], Demux(TsDemux.Fresh, seg, false))
  {
    hide Segment, Resync;
    var acts := c.acts + [Restart];
    assert DomainReset(c).(cc := None) == TsDemux.Fresh.(acts := acts + []);
    if Resync(seg, 0).Some? {
      SegmentAppends(TsDemux.Fresh, seg, Resync(seg, 0).value, acts);
    }
  }

  /**
   A packet of the audio PID that announces a splice ends what came before it without charging a loss,
   whatever its counter, and so whatever counter was last seen is forgotten.
   */
  lemma SpliceAnnounced(c: Control, p: Packet, pmtPID: nat, audioPID: nat)
    requires Acquired(c, pmtPID, audioPID) && Pid(p) == audioPID && !TransportError(p) && !Scrambled(p)
    requires DiscontinuityIndicated(p)
    ensures var h, blank := Handle(c, p), Blank(c).(cc := None);
            && h.error == None
            && (Payload(p).None? ==> h == After(c.acts + [Restart], Handled(blank, None)))
            && (Payload(p).Some? ==>
                  h == After(c.acts + [Restart],
                             Handled(Pes(blank.(cc := Some(Continuity(p))), Payload(p).value, Pusi(p)), None)))
            && Losses(h.control.acts) == Losses(c.acts)
  {
    hide Payload, Pes, Losses, Continuity, Pusi;
    var acts := c.acts + [Restart];
    var blank := Blank(c).(cc := None);
    assert Losses(acts) == Losses(c.acts) by { OneRestart(c.acts); }
    if Payload(p).Some? {
      var d := blank.(cc := Some(Continuity(p)));
      PesAppends(d, Payload(p).value, Pusi(p), acts);
      assert acts + d.acts == acts;
      OnlyFeeds(acts, acts + Pes(d, Payload(p).value, Pusi(p)).acts);
    } else {
      assert acts + [] == acts;
    }
  }

  lemma OneRestart(acts: seq<Action>)
    ensures Losses(acts + [Restart]) == Losses(acts)
  {
    assert (acts + [Restart])[..|acts|] == acts;
  }

  // ---- lost alignment ------------------------------------------------------

  /** Bytes between packets at no position of which a sync byte recurs. */
  predicate Stray(g: seq<byte>, ps: seq<Packet>)
  {
    forall i: nat :: i < |g| ==> !SyncAt(g + Bytes(ps), i)
  }

  lemma ResyncAt(b: seq<byte>, i: nat, j: nat)
    requires i <= j < |b| && SyncAt(b, j) && forall k: nat :: i <= k < j ==> !SyncAt(b, k)
    ensures Resync(b, i) == Some(j)
  {
  }

  lemma StrayResync(g: seq<byte>, ps: seq<Packet>)
    requires Stray(g, ps) && ps != [] && Synced(ps)
    ensures Resync(g + Bytes(ps), 0) == Some(|g|)
  {
    var b := g + Bytes(ps);
    AlignedStart(ps);
    assert SyncAt(Bytes(ps), 0);
    assert b[|g|] == Bytes(ps)[0];
    if |g| + PacketLen < |b| {
      assert b[|g| + PacketLen] == Bytes(ps)[PacketLen];
    }
    ResyncAt(b, 0, |g|);
  }

  /** Stray bytes in front of a segment's packets are passed over. */
  lemma StrayInFront(c: Control, g: seq<byte>, ps: seq<Packet>)
    requires Stray(g, ps) && ps != [] && Synced(ps)
    ensures Demux(c, g + Bytes(ps), false) == Run(c.(cc := None), ps)
  {
    hide Run, Segment, Resync, Synced;
    StrayResync(g, ps);
    StillSynced(ps);
    SegmentIsRun(c.(cc := None), g, ps);
  }

  lemma StillSynced(ps: seq<Packet>)
    requires Synced(ps)
    ensures forall i :: 0 <= i < |ps| ==> ps[i][0] == SyncByte
  {
  }

  lemma Realigns(c: Control, seg: seq<byte>, off: nat, r: nat)
    requires off + PacketLen <= |seg| && seg[off] != SyncByte && Resync(seg[off..], 0) == Some(r) && r > 0
    ensures Segment(c, seg, off) == Segment(c, seg, off + r)
  {
    hide Resync, Handle;
  }

  /** Stray bytes between packets are passed over too: the packets behind them are handled as if next. */
  lemma StrayBetween(c: Control, pre: seq<byte>, g: seq<byte>, ps: seq<Packet>)
    requires Stray(g, ps) && ps != [] && Synced(ps) && g != [] && g[0] != SyncByte
    ensures Segment(c, pre + (g + Bytes(ps)), |pre|) == Run(c, ps)
  {
    hide Run, Resync, Stray, Segment, Synced;
    var seg := pre + (g + Bytes(ps));
    assert seg[|pre|..] == g + Bytes(ps) && seg[|pre|] == g[0];
    StrayResync(g, ps);
    Realigns(c, seg, |pre|, |g|);
    assert seg == (pre + g) + Bytes(ps);
    StillSynced(ps);
    SegmentIsRun(c, pre + g, ps);
  }
}
