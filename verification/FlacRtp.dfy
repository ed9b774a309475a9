/**
 FLAC over RTP: one frame split over packets, the marker bit on the last.  There is no
 payload header and no offset, so reassembly rests on timestamp, marker and order alone.
 */
module FlacRtp {
  import opened Bits

  const MaxFrameSize: nat := 0x10_0000

  // ---- sending -------------------------------------------------------------

  datatype PacketizeError = EmptyFrame | InvalidMTU

  datatype Fragment = Fragment(data: seq<byte>, marker: bool)

  datatype Option<+T> = None | Some(value: T)

  /** The fragments of `frame` from offset `off` on. */
  function Fragments(frame: seq<byte>, max: nat, off: nat): (r: seq<Fragment>)
    requires 0 < max && off < |frame|
    ensures r != []
    decreases |frame| - off
  {
    if off + max >= |frame| then [Fragment(frame[off..], true)]
    else [Fragment(frame[off..off + max], false)] + Fragments(frame, max, off + max)
  }

  /** Splits a frame and appends its fragments to `dst`, which an error leaves unchanged. */
  method Packetize(dst: seq<Fragment>, frame: seq<byte>, maxPayload: int)
    returns (r: seq<Fragment>, err: Option<PacketizeError>)
    ensures maxPayload <= 0 ==> err == Some(InvalidMTU) && r == dst
    ensures maxPayload > 0 && frame == [] ==> err == Some(EmptyFrame) && r == dst
    ensures maxPayload > 0 && frame != [] ==> err == None && r == dst + Fragments(frame, maxPayload, 0)
  {
    if maxPayload <= 0 {
      return dst, Some(InvalidMTU);
    }
    if frame == [] {
      return dst, Some(EmptyFrame);
    }
    r, err := dst, None;
    var off: nat := 0;
    while off < |frame|
      invariant off < |frame| ==> r + Fragments(frame, maxPayload, off) == dst + Fragments(frame, maxPayload, 0)
      invariant off < |frame|
    {
      var end := off + maxPayload;
      if end >= |frame| {
        r := r + [Fragment(frame[off..], true)];
        break;
      }
      r := r + [Fragment(frame[off..end], false)];
      off := end;
    }
  }

  function Joined(fs: seq<Fragment>): seq<byte>
  {
    if fs == [] then [] else fs[0].data + Joined(fs[1..])
  }

  /** Fragments of one frame: none empty, and the marker on the last alone. */
  predicate IsFragmentation(fs: seq<Fragment>)
  {
    && fs != []
    && forall i :: 0 <= i < |fs| ==> fs[i].data != [] && (fs[i].marker <==> i == |fs| - 1)
  }

  /** Fragments rejoin to the frame, fit the MTU, and all but the last fill it. */
  lemma {:induction false} FragmentsRejoin(frame: seq<byte>, max: nat, off: nat)
    requires 0 < max && off < |frame|
    ensures var fs := Fragments(frame, max, off);
            && Joined(fs) == frame[off..]
            && IsFragmentation(fs)
            && (forall i :: 0 <= i < |fs| ==> |fs[i].data| <= max && (!fs[i].marker ==> |fs[i].data| == max))
    decreases |frame| - off
  {
    if off + max < |frame| {
      FragmentsRejoin(frame, max, off + max);
      assert frame[off..] == frame[off..off + max] + frame[off + max..];
    } else {
      var fs := Fragments(frame, max, off);
      assert fs[1..] == [];
      assert Joined(fs) == fs[0].data + Joined([]);
    }
  }

  // ---- receiving -----------------------------------------------------------

  datatype Error = EmptyPayload | FrameOverflow

  datatype Result = Buffered | Frame(data: seq<byte>) | Err(error: Error)

  datatype State = Idle | Partial(frag: seq<byte>, time: nat)

  datatype Outcome = Outcome(state: State, result: Result)

  function Fresh(payload: seq<byte>, marker: bool, time: nat): Outcome
  {
    if marker then Outcome(Idle, Frame(payload))
    else if |payload| > MaxFrameSize then Outcome(Idle, Err(FrameOverflow))
    else Outcome(Partial(payload, time), Buffered)
  }

  function Process(s: State, payload: seq<byte>, marker: bool, time: nat): Outcome
  {
    if payload == [] then Outcome(Idle, Err(EmptyPayload))
    else if s.Idle? || time != s.time then Fresh(payload, marker, time)
    else if |s.frag| + |payload| > MaxFrameSize then Outcome(Idle, Err(FrameOverflow))
    else if marker then Outcome(Idle, Frame(s.frag + payload))
    else Outcome(s.(frag := s.frag + payload), Buffered)
  }

  // ---- runs of packets -----------------------------------------------------

  datatype Op = Packet(payload: seq<byte>, marker: bool, time: nat) | Reset

  function Apply(s: State, op: Op): Outcome
  {
    match op
    case Reset => Outcome(Idle, Buffered)
    case Packet(payload, marker, time) => Process(s, payload, marker, time)
  }

  function After(s: State, ops: seq<Op>): State
    decreases |ops|
  {
    if ops == [] then s else After(Apply(s, ops[0]).state, ops[1..])
  }

  function Results(s: State, ops: seq<Op>): (r: seq<Result>)
    ensures |r| == |ops|
    decreases |ops|
  {
    if ops == [] then [] else [Apply(s, ops[0]).result] + Results(Apply(s, ops[0]).state, ops[1..])
  }

  function PacketsOf(fs: seq<Fragment>, time: nat): seq<Op>
  {
    seq(|fs|, i requires 0 <= i < |fs| => Packet(fs[i].data, fs[i].marker, time))
  }

  /** Joining in progress: nothing of the frame yet, or exactly the bytes so far. */
  predicate Holds(s: State, frag: seq<byte>, time: nat)
  {
    if frag == [] then s.Idle? || s.time != time else s == Partial(frag, time)
  }

  lemma FragmentStep(s: State, frag: seq<byte>, f: Fragment, time: nat)
    requires Holds(s, frag, time) && f.data != [] && |frag| + |f.data| <= MaxFrameSize
    ensures var r := Apply(s, Packet(f.data, f.marker, time));
            if f.marker then r == Outcome(Idle, Frame(frag + f.data))
            else r == Outcome(Partial(frag + f.data, time), Buffered)
  {
    if frag == [] {
      assert [] + f.data == f.data;
    }
  }

  lemma {:induction false} Reassembles(s: State, frag: seq<byte>, fs: seq<Fragment>, time: nat)
    requires IsFragmentation(fs) && |frag| + |Joined(fs)| <= MaxFrameSize && Holds(s, frag, time)
    ensures var ops := PacketsOf(fs, time);
            && Results(s, ops)[|fs| - 1] == Frame(frag + Joined(fs))
            && (forall i :: 0 <= i < |fs| - 1 ==> Results(s, ops)[i] == Buffered)
            && After(s, ops) == Idle
    decreases |fs|
  {
    assert fs != [];
    hide Apply, IsFragmentation;
    var ops := PacketsOf(fs, time);
    var f, next := fs[0], Apply(s, ops[0]);
    assert f.data != [] && (f.marker <==> |fs| == 1) by { assert IsFragmentation(fs); FirstFragment(fs); }
    FragmentStep(s, frag, f, time);
    if |fs| == 1 {
      assert Joined(fs) == f.data + Joined([]) by { assert fs[1..] == []; }
      assert ops[1..] == [];
    } else {
      assert ops[1..] == PacketsOf(fs[1..], time);
      FirstFragment(fs);
      assert frag + f.data + Joined(fs[1..]) == frag + Joined(fs);
      Reassembles(next.state, frag + f.data, fs[1..], time);
    }
  }

  lemma FirstFragment(fs: seq<Fragment>)
    requires IsFragmentation(fs)
    ensures fs[0].data != [] && (fs[0].marker <==> |fs| == 1)
    ensures |fs| > 1 ==> IsFragmentation(fs[1..])
  {
  }

  /**
   Packetize then Depacketize is the identity: for every non-empty frame within the cap, every
   positive MTU, and every state not already mid-frame at the same timestamp.
   */
  lemma RoundTrip(s: State, frame: seq<byte>, max: nat, time: nat)
    requires 0 < |frame| <= MaxFrameSize && 0 < max
    requires s.Idle? || s.time != time
    ensures var fs := Fragments(frame, max, 0);
            var rs := Results(s, PacketsOf(fs, time));
            && rs[|fs| - 1] == Frame(frame)
            && (forall i :: 0 <= i < |fs| - 1 ==> rs[i] == Buffered)
            && After(s, PacketsOf(fs, time)) == Idle
  {
    FragmentsRejoin(frame, max, 0);
    Reassembles(s, [], Fragments(frame, max, 0), time);
    assert [] + Joined(Fragments(frame, max, 0)) == frame[0..] == frame;
  }

  // ---- loss ----------------------------------------------------------------

  function PayloadOf(op: Op): seq<byte>
  {
    if op.Packet? then op.payload else []
  }

  /** The payloads of a run of packets, joined. */
  function Payloads(ops: seq<Op>): seq<byte>
  {
    if ops == [] then [] else Payloads(ops[..|ops| - 1]) + PayloadOf(ops[|ops| - 1])
  }

  /** An unbroken run of packets of one timestamp. */
  predicate OneFrame(ops: seq<Op>, time: nat)
  {
    forall i :: 0 <= i < |ops| ==> ops[i].Packet? && ops[i].time == time
  }

  /** `frag` is what the last `n` packets carried, all of timestamp `time`. */
  predicate TailIs(ops: seq<Op>, n: nat, time: nat, frag: seq<byte>)
  {
    && 0 < n <= |ops|
    && OneFrame(ops[|ops| - n..], time)
    && Payloads(ops[|ops| - n..]) == frag
  }

  lemma PayloadsSnoc(ops: seq<Op>, op: Op)
    ensures Payloads(ops + [op]) == Payloads(ops) + PayloadOf(op)
  {
    assert (ops + [op])[..|ops|] == ops;
  }

  lemma ExtendTail(ops: seq<Op>, op: Op, n: nat, time: nat, frag: seq<byte>)
    requires op.Packet? && op.time == time
    requires if n == 0 then frag == [] else TailIs(ops, n, time, frag)
    ensures TailIs(ops + [op], n + 1, time, frag + op.payload)
  {
    var tail := ops[|ops| - n..];
    assert (ops + [op])[|ops + [op]| - (n + 1)..] == tail + [op];
    PayloadsSnoc(tail, op);
  }

  lemma {:induction false} AfterSnoc(s: State, ops: seq<Op>, op: Op)
    ensures After(s, ops + [op]) == Apply(After(s, ops), op).state
    ensures Results(s, ops + [op])[|ops|] == Apply(After(s, ops), op).result
    decreases |ops|
  {
    hide Apply;
    if ops == [] {
      assert ([] + [op])[1..] == [];
    } else {
      assert (ops + [op])[1..] == ops[1..] + [op];
      AfterSnoc(Apply(s, ops[0]).state, ops[1..], op);
    }
  }

  /** The tail a partial frame consists of grows, restarts or vanishes with the next packet. */
  lemma TailStep(init: seq<Op>, s: State, op: Op, m: nat) returns (n: nat)
    requires if s.Partial? then 0 < m && TailIs(init, m, s.time, s.frag) else m == 0
    ensures var s' := Apply(s, op).state;
            if s'.Partial? then 0 < n && TailIs(init + [op], n, s'.time, s'.frag) else n == 0
    ensures Apply(s, op).result.Frame? ==>
              op.Packet? && op.marker && exists k :: TailIs(init + [op], k, op.time, Apply(s, op).result.data)
  {
    hide TailIs, Payloads;
    n := 0;
    if op.Packet? {
      if s.Partial? && s.time == op.time {
        ExtendTail(init, op, m, op.time, s.frag);
        n := if op.marker || Apply(s, op).state.Idle? then 0 else m + 1;
      } else {
        ExtendTail(init, op, 0, op.time, []);
        assert [] + op.payload == op.payload;
        n := if Apply(s, op).state.Idle? then 0 else 1;
      }
    }
  }

  /** A partial frame is exactly the payloads of the latest packets, all of one timestamp. */
  lemma {:induction false} PartialIsTail(ops: seq<Op>) returns (n: nat)
    ensures var s := After(Idle, ops);
            if s.Partial? then 0 < n && TailIs(ops, n, s.time, s.frag) else n == 0
    decreases |ops|
  {
    n := 0;
    if ops != [] {
      hide After, TailIs, Apply;
      var init, op := ops[..|ops| - 1], ops[|ops| - 1];
      assert ops == init + [op];
      var m := PartialIsTail(init);
      AfterSnoc(Idle, init, op);
      n := TailStep(init, After(Idle, init), op, m);
    } else {
      assert After(Idle, ops) == Idle;
    }
  }

  /**
   No splicing: whatever is lost, repeated or reordered, a returned frame is the payloads
   of an unbroken run of received packets of one timestamp, the last one marked.
   */
  lemma NeverSplices(ops: seq<Op>, i: nat) returns (n: nat)
    requires i < |ops| && Results(Idle, ops)[i].Frame?
    ensures ops[i].Packet? && ops[i].marker
    ensures TailIs(ops[..i + 1], n, ops[i].time, Results(Idle, ops)[i].data)
  {
    hide TailIs, Apply, After, Results;
    var init, op := ops[..i], ops[i];
    assert ops[..i + 1] == init + [op];
    assert ops == ops[..i + 1] + ops[i + 1..];
    ResultsPrefix(Idle, ops[..i + 1], ops[i + 1..]);
    AfterSnoc(Idle, init, op);
    var m := PartialIsTail(init);
    var k := TailStep(init, After(Idle, init), op, m);
    n :| TailIs(init + [op], n, op.time, Apply(After(Idle, init), op).result.data);
  }

  lemma {:induction false} ResultsPrefix(s: State, a: seq<Op>, b: seq<Op>)
    ensures Results(s, a) == Results(s, a + b)[..|a|]
    decreases |a|
  {
    hide Apply;
    if a != [] {
      assert (a + b)[1..] == a[1..] + b;
      ResultsPrefix(Apply(s, a[0]).state, a[1..], b);
    }
  }

  /** Packet `j` of a frame's fragmentation. */
  predicate Sends(op: Op, fs: seq<Fragment>, time: nat, j: nat)
  {
    op.Packet? && j < |fs| && op == Packet(fs[j].data, fs[j].marker, time)
  }

  /** Packets that carry consecutive fragments, from `first` on. */
  predicate SendsFrom(ops: seq<Op>, fs: seq<Fragment>, time: nat, first: nat)
  {
    forall k :: 0 <= k < |ops| ==> Sends(ops[k], fs, time, first + k)
  }

  /** Every packet of timestamp `time` carries the fragment of `fs` that `js` says. */
  predicate Carries(ops: seq<Op>, js: seq<nat>, fs: seq<Fragment>, time: nat)
    requires |ops| == |js|
  {
    forall k :: 0 <= k < |ops| && ops[k].Packet? && ops[k].time == time ==> Sends(ops[k], fs, time, js[k])
  }

  /** Packets of one timestamp that follow each other directly carry consecutive fragments. */
  predicate ResetAtGaps(ops: seq<Op>, js: seq<nat>, time: nat)
    requires |ops| == |js|
  {
    forall k {:trigger js[k]} ::
      0 < k < |ops| && ops[k - 1].Packet? && ops[k].Packet? && ops[k - 1].time == ops[k].time == time ==>
        js[k] == js[k - 1] + 1
  }

  /**
   When the caller resets at every gap, consecutive packets of a frame carry consecutive
   fragments: then a returned frame is a contiguous run of the fragments, up to the marker.
   */
  lemma ContiguousWithResets(ops: seq<Op>, i: nat, fs: seq<Fragment>, js: seq<nat>, time: nat) returns (first: nat)
    requires i < |ops| == |js| && Results(Idle, ops)[i].Frame? && IsFragmentation(fs)
    requires ops[i].Packet? ==> ops[i].time == time
    requires Carries(ops, js, fs, time) && ResetAtGaps(ops, js, time)
    ensures first < |fs| && Results(Idle, ops)[i].data == Joined(fs[first..])
  {
    hide After, Results, Payloads, Joined, ResetAtGaps;
    var n := NeverSplices(ops, i);
    var tail := ops[..i + 1][i + 1 - n..];
    first := RunSends(ops, i, fs, js, time, n);
    hide IsFragmentation, Carries, OneFrame, Sends;
    PayloadsAreJoined(tail, fs, first, time);
    assert fs[first..first + |tail|] == fs[first..];
  }

  /** The run of packets behind a returned frame carries the last fragments, in order. */
  lemma RunSends(ops: seq<Op>, i: nat, fs: seq<Fragment>, js: seq<nat>, time: nat, n: nat) returns (first: nat)
    requires i < |ops| == |js| && IsFragmentation(fs) && 0 < n <= i + 1
    requires ops[i].Packet? && ops[i].marker && ops[i].time == time
    requires OneFrame(ops[..i + 1][i + 1 - n..], time)
    requires Carries(ops, js, fs, time) && ResetAtGaps(ops, js, time)
    ensures first + n == |fs|
    ensures SendsFrom(ops[..i + 1][i + 1 - n..], fs, time, first)
  {
    hide ResetAtGaps;
    var tail := ops[..i + 1][i + 1 - n..];
    assert Sends(ops[i], fs, time, js[i]);
    RunIsSuffix(ops, i, fs, js, time, n, n);
    first := js[i + 1 - n];
    forall k | 0 <= k < n
      ensures Sends(tail[k], fs, time, first + k)
    {
      assert tail[k] == ops[i + 1 - n + k];
      assert js[i + 1 - n + k] == first + k;
    }
  }

  /** Counting back from the marker, packet i-d of the run carries fragment |fs|-1-d. */
  lemma {:induction false} RunIsSuffix(ops: seq<Op>, i: nat, fs: seq<Fragment>, js: seq<nat>, time: nat, n: nat, d: nat)
    requires i < |ops| == |js| && 0 < n <= i + 1 && d <= n
    requires ResetAtGaps(ops, js, time)
    requires OneFrame(ops[..i + 1][i + 1 - n..], time) && js[i] == |fs| - 1
    ensures forall k :: i + 1 - d <= k <= i ==> js[k] == |fs| - 1 - (i - k)
  {
    if d > 1 {
      RunIsSuffix(ops, i, fs, js, time, n, d - 1);
      var tail := ops[..i + 1][i + 1 - n..];
      assert tail[n - d] == ops[i + 1 - d] && tail[n - d + 1] == ops[i + 2 - d];
      assert js[i + 2 - d] == js[i + 1 - d] + 1;
    }
  }

  lemma {:induction false} PayloadsAreJoined(tail: seq<Op>, fs: seq<Fragment>, first: nat, time: nat)
    requires first + |tail| <= |fs|
    requires SendsFrom(tail, fs, time, first)
    ensures Payloads(tail) == Joined(fs[first..first + |tail|])
    decreases |tail|
  {
    if tail == [] {
      assert fs[first..first] == [];
    } else {
      var m := |tail| - 1;
      PayloadsAreJoined(tail[..m], fs, first, time);
      assert Sends(tail[m], fs, time, first + m);
      assert fs[first..first + |tail|] == fs[first..first + m] + [fs[first + m]];
      JoinedSnoc(fs[first..first + m], fs[first + m]);
    }
  }

  lemma {:induction false} JoinedSnoc(fs: seq<Fragment>, f: Fragment)
    ensures Joined(fs + [f]) == Joined(fs) + f.data
  {
    if fs == [] {
      assert ([] + [f])[1..] == [];
      assert Joined([] + [f]) == f.data + Joined([]);
    } else {
      assert (fs + [f])[1..] == fs[1..] + [f];
      JoinedSnoc(fs[1..], f);
    }
  }

  lemma {:induction false} SuffixOfFragmentation(fs: seq<Fragment>, k: nat)
    requires IsFragmentation(fs) && k < |fs|
    ensures IsFragmentation(fs[k..]) && |Joined(fs[k..])| + k <= |Joined(fs)|
  {
    if k == 0 {
      assert fs[0..] == fs;
    } else {
      FirstFragment(fs);
      SuffixOfFragmentation(fs[1..], k - 1);
      assert fs[1..][k - 1..] == fs[k..];
    }
  }

  /**
   The format has no offset, so losing the head of a frame goes unnoticed at the start of a stream: the
   rest is returned as a frame.  What comes back is the whole frame exactly when the head was there.
   */
  lemma WholeExactlyWithHead(fs: seq<Fragment>, k: nat, time: nat)
    requires IsFragmentation(fs) && k < |fs| && |Joined(fs)| <= MaxFrameSize
    ensures var rs := Results(Idle, PacketsOf(fs[k..], time));
            && rs[|fs| - k - 1].Frame?
            && (rs[|fs| - k - 1].data == Joined(fs) <==> k == 0)
  {
    SuffixOfFragmentation(fs, k);
    Reassembles(Idle, [], fs[k..], time);
    assert [] + Joined(fs[k..]) == Joined(fs[k..]);
    assert fs[0..] == fs;
  }

  // ---- the depacketizer object ---------------------------------------------

  class Depacketizer {
    var frag: seq<byte>
    var fragActive: bool
    var fragTime: nat

    ghost function View(): State
      reads this
    {
      if fragActive then Partial(frag, fragTime) else Idle
    }

    constructor ()
      ensures View() == Idle
    {
      frag, fragActive, fragTime := [], false, 0;
    }

    method Reset()
      modifies this
      ensures View() == Idle && frag == []
    {
      fragActive := false;
      frag := [];
    }

    method Depacketize(payload: seq<byte>, marker: bool, rtpTime: nat) returns (r: Result)
      modifies this
      ensures Outcome(View(), r) == Process(old(View()), payload, marker, rtpTime)
      decreases fragActive
    {
      if payload == [] {
        if fragActive {
          Reset();
        }
        return Err(EmptyPayload);
      }
      if !fragActive {
        if marker {
          return Frame(payload);
        }
        if |payload| > MaxFrameSize {
          return Err(FrameOverflow);
        }
        frag := payload;
        fragActive := true;
        fragTime := rtpTime;
        return Buffered;
      }
      if rtpTime != fragTime {
        Reset();
        r := Depacketize(payload, marker, rtpTime);
        return;
      }
      if |frag| + |payload| > MaxFrameSize {
        Reset();
        return Err(FrameOverflow);
      }
      frag := frag + payload;
      if !marker {
        return Buffered;
      }
      fragActive := false;
      return Frame(frag);
    }
  }
}
