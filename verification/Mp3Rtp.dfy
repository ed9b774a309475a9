/**
 MPEG audio over RTP (RFC 2250 section 3.5): reassembly of fragmented frames and
 splitting of aggregated ones.  A continuation carries only an offset, so a frame is
 rebuilt correctly only because timestamp, offset and declared length all have to agree.
 */
module Mp3Rtp {
  import opened Bits
  import M = Mpeg

  const HeaderLen: nat := 4
  const MaxRTPOffset: nat := 0xFFFF_FFFF
  const DefaultClockRate: nat := 90000

  datatype Error = ShortHeader | InvalidFrame | OrphanFragment | FrameOverflow

  datatype Frame = Frame(data: seq<byte>, rtpOffset: nat)

  datatype Result = Ok(frames: seq<Frame>) | Err(error: Error)

  /** No frame in progress, or one whose bytes so far, timestamp and declared length are known. */
  datatype State = Idle | Partial(frag: seq<byte>, time: nat, expected: nat)

  // ---- the transform -------------------------------------------------------

  /** A parsed header with the whole frame present at the front of `rem`. */
  predicate WholeFrameAt(rem: seq<byte>)
  {
    M.HeaderLen <= |rem| && M.Parse(rem).Some? && M.Parse(rem).value.frameLen <= |rem|
  }

  /** The whole frames at the front of `rem`, their offsets accumulating from `ticks`. */
  function WholeFrames(clockRate: nat, rem: seq<byte>, ticks: nat): seq<Frame>
    decreases |rem|
  {
    if !WholeFrameAt(rem) then [] else
      var h := M.Parse(rem).value;
      [Frame(rem[..h.frameLen], if ticks < MaxRTPOffset then ticks else MaxRTPOffset)]
      + WholeFrames(clockRate, rem[h.frameLen..], ticks + h.samplesPerFrame * clockRate / h.sampleRate)
  }

  lemma WholeFramesUnfold(clockRate: nat, rem: seq<byte>, ticks: nat)
    ensures !WholeFrameAt(rem) ==> WholeFrames(clockRate, rem, ticks) == []
    ensures WholeFrameAt(rem) ==>
              var h := M.Parse(rem).value;
              WholeFrames(clockRate, rem, ticks) ==
              [Frame(rem[..h.frameLen], if ticks < MaxRTPOffset then ticks else MaxRTPOffset)]
              + WholeFrames(clockRate, rem[h.frameLen..], ticks + h.samplesPerFrame * clockRate / h.sampleRate)
  {
    hide M.Parse;
  }

  datatype Outcome = Outcome(state: State, result: Result)

  /** A packet at a frame boundary: whole frames, or the head of a fragmented one. */
  function Boundary(clockRate: nat, data: seq<byte>, time: nat): Outcome
  {
    if |data| < M.HeaderLen || M.Parse(data).None? then Outcome(Idle, Err(InvalidFrame))
    else if |data| < M.Parse(data).value.frameLen then
      Outcome(Partial(data, time, M.Parse(data).value.frameLen), Ok([]))
    else Outcome(Idle, Ok(WholeFrames(clockRate, data, 0)))
  }

  function Continue(s: State, data: seq<byte>, off: nat, time: nat): Outcome
  {
    if s.Idle? || time != s.time || off != |s.frag| then Outcome(Idle, Err(OrphanFragment))
    else if |s.frag| + |data| > s.expected then Outcome(Idle, Err(FrameOverflow))
    else if |s.frag| + |data| < s.expected then Outcome(s.(frag := s.frag + data), Ok([]))
    else Outcome(Idle, Ok([Frame(s.frag + data, 0)]))
  }

  function FragOffset(payload: seq<byte>): nat
    requires HeaderLen <= |payload|
  {
    256 * (payload[2] as int) + payload[3] as int
  }

  function Process(clockRate: nat, s: State, payload: seq<byte>, time: nat): Outcome
  {
    if |payload| < HeaderLen then Outcome(Idle, Err(ShortHeader))
    else if FragOffset(payload) == 0 then Boundary(clockRate, payload[HeaderLen..], time)
    else Continue(s, payload[HeaderLen..], FragOffset(payload), time)
  }

  // ---- senders -------------------------------------------------------------

  /** A frame as the sender has it. */
  predicate IsFrame(f: seq<byte>)
  {
    M.HeaderLen <= |f| && M.Parse(f).Some? && M.Parse(f).value.frameLen == |f|
  }

  datatype Original = Original(time: nat, bytes: seq<byte>)

  predicate Originals(os: seq<Original>)
  {
    && (forall i :: 0 <= i < |os| ==> IsFrame(os[i].bytes))
    && forall i, j :: 0 <= i < |os| && 0 <= j < |os| && os[i].time == os[j].time ==> i == j
  }

  /**
   What can reach the receiver: any piece of any frame, several whole frames in one packet,
   or a Reset by the caller.  The two MBZ bytes are arbitrary.
   */
  datatype Op =
    | Piece(k: nat, off: nat, len: nat, mbz: (byte, byte))
    | Aggregate(time: nat, ks: seq<nat>, mbz: (byte, byte))
    | Reset

  predicate Sendable(os: seq<Original>, op: Op)
  {
    match op
    case Piece(k, off, len, _) =>
      k < |os| && off < 65536 && off + len <= |os[k].bytes|
    case Aggregate(_, ks, _) => ks != [] && forall i :: 0 <= i < |ks| ==> ks[i] < |os|
    case Reset => true
  }

  function Joined(os: seq<Original>, ks: seq<nat>): seq<byte>
    requires forall i :: 0 <= i < |ks| ==> ks[i] < |os|
  {
    if ks == [] then [] else os[ks[0]].bytes + Joined(os, ks[1..])
  }

  function WithHeader(mbz: (byte, byte), off: nat, data: seq<byte>): (p: seq<byte>)
    requires off < 65536
    ensures HeaderLen <= |p| && FragOffset(p) == off && p[HeaderLen..] == data
  {
    [mbz.0, mbz.1, off / 256, off % 256] + data
  }

  function Deliver(os: seq<Original>, clockRate: nat, s: State, op: Op): Outcome
    requires Sendable(os, op)
  {
    match op
    case Reset => Outcome(Idle, Ok([]))
    case Piece(k, off, len, mbz) =>
      Process(clockRate, s, WithHeader(mbz, off, os[k].bytes[off..off + len]), os[k].time)
    case Aggregate(time, ks, mbz) =>
      Process(clockRate, s, WithHeader(mbz, 0, Joined(os, ks)), time)
  }

  // ---- exactness under loss ------------------------------------------------

  /** A frame in progress is a proper prefix of the one original with its timestamp. */
  predicate Faithful(os: seq<Original>, s: State)
  {
    s.Partial? ==>
      exists k :: 0 <= k < |os| && PrefixOf(os[k], s)
  }

  predicate PrefixOf(o: Original, s: State)
    requires s.Partial?
  {
    o.time == s.time && s.frag <= o.bytes && |s.frag| < s.expected == |o.bytes|
  }

  predicate AllOriginal(os: seq<Original>, frames: seq<Frame>)
  {
    forall i :: 0 <= i < |frames| ==> IsOriginal(os, frames[i])
  }

  predicate IsOriginal(os: seq<Original>, frame: Frame)
  {
    exists k :: 0 <= k < |os| && frame.data == os[k].bytes
  }

  lemma HeadParses(f: seq<byte>, len: nat)
    requires IsFrame(f) && M.HeaderLen <= len <= |f|
    ensures M.Parse(f[..len]) == M.Parse(f)
  {
    M.ParseStable(f[..len], f[len..]);
    assert f == f[..len] + f[len..];
  }

  lemma WholeFrameAtFront(f: seq<byte>, rest: seq<byte>)
    requires IsFrame(f)
    ensures WholeFrameAt(f + rest) && M.Parse(f + rest) == M.Parse(f)
    ensures (f + rest)[..|f|] == f && (f + rest)[|f|..] == rest
  {
    M.ParseStable(f, rest);
  }

  lemma NoWholeFrames(clockRate: nat, ticks: nat)
    ensures WholeFrames(clockRate, [], ticks) == []
  {
  }

  /** Splitting an aggregate gives back exactly the frames that were joined, in order. */
  lemma {:induction false} SplitOfJoined(os: seq<Original>, clockRate: nat, ks: seq<nat>, ticks: nat)
    requires Originals(os) && forall i :: 0 <= i < |ks| ==> ks[i] < |os|
    ensures var fs := WholeFrames(clockRate, Joined(os, ks), ticks);
            |fs| == |ks| && forall i :: 0 <= i < |ks| ==> fs[i].data == os[ks[i]].bytes
    decreases |ks|
  {
    hide M.Parse, WholeFrames, WholeFrameAt;
    if ks == [] {
      assert Joined(os, ks) == [];
      NoWholeFrames(clockRate, ticks);
    } else {
      var f, rest := os[ks[0]].bytes, Joined(os, ks[1..]);
      WholeFrameAtFront(f, rest);
      WholeFramesUnfold(clockRate, f + rest, ticks);
      var h := M.Parse(f).value;
      SplitOfJoined(os, clockRate, ks[1..], ticks + h.samplesPerFrame * clockRate / h.sampleRate);
    }
  }

  lemma AggregateExact(os: seq<Original>, clockRate: nat, s: State, op: Op)
    requires Originals(os) && Sendable(os, op) && op.Aggregate?
    ensures var r := Deliver(os, clockRate, s, op);
            && r.state.Idle? && r.result.Ok? && |r.result.frames| == |op.ks|
            && (forall i :: 0 <= i < |op.ks| ==> r.result.frames[i].data == os[op.ks[i]].bytes)
  {
    hide M.Parse, WholeFrames, WithHeader;
    var f, rest := os[op.ks[0]].bytes, Joined(os, op.ks[1..]);
    WholeFrameAtFront(f, rest);
    SplitOfJoined(os, clockRate, op.ks, 0);
  }

  /** Whatever arrives next, the state stays faithful and everything returned is an original frame. */
  lemma DeliverExact(os: seq<Original>, clockRate: nat, s: State, op: Op)
    requires Originals(os) && Sendable(os, op) && Faithful(os, s)
    ensures var r := Deliver(os, clockRate, s, op);
            && Faithful(os, r.state)
            && (r.result.Ok? ==> AllOriginal(os, r.result.frames))
            && (r.result.Err? ==> r.state.Idle?)
  {
    hide M.Parse, WholeFrames, WithHeader;
    var r := Deliver(os, clockRate, s, op);
    match op
    case Reset =>
    case Aggregate(_, ks, _) =>
      AggregateExact(os, clockRate, s, op);
      assert forall i :: 0 <= i < |ks| ==> 0 <= ks[i] < |os| && r.result.frames[i].data == os[ks[i]].bytes;
    case Piece(k, off, len, mbz) =>
      var o := os[k];
      var data := o.bytes[off..off + len];
      if off == 0 && M.HeaderLen <= len {
        HeadParses(o.bytes, len);
        if len == |o.bytes| {
          WholeAlone(clockRate, o.bytes);
          assert o.bytes[..len] == o.bytes;
        } else {
          assert PrefixOf(o, r.state);
        }
      } else if off > 0 && s.Partial? && o.time == s.time && off == |s.frag| {
        var j :| 0 <= j < |os| && PrefixOf(os[j], s);
        assert j == k;
        assert s.frag + data == o.bytes[..off + len];
        if off + len < |o.bytes| {
          assert PrefixOf(o, r.state);
        } else {
          assert o.bytes[..off + len] == o.bytes;
          assert r.result == Ok([Frame(o.bytes, 0)]);
        }
      }
  }

  lemma WholeAlone(clockRate: nat, f: seq<byte>)
    requires IsFrame(f)
    ensures WholeFrames(clockRate, f, 0) == [Frame(f, 0)]
  {
    hide M.Parse;
    WholeFrameAtFront(f, []);
    assert f + [] == f;
    var h := M.Parse(f).value;
    assert WholeFrames(clockRate, f[h.frameLen..], h.samplesPerFrame * clockRate / h.sampleRate) == [];
  }

  /** Everything returned over a run, in order. */
  function Returned(os: seq<Original>, clockRate: nat, s: State, ops: seq<Op>): seq<Frame>
    requires forall i :: 0 <= i < |ops| ==> Sendable(os, ops[i])
    decreases |ops|
  {
    if ops == [] then [] else
      var r := Deliver(os, clockRate, s, ops[0]);
      (if r.result.Ok? then r.result.frames else []) + Returned(os, clockRate, r.state, ops[1..])
  }

  function After(os: seq<Original>, clockRate: nat, s: State, ops: seq<Op>): State
    requires forall i :: 0 <= i < |ops| ==> Sendable(os, ops[i])
    decreases |ops|
  {
    if ops == [] then s else After(os, clockRate, Deliver(os, clockRate, s, ops[0]).state, ops[1..])
  }

  lemma NoneOriginal(os: seq<Original>)
    ensures AllOriginal(os, [])
  {
  }

  lemma AllOriginalConcat(os: seq<Original>, a: seq<Frame>, b: seq<Frame>)
    requires AllOriginal(os, a) && AllOriginal(os, b)
    ensures AllOriginal(os, a + b)
  {
  }

  /**
   Exactness under loss, duplication and reordering: over any sequence of pieces, aggregates
   and Resets, every frame returned is one of the originals, byte for byte.
   */
  lemma {:induction false} RunExact(os: seq<Original>, clockRate: nat, s: State, ops: seq<Op>)
    requires Originals(os) && Faithful(os, s)
    requires forall i :: 0 <= i < |ops| ==> Sendable(os, ops[i])
    ensures AllOriginal(os, Returned(os, clockRate, s, ops)) && Faithful(os, After(os, clockRate, s, ops))
    decreases |ops|
  {
    hide Deliver, Faithful, Sendable, Originals, AllOriginal;
    if ops == [] {
      NoneOriginal(os);
    } else {
      DeliverExact(os, clockRate, s, ops[0]);
      var r := Deliver(os, clockRate, s, ops[0]);
      RunExact(os, clockRate, r.state, ops[1..]);
      AllOriginalConcat(os, if r.result.Ok? then r.result.frames else [], Returned(os, clockRate, r.state, ops[1..]));
    }
  }

  // ---- lossless delivery ---------------------------------------------------

  /** The pieces of frame `k` from offset `off` on, for a list of piece lengths. */
  function PiecesFrom(k: nat, off: nat, lens: seq<nat>): (ops: seq<Op>)
    ensures |ops| == |lens|
    decreases |lens|
  {
    if lens == [] then [] else [Piece(k, off, lens[0], (0, 0))] + PiecesFrom(k, off + lens[0], lens[1..])
  }

  function Sum(lens: seq<nat>): nat
  {
    if lens == [] then 0 else lens[0] + Sum(lens[1..])
  }

  /** A fragmentation: non-empty pieces that add up to the frame, the first holding the header. */
  predicate Fragmentation(o: Original, lens: seq<nat>)
  {
    && lens != [] && M.HeaderLen <= lens[0] && Sum(lens) == |o.bytes| <= 65535
    && forall i :: 0 <= i < |lens| ==> 0 < lens[i]
  }

  lemma {:induction false} PiecesSendable(os: seq<Original>, k: nat, off: nat, lens: seq<nat>)
    requires k < |os| && off + Sum(lens) == |os[k].bytes| <= 65535
    ensures forall i :: 0 <= i < |lens| ==> Sendable(os, PiecesFrom(k, off, lens)[i])
    decreases |lens|
  {
    if lens != [] {
      PiecesSendable(os, k, off + lens[0], lens[1..]);
    }
  }

  /** The next piece in order grows the partial frame, or completes it. */
  lemma PieceDelivered(os: seq<Original>, clockRate: nat, k: nat, off: nat, lens: seq<nat>)
    requires Originals(os) && k < |os| && 0 < off && lens != [] && off + Sum(lens) == |os[k].bytes| <= 65535
    requires forall i :: 0 <= i < |lens| ==> 0 < lens[i]
    ensures var o, n := os[k], lens[0]; var p := Piece(k, off, n, (0, 0));
            && Sendable(os, p) && off + n + Sum(lens[1..]) == |o.bytes|
            && Deliver(os, clockRate, Partial(o.bytes[..off], o.time, |o.bytes|), p) ==
               if lens[1..] == [] then Outcome(Idle, Ok([Frame(o.bytes, 0)]))
               else Outcome(Partial(o.bytes[..off + n], o.time, |o.bytes|), Ok([]))
  {
    hide Deliver, IsFrame, Originals, PiecesFrom, Continue;
    var o, n := os[k], lens[0];
    SumPositive(lens[1..]);
    PieceContinues(os, clockRate, Partial(o.bytes[..off], o.time, |o.bytes|), k, off, n);
    NextPiece(o, off, n);
  }

  lemma NextPiece(o: Original, off: nat, n: nat)
    requires 0 < off && 0 < n && off + n <= |o.bytes|
    ensures Continue(Partial(o.bytes[..off], o.time, |o.bytes|), o.bytes[off..off + n], off, o.time) ==
            if off + n == |o.bytes| then Outcome(Idle, Ok([Frame(o.bytes, 0)]))
            else Outcome(Partial(o.bytes[..off + n], o.time, |o.bytes|), Ok([]))
  {
    assert o.bytes[..off] + o.bytes[off..off + n] == o.bytes[..off + n];
    assert o.bytes[..|o.bytes|] == o.bytes;
  }

  lemma PieceContinues(os: seq<Original>, clockRate: nat, s: State, k: nat, off: nat, n: nat)
    requires Sendable(os, Piece(k, off, n, (0, 0))) && 0 < off
    ensures Deliver(os, clockRate, s, Piece(k, off, n, (0, 0))) == Continue(s, os[k].bytes[off..off + n], off, os[k].time)
  {
    hide Boundary, Continue, WithHeader;
  }

  lemma {:induction false} TailDelivered(os: seq<Original>, clockRate: nat, k: nat, off: nat, lens: seq<nat>)
    requires Originals(os) && k < |os| && 0 < off && lens != [] && off + Sum(lens) == |os[k].bytes| <= 65535
    requires forall i :: 0 <= i < |lens| ==> 0 < lens[i]
    ensures var ops := PiecesFrom(k, off, lens);
            var s := Partial(os[k].bytes[..off], os[k].time, |os[k].bytes|);
            && (forall i :: 0 <= i < |ops| ==> Sendable(os, ops[i]))
            && Returned(os, clockRate, s, ops) == [Frame(os[k].bytes, 0)]
            && After(os, clockRate, s, ops) == Idle
    decreases |lens|
  {
    hide Sendable, Originals, Deliver, IsFrame;
    PiecesSendable(os, k, off, lens);
    var ops := PiecesFrom(k, off, lens);
    var n := lens[0];
    PieceDelivered(os, clockRate, k, off, lens);
    if lens[1..] == [] {
      assert ops[1..] == [];
    } else {
      assert ops[1..] == PiecesFrom(k, off + n, lens[1..]);
      TailDelivered(os, clockRate, k, off + n, lens[1..]);
    }
  }

  lemma SumPositive(lens: seq<nat>)
    requires forall i :: 0 <= i < |lens| ==> 0 < lens[i]
    ensures lens != [] ==> 0 < Sum(lens)
  {
  }

  /** The first piece, which holds the header, starts the frame or is all of it. */
  lemma HeadDelivered(os: seq<Original>, clockRate: nat, s: State, k: nat, lens: seq<nat>)
    requires Originals(os) && k < |os| && Fragmentation(os[k], lens)
    ensures var o, n := os[k], lens[0]; var p := Piece(k, 0, n, (0, 0));
            && Sendable(os, p)
            && Deliver(os, clockRate, s, p) ==
               if lens[1..] == [] then Outcome(Idle, Ok([Frame(o.bytes, 0)]))
               else Outcome(Partial(o.bytes[..n], o.time, |o.bytes|), Ok([]))
  {
    hide M.Parse, WithHeader, WholeFrames, Continue;
    var o, n := os[k], lens[0];
    SumPositive(lens[1..]);
    HeadParses(o.bytes, n);
    if lens[1..] == [] {
      WholeAlone(clockRate, o.bytes);
      assert Sum(lens) == n + Sum(lens[1..]) == n;
      assert o.bytes[0..0 + n] == o.bytes;
    }
  }

  /** All the pieces of one frame in order return exactly that frame, from any state. */
  lemma FrameDelivered(os: seq<Original>, clockRate: nat, s: State, k: nat, lens: seq<nat>)
    requires Originals(os) && k < |os| && Fragmentation(os[k], lens)
    ensures var ops := PiecesFrom(k, 0, lens);
            && (forall i :: 0 <= i < |ops| ==> Sendable(os, ops[i]))
            && Returned(os, clockRate, s, ops) == [Frame(os[k].bytes, 0)]
            && After(os, clockRate, s, ops) == Idle
  {
    hide M.Parse, Deliver, Sendable, Originals, IsFrame;
    PiecesSendable(os, k, 0, lens);
    var ops := PiecesFrom(k, 0, lens);
    var n := lens[0];
    SumPositive(lens[1..]);
    HeadDelivered(os, clockRate, s, k, lens);
    assert ops[1..] == PiecesFrom(k, n, lens[1..]);
    if lens[1..] != [] {
      TailDelivered(os, clockRate, k, n, lens[1..]);
    }
  }

  lemma {:induction false} RunSplit(os: seq<Original>, clockRate: nat, s: State, a: seq<Op>, b: seq<Op>)
    requires forall i :: 0 <= i < |a| ==> Sendable(os, a[i])
    requires forall i :: 0 <= i < |b| ==> Sendable(os, b[i])
    ensures Returned(os, clockRate, s, a + b)
            == Returned(os, clockRate, s, a) + Returned(os, clockRate, After(os, clockRate, s, a), b)
    ensures After(os, clockRate, s, a + b) == After(os, clockRate, After(os, clockRate, s, a), b)
    decreases |a|
  {
    hide Deliver, Sendable;
    if a == [] {
      assert a + b == b;
    } else {
      assert (a + b)[1..] == a[1..] + b;
      RunSplit(os, clockRate, Deliver(os, clockRate, s, a[0]).state, a[1..], b);
    }
  }

  function AllPieces(lens: seq<seq<nat>>, k: nat): seq<Op>
    requires k <= |lens|
  {
    if k == 0 then [] else AllPieces(lens, k - 1) + PiecesFrom(k - 1, 0, lens[k - 1])
  }

  /** In-order lossless delivery of the first `k` frames returns exactly them, in order. */
  lemma {:induction false} LosslessDelivery(os: seq<Original>, clockRate: nat, s: State, lens: seq<seq<nat>>, k: nat)
    requires Originals(os) && |lens| == |os| && k <= |os|
    requires forall i :: 0 <= i < |os| ==> Fragmentation(os[i], lens[i])
    ensures var ops := AllPieces(lens, k);
            && (forall i :: 0 <= i < |ops| ==> Sendable(os, ops[i]))
            && |Returned(os, clockRate, s, ops)| == k
            && (forall i :: 0 <= i < k ==> Returned(os, clockRate, s, ops)[i] == Frame(os[i].bytes, 0))
  {
    hide Sendable, Originals, Fragmentation, Returned, After;
    if k == 0 {
      assert Returned(os, clockRate, s, []) == [] by { ReturnedEmpty(os, clockRate, s); }
    } else {
      LosslessDelivery(os, clockRate, s, lens, k - 1);
      var mid := After(os, clockRate, s, AllPieces(lens, k - 1));
      FrameDelivered(os, clockRate, mid, k - 1, lens[k - 1]);
      RunSplit(os, clockRate, s, AllPieces(lens, k - 1), PiecesFrom(k - 1, 0, lens[k - 1]));
    }
  }

  lemma ReturnedEmpty(os: seq<Original>, clockRate: nat, s: State)
    ensures Returned(os, clockRate, s, []) == []
  {
  }

  // ---- the depacketizer object ---------------------------------------------

  class Depacketizer {
    const clockRate: nat
    var frames: seq<Frame>
    var frag: seq<byte>
    var fragActive: bool
    var fragTime: nat
    var expectedLen: nat

    ghost function View(): State
      reads this
    {
      if fragActive then Partial(frag, fragTime, expectedLen) else Idle
    }

    constructor (clockRate: nat)
      ensures View() == Idle
      ensures this.clockRate == if clockRate == 0 then DefaultClockRate else clockRate
    {
      this.clockRate := if clockRate == 0 then DefaultClockRate else clockRate;
      frames, frag, fragActive, fragTime, expectedLen := [], [], false, 0, 0;
    }

    method Reset()
      modifies this
      ensures View() == Idle && frag == [] && expectedLen == 0
    {
      fragActive := false;
      frag := [];
      expectedLen := 0;
    }

    method Depacketize(payload: seq<byte>, rtpTime: nat) returns (r: Result)
      modifies this
      ensures Outcome(View(), r) == Process(clockRate, old(View()), payload, rtpTime)
    {
      if |payload| < HeaderLen {
        if fragActive {
          Reset();
        }
        return Err(ShortHeader);
      }
      var off := 256 * (payload[2] as int) + payload[3] as int;
      if off == 0 {
        r := StartBoundary(payload[HeaderLen..], rtpTime);
      } else {
        r := ContinueFragment(payload[HeaderLen..], off, rtpTime);
      }
    }

    method StartBoundary(data: seq<byte>, rtpTime: nat) returns (r: Result)
      modifies this
      ensures Outcome(View(), r) == Boundary(clockRate, data, rtpTime)
    {
      hide M.Parse, WholeFrames;
      if fragActive {
        Reset();
      }
      var out: seq<Frame> := [];
      var off, ticks: nat := 0, 0;
      while true
        invariant off <= |data| && View() == Idle
        invariant WholeFrames(clockRate, data, 0) == out + WholeFrames(clockRate, data[off..], ticks)
        invariant off == 0 ==> out == [] && ticks == 0
        invariant off > 0 ==> WholeFrameAt(data)
        decreases |data| - off
      {
        var rem := data[off..];
        assert off == 0 ==> rem == data;
        WholeFramesUnfold(clockRate, rem, ticks);
        if |rem| < M.HeaderLen {
          if off == 0 {
            return Err(InvalidFrame);
          }
          break;
        }
        var h := M.Parse(rem);
        if h == M.None {
          if off == 0 {
            return Err(InvalidFrame);
          }
          break;
        }
        if |rem| < h.value.frameLen {
          if off == 0 {
            BeginFragment(rem, rtpTime, h.value.frameLen);
            return Ok([]);
          }
          break;
        }
        out := out + [Frame(rem[..h.value.frameLen], if ticks < MaxRTPOffset then ticks else MaxRTPOffset)];
        ticks := ticks + h.value.samplesPerFrame * clockRate / h.value.sampleRate;
        off := off + h.value.frameLen;
        assert rem[h.value.frameLen..] == data[off..];
      }
      assert out + [] == out;
      frames := out;
      return Ok(frames);
    }

    method BeginFragment(data: seq<byte>, rtpTime: nat, frameLen: nat)
      modifies this
      ensures View() == Partial(data, rtpTime, frameLen)
    {
      frag := data;
      fragActive := true;
      fragTime := rtpTime;
      expectedLen := frameLen;
    }

    method ContinueFragment(data: seq<byte>, fragOffset: nat, rtpTime: nat) returns (r: Result)
      modifies this
      ensures Outcome(View(), r) == Continue(old(View()), data, fragOffset, rtpTime)
    {
      if !fragActive {
        return Err(OrphanFragment);
      }
      if rtpTime != fragTime || fragOffset != |frag| {
        Reset();
        return Err(OrphanFragment);
      }
      if |frag| + |data| > expectedLen {
        Reset();
        return Err(FrameOverflow);
      }
      frag := frag + data;
      if |frag| < expectedLen {
        return Ok([]);
      }
      fragActive := false;
      frames := [Frame(frag, 0)];
      return Ok(frames);
    }
  }
}
