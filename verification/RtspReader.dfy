/**
 The RTSP client's byte-stream reader: accumulate, classify, parse, resynchronise and
 compact.  `Absorb` is the reference: it frames a byte string as if all of it were
 there from the start.  The reader object, fed arbitrary chunks, is proved to do the same.
 */
module RtspReader {
  import opened Bits
  import opened RtspMessage

  const MaxReadBuffer: nat := MaxHeaderBytes + MaxBodySize
  const MaxResyncBytes: nat := 4096

  datatype Option<+T> = None | Some(value: T)

  datatype Cause =
    | FramingError(error: Error)
    | ResyncExceeded
    | ServerTeardown
    | WriteFailed
    | ConnectionClosed
    | BufferFull

  /** What the reader does with the bytes it takes off the stream. */
  datatype Event =
    | Discard(b: byte)
    | Dispatch(wire: text, unit: Unit, clears: bool)

  /**
   The world as the reader sees it.  Each answer may depend on everything dispatched and
   discarded so far: which channels the session has bound, whether a frame reached a
   track and parsed, and whether a reply to the server could be written.
   */
  datatype Env = Env(
    bound: (seq<Event>, byte) -> bool,
    usable: (seq<Event>, Unit) -> bool,
    replies: (seq<Event>, Unit) -> bool)

  /** Reader state apart from the buffer: the history, the resync counter and the terminal cause. */
  datatype State = State(log: seq<Event>, resync: nat, cause: Option<Cause>)

  const Start := State([], 0, None)

  // ---- one decision --------------------------------------------------------

  /** What begins at the front of the buffer. */
  datatype Decision =
    | NeedMore
    | Skip
    | Take(parsed: Parsed, gated: bool)
    | Fatal(error: Error)

  function OfParse(r: Result<Parsed>, resyncing: bool, gated: bool): Decision
  {
    match r
    case Ok(p) => Take(p, gated)
    case Err(e) =>
      if e == Incomplete then NeedMore
      else if resyncing then Skip
      else Fatal(e)
  }

  function Decide(env: Env, s: State, buf: text): (d: Decision)
    ensures d.Take? ==> 0 < d.parsed.n <= |buf|
    ensures d.Skip? ==> buf != []
  {
    var resyncing := s.resync > 0;
    match ClassifyStream(buf)
    case KindNeedMore => NeedMore
    case KindUnknown => Skip
    case KindResponse => OfParse(ParseResponse(buf), resyncing, false)
    case KindRequest => OfParse(ParseRequest(buf), resyncing, false)
    case KindInterleaved =>
      if !resyncing then OfParse(ParseInterleaved(buf), resyncing, false)
      else if |buf| < 2 then NeedMore
      else if !env.bound(s.log, buf[1]) then Skip
      else OfParse(ParseInterleaved(buf), resyncing, true)
  }

  predicate IsTeardown(verb: text)
  {
    Lower(verb) == Lower(Ascii("TEARDOWN"))
  }

  /** The terminal cause a dispatched unit brings about, if any. */
  function CauseOf(env: Env, s: State, u: Unit): Option<Cause>
  {
    if !u.Request? then None
    else if IsTeardown(u.verb) then Some(ServerTeardown)
    else if env.replies(s.log, u) then None
    else Some(WriteFailed)
  }

  /** A gate-admitted frame clears the resync budget only if it proved usable. */
  function Clears(env: Env, s: State, u: Unit, gated: bool): bool
  {
    !gated || env.usable(s.log, u)
  }

  function Discarded(s: State, b: byte): State
  {
    if s.resync + 1 > MaxResyncBytes then State(s.log, s.resync + 1, Some(ResyncExceeded))
    else State(s.log + [Discard(b)], s.resync + 1, None)
  }

  function Dispatched(env: Env, s: State, wire: text, u: Unit, gated: bool): State
  {
    var clears := Clears(env, s, u, gated);
    State(s.log + [Dispatch(wire, u, clears)], if clears then 0 else s.resync, CauseOf(env, s, u))
  }

  // ---- the reference -------------------------------------------------------

  datatype Absorbed = Absorbed(state: State, rest: text)

  /** Frames as much of `buf` as can be decided, stopping at a terminal condition. */
  function Absorb(env: Env, s: State, buf: text): (r: Absorbed)
    decreases |buf|
  {
    if s.cause.Some? then Absorbed(s, buf) else
      match Decide(env, s, buf)
      case NeedMore => Absorbed(s, buf)
      case Fatal(e) => Absorbed(s.(cause := Some(FramingError(e))), buf)
      case Skip =>
        var s' := Discarded(s, buf[0]);
        if s'.cause.Some? then Absorbed(s', buf) else Absorb(env, s', buf[1..])
      case Take(p, gated) => Absorb(env, Dispatched(env, s, buf[..p.n], p.unit, gated), buf[p.n..])
  }

  function Concat(chunks: seq<text>): text
  {
    if chunks == [] then [] else chunks[0] + Concat(chunks[1..])
  }

  /** The stream as it arrives: frame what is there, read more, until closed or out of input. */
  function Session(env: Env, s: State, buf: text, chunks: seq<text>): Absorbed
    decreases |chunks|
  {
    var a := Absorb(env, s, buf);
    if a.state.cause.Some? then a
    else if |a.rest| >= MaxReadBuffer then Absorbed(a.state.(cause := Some(BufferFull)), a.rest)
    else if chunks == [] then Absorbed(a.state.(cause := Some(ConnectionClosed)), a.rest)
    else Session(env, a.state, a.rest + chunks[0], chunks[1..])
  }

  // ---- decisions do not change when more bytes arrive ----------------------

  lemma DecideStable(env: Env, s: State, b: text, more: text)
    requires Decide(env, s, b) != NeedMore
    ensures Decide(env, s, b + more) == Decide(env, s, b)
  {
    hide ParseMessage, ParseInterleaved, ClassifyStream;
    ClassifyStable(b, more) by { assert ClassifyStream(b) != KindNeedMore; }
    match ClassifyStream(b)
    case KindNeedMore =>
    case KindUnknown =>
    case KindResponse => MessageStable(DeclaredResponse, b, more);
    case KindRequest => MessageStable(DeclaredRequest, b, more);
    case KindInterleaved =>
      assert b != [] by { InterleavedNotEmpty(b); }
      if s.resync > 0 {
        assert |b| >= 2 && (b + more)[1] == b[1];
      }
      if s.resync == 0 || env.bound(s.log, b[1]) {
        InterleavedStable(b, more);
      }
  }

  lemma InterleavedNotEmpty(b: text)
    requires ClassifyStream(b) == KindInterleaved
    ensures b != []
  {
  }

  /** Framing a prefix first and the remainder with the new bytes later is framing the whole. */
  lemma {:induction false} AbsorbSplit(env: Env, s: State, b: text, more: text)
    ensures var a := Absorb(env, s, b);
            Absorb(env, s, b + more)
            == if a.state.cause.Some? then Absorbed(a.state, a.rest + more)
               else Absorb(env, a.state, a.rest + more)
    decreases |b|
  {
    hide Decide, Dispatched, Discarded;
    if s.cause.None? && Decide(env, s, b) != NeedMore {
      DecideStable(env, s, b, more);
      match Decide(env, s, b)
      case Fatal(e) =>
      case Skip =>
        var s' := Discarded(s, b[0]);
        assert (b + more)[0] == b[0] && (b + more)[1..] == b[1..] + more;
        if s'.cause.None? {
          AbsorbSplit(env, s', b[1..], more);
        }
      case Take(p, gated) =>
        assert (b + more)[..p.n] == b[..p.n] && (b + more)[p.n..] == b[p.n..] + more;
        AbsorbSplit(env, Dispatched(env, s, b[..p.n], p.unit, gated), b[p.n..], more);
    }
  }

  /** Everything absorbable has been absorbed: the remainder decides nothing. */
  lemma {:induction false} AbsorbEndsUndecided(env: Env, s: State, b: text)
    ensures var a := Absorb(env, s, b); a.state.cause.None? ==> Decide(env, a.state, a.rest) == NeedMore
    decreases |b|
  {
    hide Dispatched, Discarded;
    if s.cause.None? {
      match Decide(env, s, b)
      case NeedMore =>
      case Fatal(e) =>
      case Skip => AbsorbEndsUndecided(env, Discarded(s, b[0]), b[1..]);
      case Take(p, gated) => AbsorbEndsUndecided(env, Dispatched(env, s, b[..p.n], p.unit, gated), b[p.n..]);
    }
  }

  /** An undecided buffer is shorter than the ceiling, whatever the peer sent. */
  lemma UndecidedIsShort(env: Env, s: State, b: text)
    requires Decide(env, s, b) == NeedMore
    ensures |b| < MaxReadBuffer
  {
    hide ParseMessage, ParseInterleaved;
    match ClassifyStream(b)
    case KindNeedMore =>
    case KindUnknown =>
    case KindResponse => IncompleteMessageIsShort(DeclaredResponse, b);
    case KindRequest => IncompleteMessageIsShort(DeclaredRequest, b);
    case KindInterleaved =>
      if |b| >= 2 {
        IncompleteFrameIsShort(b);
      }
  }

  // ---- chunk independence --------------------------------------------------

  /** The final state of a session, up to the end-of-input cause the reader adds. */
  function AtEnd(a: Absorbed): State
  {
    if a.state.cause.Some? then a.state else a.state.(cause := Some(ConnectionClosed))
  }

  /**
   Framing does not depend on how the stream was cut into chunks: on any bytes at all, the
   session ends in the state that framing the whole concatenation ends in.
   */
  lemma {:induction false} SessionIsAbsorb(env: Env, s: State, buf: text, chunks: seq<text>)
    ensures Session(env, s, buf, chunks).state == AtEnd(Absorb(env, s, buf + Concat(chunks)))
    decreases |chunks|
  {
    hide Absorb;
    var a := Absorb(env, s, buf);
    AbsorbSplit(env, s, buf, Concat(chunks));
    if a.state.cause.None? {
      AbsorbEndsUndecided(env, s, buf);
      UndecidedIsShort(env, a.state, a.rest);
      if chunks == [] {
        assert buf + [] == buf;
      } else {
        SessionIsAbsorb(env, a.state, a.rest + chunks[0], chunks[1..]);
        assert a.rest + Concat(chunks) == (a.rest + chunks[0]) + Concat(chunks[1..]);
      }
    }
  }

  lemma ChunkIndependence(env: Env, chunks1: seq<text>, chunks2: seq<text>)
    requires Concat(chunks1) == Concat(chunks2)
    ensures Session(env, Start, [], chunks1).state == Session(env, Start, [], chunks2).state
  {
    SessionIsAbsorb(env, Start, [], chunks1);
    SessionIsAbsorb(env, Start, [], chunks2);
  }

  /** The buffer ceiling is never the reason a session ends. */
  lemma BufferNeverFull(env: Env, chunks: seq<text>)
    ensures Session(env, Start, [], chunks).state.cause.Some?
    ensures Session(env, Start, [], chunks).state.cause != Some(BufferFull)
  {
    SessionIsAbsorb(env, Start, [], chunks);
    AbsorbNeverFull(env, Start, [] + Concat(chunks));
  }

  lemma {:induction false} AbsorbNeverFull(env: Env, s: State, b: text)
    requires s.cause != Some(BufferFull)
    ensures Absorb(env, s, b).state.cause != Some(BufferFull)
    decreases |b|
  {
    if s.cause.None? {
      match Decide(env, s, b)
      case NeedMore =>
      case Fatal(e) =>
      case Skip => AbsorbNeverFull(env, Discarded(s, b[0]), b[1..]);
      case Take(p, gated) => AbsorbNeverFull(env, Dispatched(env, s, b[..p.n], p.unit, gated), b[p.n..]);
    }
  }

  // ---- conservation and the resync budget ----------------------------------

  /** The bytes a history took off the stream. */
  function BytesOf(log: seq<Event>): text
  {
    if log == [] then [] else
      BytesOf(log[..|log| - 1]) + (match log[|log| - 1] case Discard(b) => [b] case Dispatch(w, _, _) => w)
  }

  /** Single-byte discards since the last unit that cleared the budget. */
  function DiscardsSinceClear(log: seq<Event>): nat
  {
    if log == [] then 0 else
      var before := DiscardsSinceClear(log[..|log| - 1]);
      match log[|log| - 1]
      case Discard(_) => before + 1
      case Dispatch(_, _, clears) => if clears then 0 else before
  }

  /** The resync counter is the discards since the last clear, and is over budget only when fatal. */
  predicate Counted(s: State)
  {
    if s.cause == Some(ResyncExceeded) then s.resync == MaxResyncBytes + 1 == DiscardsSinceClear(s.log) + 1
    else s.resync == DiscardsSinceClear(s.log) <= MaxResyncBytes
  }

  lemma LogEmpty()
    ensures BytesOf([]) == [] && DiscardsSinceClear([]) == 0
  {
  }

  lemma LogSnoc(log: seq<Event>, e: Event)
    ensures BytesOf(log + [e]) == BytesOf(log) + (match e case Discard(b) => [b] case Dispatch(w, _, _) => w)
    ensures DiscardsSinceClear(log + [e]) == match e
                                             case Discard(_) => DiscardsSinceClear(log) + 1
                                             case Dispatch(_, _, clears) => if clears then 0 else DiscardsSinceClear(log)
  {
    assert (log + [e])[..|log|] == log;
  }

  lemma DiscardConserves(s: State, b: byte)
    requires Counted(s) && s.cause.None?
    ensures var s' := Discarded(s, b);
            Counted(s') && BytesOf(s'.log) == if s'.cause.Some? then BytesOf(s.log) else BytesOf(s.log) + [b]
  {
    LogSnoc(s.log, Discard(b));
  }

  lemma DispatchConserves(env: Env, s: State, w: text, u: Unit, gated: bool)
    requires Counted(s) && s.cause.None?
    ensures var s' := Dispatched(env, s, w, u, gated); Counted(s') && BytesOf(s'.log) == BytesOf(s.log) + w
  {
    LogSnoc(s.log, Dispatch(w, u, Clears(env, s, u, gated)));
  }

  /**
   No byte is lost, duplicated or reordered: what was dispatched and discarded, in order,
   followed by what is left, is the input.  And the resync counter is exact throughout.
   */
  lemma {:induction false} AbsorbConserves(env: Env, s: State, b: text)
    requires Counted(s)
    ensures var a := Absorb(env, s, b);
            BytesOf(a.state.log) + a.rest == BytesOf(s.log) + b && Counted(a.state)
    decreases |b|
  {
    hide Decide, Discarded, Dispatched, BytesOf, DiscardsSinceClear;
    if s.cause.None? {
      match Decide(env, s, b)
      case NeedMore =>
      case Fatal(e) =>
      case Skip =>
        DiscardConserves(s, b[0]);
        if Discarded(s, b[0]).cause.None? {
          assert [b[0]] == b[..1];
          Rejoins(BytesOf(s.log), b, 1);
          AbsorbConserves(env, Discarded(s, b[0]), b[1..]);
        }
      case Take(p, gated) =>
        DispatchConserves(env, s, b[..p.n], p.unit, gated);
        Rejoins(BytesOf(s.log), b, p.n);
        AbsorbConserves(env, Dispatched(env, s, b[..p.n], p.unit, gated), b[p.n..]);
    }
  }

  lemma Rejoins(front: text, b: text, n: nat)
    requires n <= |b|
    ensures front + b[..n] + b[n..] == front + b
  {
    assert b == b[..n] + b[n..];
  }

  lemma SessionConserves(env: Env, chunks: seq<text>)
    ensures var s := Session(env, Start, [], chunks).state;
            && BytesOf(s.log) <= Concat(chunks)
            && Counted(s)
            && (s.resync > MaxResyncBytes ==> s.cause == Some(ResyncExceeded))
  {
    hide Absorb, Session, BytesOf, DiscardsSinceClear;
    assert BytesOf([]) == [] && DiscardsSinceClear([]) == 0 by { LogEmpty(); }
    var all := [] + Concat(chunks);
    SessionIsAbsorb(env, Start, [], chunks);
    AbsorbConserves(env, Start, all);
    var a := Absorb(env, Start, all);
    assert Concat(chunks) == all == BytesOf(a.state.log) + a.rest;
  }

  // ---- well-formed streams -------------------------------------------------

  /** A unit and its exact wire form: what the matching parser reads from those bytes alone. */
  predicate WellFormed(wire: text, u: Unit)
  {
    wire != [] && match ClassifyStream(wire)
                  case KindInterleaved => ParseInterleaved(wire) == Ok(Parsed(u, |wire|))
                  case KindResponse => ParseResponse(wire) == Ok(Parsed(u, |wire|))
                  case KindRequest => ParseRequest(wire) == Ok(Parsed(u, |wire|)) && u.Request? && !IsTeardown(u.verb)
                  case _ => false
  }

  datatype Item = Item(wire: text, unit: Unit)

  function Wire(items: seq<Item>): text
  {
    if items == [] then [] else items[0].wire + Wire(items[1..])
  }

  function Events(items: seq<Item>): seq<Event>
  {
    if items == [] then [] else [Dispatch(items[0].wire, items[0].unit, true)] + Events(items[1..])
  }

  lemma DecideWellFormed(env: Env, s: State, w: text, u: Unit, rest: text)
    requires s.resync == 0 && WellFormed(w, u)
    ensures Decide(env, s, w + rest) == Take(Parsed(u, |w|), false)
    ensures u.Request? ==> !IsTeardown(u.verb)
  {
    hide ParseMessage, ParseInterleaved, ClassifyStream, DeclaredResponse, DeclaredRequest, IsTeardown;
    DecideStable(env, s, w, rest);
    MessageKinds(w);
  }

  /** The response parser yields responses and the frame parser frames. */
  lemma MessageKinds(w: text)
    ensures ParseResponse(w).Ok? ==> ParseResponse(w).value.unit.Response?
    ensures ParseInterleaved(w).Ok? ==> ParseInterleaved(w).value.unit.Frame?
  {
    hide FindHead, DeclaredResponse;
  }

  lemma AbsorbNothing(env: Env, s: State)
    ensures Absorb(env, s, []) == Absorbed(s, [])
  {
    hide Decide;
    NothingToDecide(env, s);
  }

  lemma AbsorbTake(env: Env, s: State, buf: text, p: Parsed)
    requires s.cause.None? && Decide(env, s, buf) == Take(p, false)
    ensures p.n <= |buf| && Absorb(env, s, buf) == Absorb(env, Dispatched(env, s, buf[..p.n], p.unit, false), buf[p.n..])
  {
    hide Decide, Dispatched;
  }

  /** One well-formed unit in front is dispatched, and the rest is absorbed from there. */
  lemma AbsorbOne(env: Env, s: State, w: text, u: Unit, rest: text)
    requires s.resync == 0 && s.cause.None? && WellFormed(w, u) && (forall log, v :: env.replies(log, v))
    ensures Absorb(env, s, w + rest) == Absorb(env, State(s.log + [Dispatch(w, u, true)], 0, None), rest)
  {
    DecideWellFormed(env, s, w, u, rest);
    hide Decide, WellFormed, Absorb, IsTeardown;
    AbsorbTake(env, s, w + rest, Parsed(u, |w|));
    assert (w + rest)[..|w|] == w && (w + rest)[|w|..] == rest;
  }

  lemma {:induction false} AbsorbWellFormed(env: Env, s: State, items: seq<Item>)
    requires s.resync == 0 && s.cause.None?
    requires forall i :: 0 <= i < |items| ==> WellFormed(items[i].wire, items[i].unit)
    requires forall log, u :: env.replies(log, u)
    ensures Absorb(env, s, Wire(items)) == Absorbed(State(s.log + Events(items), 0, None), [])
    decreases |items|
  {
    hide WellFormed, Absorb;
    if items == [] {
      AbsorbNothing(env, s);
      assert s.log + [] == s.log;
    } else {
      var w, u := items[0].wire, items[0].unit;
      AbsorbOne(env, s, w, u, Wire(items[1..]));
      AbsorbWellFormed(env, State(s.log + [Dispatch(w, u, true)], 0, None), items[1..]);
      assert s.log + [Dispatch(w, u, true)] + Events(items[1..]) == s.log + Events(items);
    }
  }

  lemma NothingToDecide(env: Env, s: State)
    ensures Decide(env, s, []) == NeedMore
  {
  }

  /** Every frame the marshaller writes is well formed. */
  lemma MarshalledFrameIsWellFormed(channel: byte, payload: text)
    requires |payload| <= MaxInterleavedFrame
    ensures WellFormed(MarshalInterleaved(channel, payload).value, Frame(channel, payload))
  {
    var w := MarshalInterleaved(channel, payload).value;
    InterleavedRoundTrip(channel, payload, []);
    assert w + [] == w;
  }

  /** A head with no blank line of its own, CR LF CR LF, and the declared body parse as one message. */
  lemma MessageParses(declared: text -> Result<Declared>, head: text, body: text)
    requires forall h :: declared(h).Ok? ==> !declared(h).value.unit.Frame?
    requires |head| + 4 <= MaxHeaderBytes
    requires forall i: nat :: i < |head| + 3 ==> !Terminator(head + [CR, LF, CR, LF], i)
    requires !BareTerminator(head + [CR, LF, CR, LF], |head| + 3)
    requires declared(head).Ok? && declared(head).value.bodyLen == |body|
    ensures ParseMessage(declared, head + [CR, LF, CR, LF] + body)
            == Ok(Parsed(WithBody(declared(head).value.unit, body), |head| + 4 + |body|))
  {
    var front := head + [CR, LF, CR, LF];
    var buf := front + body;
    HeadFound(head, body);
    hide FindHead;
    assert buf[..|head|] == head && buf[|head| + 4..|head| + 4 + |body|] == body;
  }

  lemma HeadFound(head: text, body: text)
    requires |head| + 4 <= MaxHeaderBytes
    requires forall i: nat :: i < |head| + 3 ==> !Terminator(head + [CR, LF, CR, LF], i)
    requires !BareTerminator(head + [CR, LF, CR, LF], |head| + 3)
    ensures FindHead(head + [CR, LF, CR, LF] + body) == Ok(Extent(|head|, |head| + 4))
  {
    var front := head + [CR, LF, CR, LF];
    var buf := front + body;
    assert CrlfTerminator(front, |head| + 3);
    hide ScanHead, CrlfTerminator, BareTerminator;
    ScanFinds(front, 0, |head| + 3);
    ScanHeadStable(front, body, 0, |front|, if |buf| < MaxHeaderBytes then |buf| else MaxHeaderBytes);
  }

  lemma {:induction false} ScanFinds(buf: text, i: nat, j: nat)
    requires i <= j < |buf| <= MaxHeaderBytes && Terminator(buf, j)
    requires forall k: nat :: i <= k < j ==> !Terminator(buf, k)
    ensures ScanHead(buf, i, |buf|) == Ok(ExtentAt(buf, j))
    decreases j - i
  {
    if i < j {
      ScanFinds(buf, i + 1, j);
    }
  }

  /** Well-formed units, cut into reads anywhere, are dispatched exactly, in order, with no resync. */
  lemma WellFormedStream(env: Env, items: seq<Item>, chunks: seq<text>)
    requires forall i :: 0 <= i < |items| ==> WellFormed(items[i].wire, items[i].unit)
    requires forall log, u :: env.replies(log, u)
    requires Concat(chunks) == Wire(items)
    ensures Session(env, Start, [], chunks).state == State(Events(items), 0, Some(ConnectionClosed))
  {
    SessionIsAbsorb(env, Start, [], chunks);
    AbsorbWellFormed(env, Start, items);
    assert [] + Concat(chunks) == Wire(items);
    assert [] + Events(items) == Events(items);
  }

  // ---- one iteration of the reference --------------------------------------

  lemma SessionClosed(env: Env, s: State, buf: text, chunks: seq<text>)
    requires s.cause.Some?
    ensures Session(env, s, buf, chunks) == Absorbed(s, buf)
  {
  }

  lemma SessionFill(env: Env, s: State, buf: text, chunks: seq<text>)
    requires s.cause.None? && Decide(env, s, buf) == NeedMore
    ensures Session(env, s, buf, chunks)
            == if |buf| >= MaxReadBuffer then Absorbed(s.(cause := Some(BufferFull)), buf)
               else if chunks == [] then Absorbed(s.(cause := Some(ConnectionClosed)), buf)
               else Session(env, s, buf + chunks[0], chunks[1..])
  {
    hide Decide;
  }

  lemma SessionFatal(env: Env, s: State, buf: text, chunks: seq<text>, e: Error)
    requires s.cause.None? && Decide(env, s, buf) == Fatal(e)
    ensures Session(env, s, buf, chunks) == Absorbed(s.(cause := Some(FramingError(e))), buf)
  {
    hide Decide;
  }

  lemma SessionSkip(env: Env, s: State, buf: text, chunks: seq<text>)
    requires s.cause.None? && Decide(env, s, buf) == Skip
    ensures var s' := Discarded(s, buf[0]);
            Session(env, s, buf, chunks) == Session(env, s', if s'.cause.Some? then buf else buf[1..], chunks)
  {
    hide Decide;
  }

  lemma SessionTake(env: Env, s: State, buf: text, chunks: seq<text>, p: Parsed, gated: bool)
    requires s.cause.None? && Decide(env, s, buf) == Take(p, gated)
    ensures Session(env, s, buf, chunks)
            == Session(env, Dispatched(env, s, buf[..p.n], p.unit, gated), buf[p.n..], chunks)
  {
    hide Decide, Dispatched;
  }

  // ---- the reader object ---------------------------------------------------

  /** The session's read loop, with the socket as the sequence of reads still to come. */
  class Reader {
    const env: Env
    var rbuf: text
    var start: nat
    var resync: nat
    var cause: Option<Cause>
    var log: seq<Event>
    var chunks: seq<text>

    ghost predicate Valid()
      reads this
    {
      start <= |rbuf|
    }

    ghost function View(): State
      reads this
    {
      State(log, resync, cause)
    }

    ghost function Pending(): text
      requires Valid()
      reads this
    {
      rbuf[start..]
    }

    constructor (env: Env, chunks: seq<text>)
      ensures Valid() && View() == Start && Pending() == []
      ensures this.env == env && this.chunks == chunks
    {
      this.env := env;
      this.chunks := chunks;
      rbuf, start, resync, cause, log := [], 0, 0, None, [];
    }

    /** Discards one leading byte, within the budget. */
    method ResyncOne()
      requires Valid() && Pending() != [] && cause.None?
      modifies this`resync, this`cause, this`start, this`log
      ensures Valid()
      ensures View() == Discarded(old(View()), old(Pending()[0]))
      ensures Pending() == if cause.Some? then old(Pending()) else old(Pending())[1..]
    {
      resync := resync + 1;
      if resync > MaxResyncBytes {
        cause := Some(ResyncExceeded);
        return;
      }
      log := log + [Discard(rbuf[start])];
      start := start + 1;
    }

    /** Compacts the consumed prefix, enforces the ceiling and performs one read. */
    method Fill()
      requires Valid() && cause.None?
      modifies this`rbuf, this`start, this`cause, this`chunks
      ensures Valid() && start == 0
      ensures cause == if |old(Pending())| >= MaxReadBuffer then Some(BufferFull)
                       else if old(chunks) == [] then Some(ConnectionClosed)
                       else None
      ensures cause.Some? ==> Pending() == old(Pending()) && chunks == old(chunks)
      ensures cause.None? ==> Pending() == old(Pending()) + old(chunks)[0] && chunks == old(chunks)[1..]
    {
      if start > 0 {
        rbuf := rbuf[start..];
        start := 0;
      }
      if |rbuf| >= MaxReadBuffer {
        cause := Some(BufferFull);
      } else if chunks == [] {
        cause := Some(ConnectionClosed);
      } else {
        rbuf := rbuf + chunks[0];
        chunks := chunks[1..];
      }
    }

    /** Accepts a parsed unit: hand it over, advance, and clear the budget if it re-locked the stream. */
    method Accept(p: Parsed, gated: bool)
      requires Valid() && cause.None? && 0 < p.n <= |Pending()|
      modifies this`start, this`resync, this`cause, this`log
      ensures Valid()
      ensures View() == Dispatched(env, old(View()), old(Pending())[..p.n], p.unit, gated)
      ensures Pending() == old(Pending())[p.n..]
    {
      var usable := env.usable(log, p.unit);
      assert rbuf[start..start + p.n] == Pending()[..p.n];
      if p.unit.Request? {
        if IsTeardown(p.unit.verb) {
          cause := Some(ServerTeardown);
        } else if !env.replies(log, p.unit) {
          cause := Some(WriteFailed);
        }
      }
      log := log + [Dispatch(rbuf[start..start + p.n], p.unit, !gated || usable)];
      start := start + p.n;
      if !gated || usable {
        resync := 0;
      }
    }

    /** Runs one parser's verdict: accept, fill, resynchronise or fail. */
    method Consume(r: Result<Parsed>, gated: bool)
      requires Valid() && cause.None? && Pending() != []
      requires Decide(env, View(), Pending()) == OfParse(r, resync > 0, gated)
      modifies this`rbuf, this`start, this`resync, this`cause, this`log, this`chunks
      ensures Valid()
      ensures Session(env, old(View()), old(Pending()), old(chunks)) == Session(env, View(), Pending(), chunks)
      ensures cause.Some? || |chunks| < |old(chunks)| || (chunks == old(chunks) && |Pending()| < |old(Pending())|)
    {
      hide Decide, Session, Discarded, Dispatched;
      ghost var s, buf, chunks0 := View(), Pending(), chunks;
      if r.Ok? {
        SessionTake(env, s, buf, chunks0, r.value, gated);
        Accept(r.value, gated);
      } else if r.error == Incomplete {
        FillOrClose();
      } else if resync > 0 {
        SkipOne();
      } else {
        SessionFatal(env, s, buf, chunks0, r.error);
        cause := Some(FramingError(r.error));
        SessionClosed(env, View(), Pending(), chunks);
      }
    }

    method FillOrClose()
      requires Valid() && cause.None? && Decide(env, View(), Pending()) == NeedMore
      modifies this`rbuf, this`start, this`cause, this`chunks
      ensures Valid()
      ensures Session(env, old(View()), old(Pending()), old(chunks)) == Session(env, View(), Pending(), chunks)
      ensures cause.Some? || |chunks| < |old(chunks)|
    {
      hide Decide, Session;
      SessionFill(env, View(), Pending(), chunks);
      Fill();
      if cause.Some? {
        SessionClosed(env, View(), Pending(), chunks);
      }
    }

    method SkipOne()
      requires Valid() && cause.None? && Decide(env, View(), Pending()) == Skip
      modifies this`resync, this`cause, this`start, this`log
      ensures Valid()
      ensures Session(env, old(View()), old(Pending()), chunks) == Session(env, View(), Pending(), chunks)
      ensures cause.Some? || |Pending()| < |old(Pending())|
    {
      hide Decide, Session;
      SessionSkip(env, View(), Pending(), chunks);
      ResyncOne();
    }

    /**
     The framing loop.  It always ends, and in exactly the state of the reference session
     over the same reads, with the unconsumed bytes still in the buffer.
     */
    method ReadLoop()
      requires Valid()
      modifies this`rbuf, this`start, this`resync, this`cause, this`log, this`chunks
      ensures Valid()
      ensures Session(env, old(View()), old(Pending()), old(chunks)) == Absorbed(View(), Pending())
    {
      hide Session, ParseMessage, ParseInterleaved, ParseResponse, ParseRequest;
      while cause.None?
        invariant Valid()
        invariant Session(env, old(View()), old(Pending()), old(chunks)) == Session(env, View(), Pending(), chunks)
        decreases cause.None?, |chunks|, |Pending()|
      {
        var buf := rbuf[start..];
        match ClassifyStream(buf)
        case KindNeedMore => FillOrClose();
        case KindUnknown => SkipOne();
        case KindResponse => Consume(ParseResponse(buf), false);
        case KindRequest => Consume(ParseRequest(buf), false);
        case KindInterleaved =>
          if resync == 0 {
            Consume(ParseInterleaved(buf), false);
          } else if |buf| < 2 {
            FillOrClose();
          } else if env.bound(log, buf[1]) {
            Consume(ParseInterleaved(buf), true);
          } else {
            SkipOne();
          }
      }
      SessionClosed(env, View(), Pending(), chunks);
    }
  }
}
