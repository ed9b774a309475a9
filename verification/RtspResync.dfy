/**
 Losing and finding the framing again: what the stream reader does with bytes that are no unit, between
 units as a server writes them.
 */
module RtspResync {
  import opened Bits
  import opened RtspMessage
  import opened RtspWriter
  import opened RtspReader

  // ---- what is stray -------------------------------------------------------

  /** No media, and neither a response nor a request begins here. */
  predicate Foreign(buf: text)
  {
    |buf| >= 2 && buf[0] != Dollar && buf[..2] != Ascii("RT") && buf[..2] !in RequestPrefixes
  }

  /** A frame of a channel nobody bound. */
  predicate Unbound(channels: set<byte>, buf: text)
  {
    |buf| >= 2 && buf[0] == Dollar && buf[1] !in channels
  }

  /** It looks like a message, and is none whatever follows. */
  predicate Mistaken(buf: text)
  {
    && |buf| >= 2
    && ((buf[..2] == Ascii("RT") && ParseResponse(buf).Err? && ParseResponse(buf).error != Incomplete)
        || (buf[..2] in RequestPrefixes && ParseRequest(buf).Err? && ParseRequest(buf).error != Incomplete))
  }

  /** Is the byte at the front passed over? While searching, more is than at a unit boundary. */
  predicate Stray(channels: set<byte>, searching: bool, buf: text)
  {
    Foreign(buf) || (searching && (Unbound(channels, buf) || Mistaken(buf)))
  }

  /** The channels bound are `channels`, throughout. */
  ghost predicate Binds(env: Env, channels: set<byte>)
  {
    forall log, ch :: env.bound(log, ch) <==> ch in channels
  }

  lemma StrayIsSkipped(env: Env, s: State, channels: set<byte>, buf: text)
    requires Binds(env, channels) && Stray(channels, s.resync > 0, buf)
    ensures Decide(env, s, buf) == Skip
  {
    hide ParseResponse, ParseRequest;
    TwoStarts();
    if Foreign(buf) {
      assert ClassifyStream(buf) == KindUnknown;
    } else if Unbound(channels, buf) {
      assert ClassifyStream(buf) == KindInterleaved;
    } else if buf[..2] == Ascii("RT") {
      assert ClassifyStream(buf) == KindResponse;
    } else {
      assert buf[0] != Dollar by { NoDollar(buf); }
      assert ClassifyStream(buf) == KindRequest;
    }
  }

  lemma TwoStarts()
    ensures Ascii("RT") !in RequestPrefixes && |Ascii("RT")| == 2 && Ascii("RT")[0] != Dollar
  {
    assert Ascii("RT")[0] == 82 && Ascii("RT")[1] == 84;
    assert Ascii("RE")[1] == 69;
  }

  lemma NoDollar(buf: text)
    requires |buf| >= 2 && buf[..2] in RequestPrefixes
    ensures buf[0] != Dollar
  {
    assert buf[..2][0] == buf[0];
  }

  // ---- skipping ------------------------------------------------------------

  function Discards(g: text): (r: seq<Event>)
    ensures |r| == |g|
  {
    seq(|g|, i requires 0 <= i < |g| => Discard(g[i]))
  }

  predicate AllStray(channels: set<byte>, resync: nat, g: text, rest: text)
  {
    forall i: nat :: i < |g| ==> Stray(channels, resync + i > 0, (g + rest)[i..])
  }

  lemma StrayTail(channels: set<byte>, resync: nat, g: text, rest: text)
    requires AllStray(channels, resync, g, rest) && g != []
    ensures Stray(channels, resync > 0, g + rest) && AllStray(channels, resync + 1, g[1..], rest)
  {
    hide Stray;
    assert (g + rest)[0..] == g + rest;
    forall i: nat | i < |g[1..]|
      ensures Stray(channels, resync + 1 + i > 0, (g[1..] + rest)[i..])
    {
      assert (g[1..] + rest)[i..] == (g + rest)[i + 1..];
    }
  }

  lemma SkipOne(env: Env, s: State, buf: text)
    requires s.cause.None? && Decide(env, s, buf) == Skip && s.resync < MaxResyncBytes
    ensures Absorb(env, s, buf) == Absorb(env, State(s.log + [Discard(buf[0])], s.resync + 1, None), buf[1..])
  {
    hide Decide;
  }

  /** Stray bytes within the budget are discarded one by one and counted, and what follows is read on. */
  lemma {:induction false} StraySkipped(env: Env, s: State, channels: set<byte>, g: text, rest: text)
    requires s.cause.None? && Binds(env, channels) && s.resync + |g| <= MaxResyncBytes
    requires AllStray(channels, s.resync, g, rest)
    ensures Absorb(env, s, g + rest) == Absorb(env, State(s.log + Discards(g), s.resync + |g|, None), rest)
    decreases |g|
  {
    hide Absorb, Decide, AllStray, Stray, Binds;
    if g == [] {
      assert g + rest == rest && s.log + Discards(g) == s.log;
    } else {
      StrayTail(channels, s.resync, g, rest);
      StrayIsSkipped(env, s, channels, g + rest);
      SkipOne(env, s, g + rest);
      assert (g + rest)[1..] == g[1..] + rest && (g + rest)[0] == g[0];
      var t := State(s.log + [Discard(g[0])], s.resync + 1, None);
      StraySkipped(env, t, channels, g[1..], rest);
      assert s.log + [Discard(g[0])] + Discards(g[1..]) == s.log + Discards(g);
    }
  }

  /** One stray byte over the budget ends the session, the bytes before it discarded. */
  lemma BudgetEnds(env: Env, s: State, channels: set<byte>, g: text, rest: text)
    requires s.cause.None? && Binds(env, channels) && s.resync + |g| == MaxResyncBytes
    requires AllStray(channels, s.resync, g, rest) && Stray(channels, MaxResyncBytes > 0, rest)
    ensures Absorb(env, s, g + rest).state == State(s.log + Discards(g), MaxResyncBytes + 1, Some(ResyncExceeded))
  {
    StraySkipped(env, s, channels, g, rest);
    var t := State(s.log + Discards(g), MaxResyncBytes, None);
    StrayIsSkipped(env, t, channels, rest);
    hide Decide, AllStray, Stray, Binds;
  }

  // ---- finding a unit ------------------------------------------------------

  /** Is a unit held to more than its framing: media, while searching? */
  predicate Gated(s: State, x: Sent) { s.resync > 0 && x.Media? }

  lemma UnitIsTaken(env: Env, s: State, channels: set<byte>, x: Sent, rest: text)
    requires Binds(env, channels) && Sendable(x) && (Gated(s, x) ==> x.channel in channels)
    ensures Decide(env, s, WireOf(x) + rest) == Take(Parsed(UnitOf(x), |WireOf(x)|), Gated(s, x))
  {
    hide MarshalResponse, MarshalRequest, Admitted, ParseResponse, ParseRequest, HeaderOf, AllFields, StatusText,
        RequestText, Recognised;
    match x
    case Media(channel, payload) =>
      InterleavedRoundTrip(channel, payload, rest);
      var w := WireOf(x) + rest;
      assert w[0] == Dollar && w[1] == channel;
    case Answer(code, reason, cseq, fs, body) =>
      ResponseReadsBack(code, reason, cseq, fs, body, rest);
    case Ask(verb, url, cseq, fs, body) =>
      RequestRoundTrip(verb, url, cseq, fs, body, rest);
  }

  /** The state behind a unit: the budget is cleared unless the unit was gated and proved unusable. */
  function AfterUnit(env: Env, s: State, x: Sent): State
    requires Sendable(x)
  {
    var clears := !Gated(s, x) || env.usable(s.log, UnitOf(x));
    State(s.log + [Dispatch(WireOf(x), UnitOf(x), clears)], if clears then 0 else s.resync, None)
  }

  lemma UnitAbsorbed(env: Env, s: State, channels: set<byte>, x: Sent, rest: text)
    requires s.cause.None? && Binds(env, channels) && Sendable(x) && (Gated(s, x) ==> x.channel in channels)
    requires forall log, u :: env.replies(log, u)
    ensures Absorb(env, s, WireOf(x) + rest) == Absorb(env, AfterUnit(env, s, x), rest)
  {
    UnitIsTaken(env, s, channels, x, rest);
    NoTeardown(x);
    hide Decide, Sendable, WireOf, UnitOf, IsTeardown, Binds;
    var w := WireOf(x);
    TakeOne(env, s, w + rest, Parsed(UnitOf(x), |w|), Gated(s, x));
    assert (w + rest)[..|w|] == w && (w + rest)[|w|..] == rest;
  }

  lemma NoTeardown(x: Sent)
    requires Sendable(x)
    ensures UnitOf(x).Request? ==> !IsTeardown(UnitOf(x).verb)
  {
  }

  lemma TakeOne(env: Env, s: State, buf: text, p: Parsed, gated: bool)
    requires s.cause.None? && Decide(env, s, buf) == Take(p, gated)
    ensures p.n <= |buf|
    ensures Absorb(env, s, buf) == Absorb(env, Dispatched(env, s, buf[..p.n], p.unit, gated), buf[p.n..])
  {
    hide Decide, Dispatched;
  }

  // ---- damaged streams -----------------------------------------------------

  datatype Piece = Junk(bytes: text) | Whole(x: Sent)

  predicate AllSendable(ps: seq<Piece>) { forall i :: 0 <= i < |ps| && ps[i].Whole? ==> Sendable(ps[i].x) }

  function BytesSent(ps: seq<Piece>): text
    requires AllSendable(ps)
  {
    if ps == [] then [] else (if ps[0].Junk? then ps[0].bytes else WireOf(ps[0].x)) + BytesSent(ps[1..])
  }

  /** What is made of a damaged stream. */
  function Through(env: Env, s: State, ps: seq<Piece>): State
    requires AllSendable(ps)
    decreases |ps|
  {
    if ps == [] then s
    else if ps[0].Junk? then Through(env, Skipped(s, ps[0].bytes), ps[1..])
    else Through(env, AfterUnit(env, s, ps[0].x), ps[1..])
  }

  function Skipped(s: State, g: text): State { State(s.log + Discards(g), s.resync + |g|, None) }

  /** Every byte of the junk is stray where it stands, it stays in the budget, and media behind it is bound. */
  predicate Passable(env: Env, s: State, channels: set<byte>, ps: seq<Piece>)
    requires AllSendable(ps)
    decreases |ps|
  {
    ps == [] ||
    (if ps[0].Junk? then
       && s.resync + |ps[0].bytes| <= MaxResyncBytes
       && AllStray(channels, s.resync, ps[0].bytes, BytesSent(ps[1..]))
       && Passable(env, Skipped(s, ps[0].bytes), channels, ps[1..])
     else
       && (Gated(s, ps[0].x) ==> ps[0].x.channel in channels)
       && Passable(env, AfterUnit(env, s, ps[0].x), channels, ps[1..]))
  }

  lemma {:induction false} DamagedAbsorbed(env: Env, s: State, channels: set<byte>, ps: seq<Piece>)
    requires s.cause.None? && Binds(env, channels) && AllSendable(ps) && Passable(env, s, channels, ps)
    requires forall log, u :: env.replies(log, u)
    ensures Absorb(env, s, BytesSent(ps)) == Absorbed(Through(env, s, ps), []) && Through(env, s, ps).cause.None?
    decreases |ps|
  {
    hide Absorb, Sendable, WireOf, UnitOf, AllStray, Binds;
    if ps == [] {
      AbsorbNothing(env, s);
    } else if ps[0].Junk? {
      StraySkipped(env, s, channels, ps[0].bytes, BytesSent(ps[1..]));
      DamagedAbsorbed(env, Skipped(s, ps[0].bytes), channels, ps[1..]);
    } else {
      UnitAbsorbed(env, s, channels, ps[0].x, BytesSent(ps[1..]));
      DamagedAbsorbed(env, AfterUnit(env, s, ps[0].x), channels, ps[1..]);
    }
  }

  /**
   A stream of written units with stray bytes among them, cut into reads anywhere: exactly the stray bytes
   are discarded and exactly the units dispatched, in order; a message clears the count of discards, and so
   does media, unless while searching it proves unusable.
   */
  lemma DamagedStream(env: Env, channels: set<byte>, ps: seq<Piece>, chunks: seq<text>)
    requires Binds(env, channels) && AllSendable(ps) && Passable(env, Start, channels, ps)
    requires forall log, u :: env.replies(log, u)
    requires Concat(chunks) == BytesSent(ps)
    ensures Session(env, Start, [], chunks).state == Through(env, Start, ps).(cause := Some(ConnectionClosed))
  {
    hide Absorb, Sendable, WireOf, UnitOf, Binds, Passable;
    SessionIsAbsorb(env, Start, [], chunks);
    DamagedAbsorbed(env, Start, channels, ps);
    assert [] + Concat(chunks) == BytesSent(ps);
  }
}
