/**
 The RTSP client's lifecycle as a machine of atomic steps: the serialized lifecycle verbs, the
 shutdown funnel, the reader's terminal sequence, the UDP receivers and the timer goroutine.
 A step is one critical section, one channel or WaitGroup operation, or one socket call.
 */
module RtspLifecycle {
  datatype Option<T> = None | Some(value: T)

  datatype Phase = Idle | Described | SetUp | Playing | Closed

  datatype Verb = Describe | Setup | Play

  predicate LegalIn(v: Verb, p: Phase)
  {
    match v
    case Describe => p == Idle
    case Setup => p == Described || p == SetUp
    case Play => p == SetUp
  }

  function DestState(v: Verb): Phase
  {
    match v
    case Describe => Described
    case Setup => SetUp
    case Play => Playing
  }

  /** What carries a track's media: an interleaved channel pair or a UDP socket pair. */
  datatype Carrier = Channels(rtp: int, rtcp: int) | Sockets(pair: nat)

  datatype Track = Track(id: nat, carrier: Carrier)

  datatype Pin = Unpinned | PinnedTCP | PinnedUDP

  datatype Preference = PreferTCP | PreferUDP | PreferUDPThenTCP

  /** The transport of one Setup: try UDP, and may a refusal fall back to TCP. */
  function ResolveTransport(pref: Preference, pin: Pin): (bool, bool)
  {
    match pin
    case PinnedTCP => (false, false)
    case PinnedUDP => (true, false)
    case Unpinned => (pref != PreferTCP, pref == PreferUDPThenTCP)
  }

  const MaxChannel: int := 255

  predicate ChannelClaimed(tracks: seq<Track>, ch: int)
  {
    exists t :: t in tracks && t.carrier.Channels? && (t.carrier.rtp == ch || t.carrier.rtcp == ch)
  }

  /** Is the pair a server assigned consecutive, in range and free? */
  predicate PairAccepted(tracks: seq<Track>, rtp: int, rtcp: int)
  {
    && rtcp == rtp + 1 && 0 <= rtp && rtcp <= MaxChannel
    && !ChannelClaimed(tracks, rtp) && !ChannelClaimed(tracks, rtcp)
  }

  /** The goroutine of one socket of a pair. */
  datatype Conn = Conn(pair: nat, rtcp: bool)

  datatype Deadline = Unset | Later | Now

  /** The lifecycle verb in progress; lifecycleMu admits one. */
  datatype VerbPC =
    | Resting
    | Describing
    | DescribeCommit
    | OpeningSockets(id: nat, fallback: bool)
    | OfferingUDP(id: nat, pair: nat, fallback: bool)
    | Dropping(pair: nat, next: VerbPC)                // closing a socket pair it owns
    | OfferingTCP(id: nat)
    | PublishTCP(id: nat, rtp: int, rtcp: int)
    | PublishUDP(id: nat, pair: nat)
    | Registering(id: nat, pair: nat)
    | Inserting(id: nat, pair: nat)                    // mediaMu held, closing seen open
    | OfferingPlay
    | PlayCommit
    | Reserved(rest: seq<Track>)                       // counts taken, media map not yet read
    | Launching(rest: seq<Track>, media: map<nat, nat>)
    | LaunchingTimer

  datatype ShutPC =
    | Free | Noting(cause: nat) | Signalling | Interrupting | Snapping | Arming(pairs: set<nat>) | Spent

  datatype ReaderPC =
    | Framing
    | LoopEnded
    | TearWriting(interruptedBefore: bool)
    | Snapshotting
    | ClosingPairs(pairs: set<nat>)
    | JoiningUDP | ClosingConn | JoiningTimer | Done

  datatype Core = Core(
    phase: Phase, termErr: Option<nat>, tracks: seq<Track>, pin: Pin, plays: nat,
    session: bool)             // a Session id is recorded

  datatype Shut = Shut(pc: ShutPC, closing: bool, shuttingDown: bool)

  datatype Net = Net(
    media: map<nat, nat>,      // the registered socket pairs, by track id
    held: bool,                // mediaMu held across steps
    made: nat,                 // socket pairs ever opened
    dropped: set<nat>,         // socket pairs closed
    expired: set<Conn>,        // sockets whose read deadline is immediate
    read: Deadline,            // the control connection's deadlines
    write: Deadline)

  datatype Join = Join(
    wg: int, timers: nat,
    udp: int, running: set<Conn>,
    launched: set<nat>)        // socket pairs whose receivers were started

  datatype State = State(pref: Preference, core: Core, shut: Shut, reader: ReaderPC, verb: VerbPC, net: Net, join: Join)

  function Initial(pref: Preference): State
  {
    State(pref, Core(Idle, None, [], Unpinned, 0, false), Shut(Free, false, false), Framing, Resting,
          Net(map[], false, 0, {}, {}, Unset, Unset), Join(0, 0, 0, {}, {}))
  }

  // ---- the shutdown funnel -------------------------------------------------

  function Both(pair: nat): set<Conn>
  {
    {Conn(pair, false), Conn(pair, true)}
  }

  function ConnsOf(pairs: set<nat>): set<Conn>
  {
    set p <- pairs, b <- {false, true} :: Conn(p, b)
  }

  /** The next step of whoever holds the once. */
  function ShutStep(s: State): (r: Option<State>)
  {
    match s.shut.pc
    case Noting(cause) =>
      Some(s.(core := s.core.(phase := Closed, termErr := if s.core.termErr.None? then Some(cause) else s.core.termErr),
              shut := s.shut.(pc := Signalling)))
    case Signalling => Some(s.(shut := s.shut.(pc := Interrupting, closing := true)))
    case Interrupting =>
      Some(s.(shut := s.shut.(pc := Snapping, shuttingDown := true), net := s.net.(read := Now, write := Now)))
    case Snapping =>
      if s.net.held then None else Some(s.(shut := s.shut.(pc := Arming(s.net.media.Values))))
    case Arming(pairs) =>
      Some(s.(shut := s.shut.(pc := Spent), net := s.net.(expired := s.net.expired + ConnsOf(pairs))))
    case _ => None
  }

  // ---- the lifecycle verbs -------------------------------------------------

  /** What a verb meets outside the lock: sockets opening, and the server's answer. */
  datatype Answer =
    | Proceeds                        // no outside input at this point
    | Fails                           // any error that leaves nothing allocated by the server
    | Refused                         // a non-2xx answer to SETUP
    | Accepts                         // a usable answer to DESCRIBE or PLAY
    // 2xx answers to SETUP; `named` says that a Session id came with it
    | Unusable(named: bool)           // whose Transport cannot be used
    | Offers(named: bool)             // with usable server ports
    | Assigns(rtp: int, rtcp: int, named: bool)

  /** The first Session id a SETUP answer names is recorded, whatever becomes of its Transport. */
  function Recorded(s: State, named: bool): State
  {
    s.(core := s.core.(session := s.core.session || named))
  }

  function SetupStep(s: State, a: Answer): (r: Option<State>)
  {
    match s.verb
    case OpeningSockets(id, fb) =>
      (match a
       case Fails => Some(s.(verb := Resting))
       case Proceeds =>
         Some(s.(verb := OfferingUDP(id, s.net.made, fb), net := s.net.(made := s.net.made + 1)))
       case _ => None)
    case OfferingUDP(id, p, fb) =>
      (match a
       case Refused => Some(s.(verb := Dropping(p, if fb then OfferingTCP(id) else Resting)))
       case Offers(named) => Some(Recorded(s, named).(verb := PublishUDP(id, p)))
       case Fails => Some(s.(verb := Dropping(p, Resting)))
       case Unusable(named) => Some(Recorded(s, named).(verb := Dropping(p, Resting)))
       case _ => None)
    case Dropping(p, next) =>
      if a != Proceeds then None else Some(s.(verb := next, net := s.net.(dropped := s.net.dropped + {p})))
    case OfferingTCP(id) =>
      (match a
       case Assigns(rtp, rtcp, named) =>
         var verb := if PairAccepted(s.core.tracks, rtp, rtcp) then PublishTCP(id, rtp, rtcp) else Resting;
         Some(Recorded(s, named).(verb := verb))
       case Unusable(named) => Some(Recorded(s, named).(verb := Resting))
       case Fails => Some(s.(verb := Resting))
       case Refused => Some(s.(verb := Resting))
       case _ => None)
    case _ => None
  }

  function PublishStep(s: State, a: Answer): (r: Option<State>)
  {
    if a != Proceeds then None else
    match s.verb
    case PublishTCP(id, rtp, rtcp) =>
      if s.core.termErr.Some? then Some(s.(verb := Resting)) else
      Some(s.(verb := Resting,
              core := s.core.(tracks := s.core.tracks + [Track(id, Channels(rtp, rtcp))], pin := PinnedTCP,
                              phase := DestState(Setup))))
    case PublishUDP(id, p) =>
      if s.core.termErr.Some? then Some(s.(verb := Dropping(p, Resting))) else
      Some(s.(verb := Registering(id, p),
              core := s.core.(tracks := s.core.tracks + [Track(id, Sockets(p))], pin := PinnedUDP,
                              phase := DestState(Setup))))
    case Registering(id, p) =>
      if s.shut.closing then Some(s.(verb := Dropping(p, Resting)))
      else Some(s.(verb := Inserting(id, p), net := s.net.(held := true)))
    case Inserting(id, p) =>
      Some(s.(verb := Resting, net := s.net.(held := false, media := s.net.media[id := p])))
    case _ => None
  }

  function PlayStep(s: State, a: Answer): (r: Option<State>)
  {
    match s.verb
    case OfferingPlay =>
      (match a
       case Fails => Some(s.(verb := Resting))
       case Accepts => Some(s.(verb := PlayCommit))
       case _ => None)
    case PlayCommit =>
      if a != Proceeds then None
      else if s.core.termErr.Some? then Some(s.(verb := Resting))
      else
        var udp := s.core.pin == PinnedUDP;
        Some(s.(verb := if udp then Reserved(s.core.tracks) else LaunchingTimer,
                core := s.core.(phase := DestState(Play), plays := s.core.plays + 1),
                join := s.join.(wg := s.join.wg + 1, udp := s.join.udp + (if udp then 2 * |s.core.tracks| else 0))))
    case Reserved(rest) =>
      if a != Proceeds || s.net.held then None else Some(s.(verb := Launching(rest, s.net.media)))
    case Launching(rest, media) =>
      if a != Proceeds then None
      else if rest == [] then Some(s.(verb := LaunchingTimer))
      else if rest[0].id !in media then
        Some(s.(verb := Launching(rest[1..], media), join := s.join.(udp := s.join.udp - 2)))
      else
        var p := media[rest[0].id];
        Some(s.(verb := Launching(rest[1..], media),
                join := s.join.(running := s.join.running + Both(p), launched := s.join.launched + {p})))
    case LaunchingTimer =>
      if a != Proceeds then None
      else Some(s.(verb := Resting, join := s.join.(timers := s.join.timers + 1)))
    case _ => None
  }

  function DescribeStep(s: State, a: Answer): (r: Option<State>)
  {
    match s.verb
    case Describing =>
      (match a
       case Fails => Some(s.(verb := Resting))
       case Accepts => Some(s.(verb := DescribeCommit))
       case _ => None)
    case DescribeCommit =>
      if a != Proceeds then None
      else if s.core.termErr.Some? then Some(s.(verb := Resting))
      else Some(s.(verb := Resting, core := s.core.(phase := DestState(Describe))))
    case _ => None
  }

  /** Starts a verb: the lifecycle gate, and for Setup the track and transport checks. */
  function StartVerb(s: State, v: Verb, id: nat): (r: Option<State>)
  {
    if !s.verb.Resting? then None
    else if !LegalIn(v, s.core.phase) then Some(s)
    else match v
      case Describe => Some(s.(verb := Describing))
      case Play => Some(s.(verb := OfferingPlay))
      case Setup =>
        if exists t :: t in s.core.tracks && t.id == id then Some(s)
        else
          var r := ResolveTransport(s.pref, s.core.pin);
          Some(s.(verb := if r.0 then OpeningSockets(id, r.1) else OfferingTCP(id)))
  }

  // ---- the reader's terminal sequence --------------------------------------

  /** One step of the reader past its framing loop; a TEARDOWN goes out when a Session id is recorded. */
  function ReaderStep(s: State): (r: Option<State>)
  {
    match s.reader
    case Framing => if s.shut.closing then Some(s.(reader := LoopEnded)) else None
    case LoopEnded =>
      if s.core.session then
        Some(s.(reader := TearWriting(s.shut.shuttingDown), net := s.net.(read := Later, write := Later)))
      else Some(s.(reader := Snapshotting))
    case TearWriting(_) => Some(s.(reader := Snapshotting))
    case Snapshotting => if s.net.held then None else Some(s.(reader := ClosingPairs(s.net.media.Values)))
    case ClosingPairs(pairs) =>
      Some(s.(reader := JoiningUDP, net := s.net.(dropped := s.net.dropped + pairs)))
    case JoiningUDP => if s.join.udp == 0 then Some(s.(reader := ClosingConn)) else None
    case ClosingConn => Some(s.(reader := JoiningTimer))
    case JoiningTimer => if s.join.wg == 0 then Some(s.(reader := Done)) else None
    case Done => None
  }

  // ---- everything else -----------------------------------------------------

  /** A receiver arms its next read, or leaves when shutdown has begun. */
  function ReceiverArms(s: State, c: Conn): (r: Option<State>)
  {
    if c !in s.join.running then None
    else if s.shut.shuttingDown then
      Some(s.(net := s.net.(expired := s.net.expired + {c}),
              join := s.join.(running := s.join.running - {c}, udp := s.join.udp - 1)))
    else Some(s.(net := s.net.(expired := s.net.expired - {c})))
  }

  /** A receiver leaves after a failed read or a panic. */
  function ReceiverLeaves(s: State, c: Conn): (r: Option<State>)
  {
    if c !in s.join.running then None
    else Some(s.(join := s.join.(running := s.join.running - {c}, udp := s.join.udp - 1)))
  }

  function TimerLeaves(s: State): (r: Option<State>)
  {
    if s.join.timers == 0 || !s.shut.closing then None
    else Some(s.(join := s.join.(timers := s.join.timers - 1, wg := s.join.wg - 1)))
  }

  /** The control connection's read deadline, armed for the reader or by Play. */
  function ArmsRead(s: State): (r: Option<State>)
  {
    Some(s.(net := s.net.(read := if s.shut.shuttingDown then Now else Later)))
  }

  /** Its write deadline; the TEARDOWN writer keeps others out through writeMu. */
  function ArmsWrite(s: State): (r: Option<State>)
  {
    if s.reader.TearWriting? then None
    else Some(s.(net := s.net.(write := if s.shut.shuttingDown then Now else Later)))
  }

  datatype Action =
    | Begins(cause: nat) | Shuts
    | Starts(verb: Verb, id: nat) | Continues(answer: Answer)
    | Reads
    | Arms(conn: Conn) | Leaves(conn: Conn) | Ticks | ReadArmed | WriteArmed

  function VerbStep(s: State, a: Answer): (r: Option<State>)
  {
    match s.verb
    case Resting => None
    case Describing => DescribeStep(s, a)
    case DescribeCommit => DescribeStep(s, a)
    case OpeningSockets(_, _) => SetupStep(s, a)
    case OfferingUDP(_, _, _) => SetupStep(s, a)
    case Dropping(_, _) => SetupStep(s, a)
    case OfferingTCP(_) => SetupStep(s, a)
    case PublishTCP(_, _, _) => PublishStep(s, a)
    case PublishUDP(_, _) => PublishStep(s, a)
    case Registering(_, _) => PublishStep(s, a)
    case Inserting(_, _) => PublishStep(s, a)
    case _ => PlayStep(s, a)
  }

  function Step(s: State, a: Action): (r: Option<State>)
  {
    match a
    case Begins(cause) => if s.shut.pc.Free? then Some(s.(shut := s.shut.(pc := Noting(cause)))) else None
    case Shuts => ShutStep(s)
    case Starts(v, id) => StartVerb(s, v, id)
    case Continues(x) => VerbStep(s, x)
    case Reads => ReaderStep(s)
    case Arms(c) => ReceiverArms(s, c)
    case Leaves(c) => ReceiverLeaves(s, c)
    case Ticks => TimerLeaves(s)
    case ReadArmed => ArmsRead(s)
    case WriteArmed => ArmsWrite(s)
  }

  /** The state after a run, if every step of it can happen. */
  function After(pref: Preference, run: seq<Action>): (r: Option<State>)
  {
    if run == [] then Some(Initial(pref)) else
      var s := After(pref, run[..|run| - 1]);
      if s.None? then None else Step(s.value, run[|run| - 1])
  }

  // ---- the invariant -------------------------------------------------------

  /** Closed exactly when a terminal error is recorded; the funnel's flags follow its position. */
  predicate TermInv(core: Core, shut: Shut)
  {
    && (core.phase.Closed? <==> core.termErr.Some?)
    && (core.termErr.Some? <==> !shut.pc.Free? && !shut.pc.Noting?)
    && (shut.closing <==> shut.pc.Interrupting? || shut.pc.Snapping? || shut.pc.Arming? || shut.pc.Spent?)
    && (shut.shuttingDown <==> shut.pc.Snapping? || shut.pc.Arming? || shut.pc.Spent?)
  }

  predicate ReaderInv(core: Core, reader: ReaderPC, shut: Shut)
  {
    (!reader.Framing? ==> shut.closing) && (reader.TearWriting? ==> core.session)
  }

  /** Two tracks share neither an id, a transport kind, a channel nor a socket pair. */
  predicate Apart(t: Track, u: Track)
  {
    && t.id != u.id
    && match (t.carrier, u.carrier)
       case (Sockets(p), Sockets(q)) => p != q
       case (Channels(a, b), Channels(c, d)) => a != c && a != d && b != c && b != d
       case _ => false
  }

  predicate AllApart(tracks: seq<Track>)
  {
    forall i, j :: 0 <= i < j < |tracks| ==> Apart(tracks[i], tracks[j])
  }

  predicate Fits(t: Track, pin: Pin)
  {
    match t.carrier
    case Sockets(_) => pin == PinnedUDP
    case Channels(rtp, rtcp) => pin == PinnedTCP && rtcp == rtp + 1 && 0 <= rtp && rtcp <= MaxChannel
  }

  predicate TracksInv(core: Core)
  {
    && AllApart(core.tracks)
    && (forall t :: t in core.tracks ==> Fits(t, core.pin))
    && (core.pin == Unpinned <==> core.tracks == [])
    && (core.phase == Idle || core.phase == Described ==> core.tracks == [])
    && core.plays <= 1
    && (core.phase == Idle || core.phase == Described || core.phase == SetUp ==> core.plays == 0)
  }

  predicate FreshId(tracks: seq<Track>, id: nat)
  {
    forall t :: t in tracks ==> t.id != id
  }

  /** What the verb in progress may rely on, whatever happened since it looked at the state. */
  predicate VerbInv(core: Core, verb: VerbPC)
  {
    var p := core.phase;
    match verb
    case Resting => true
    case Describing => p == Idle || p == Closed
    case DescribeCommit => p == Idle || p == Closed
    case OpeningSockets(id, fb) => SettingUp(core, id, PinnedUDP) && (fb ==> core.pin == Unpinned)
    case OfferingUDP(id, _, fb) => SettingUp(core, id, PinnedUDP) && (fb ==> core.pin == Unpinned)
    case Dropping(_, next) =>
      next == Resting || (next.OfferingTCP? && SettingUp(core, next.id, PinnedTCP))
    case OfferingTCP(id) => SettingUp(core, id, PinnedTCP)
    case PublishTCP(id, rtp, rtcp) => SettingUp(core, id, PinnedTCP) && PairAccepted(core.tracks, rtp, rtcp)
    case PublishUDP(id, _) => SettingUp(core, id, PinnedUDP)
    case Registering(id, pair) => (p == SetUp || p == Closed) && Track(id, Sockets(pair)) in core.tracks
      && core.plays == 0
    case Inserting(id, pair) => (p == SetUp || p == Closed) && Track(id, Sockets(pair)) in core.tracks && core.plays == 0
    case OfferingPlay => p == SetUp || p == Closed
    case PlayCommit => p == SetUp || p == Closed
    case _ => (p == Playing || p == Closed) && core.plays == 1
  }

  predicate SettingUp(core: Core, id: nat, pin: Pin)
  {
    && (core.phase == Described || core.phase == SetUp || core.phase == Closed)
    && FreshId(core.tracks, id) && (core.pin == Unpinned || core.pin == pin) && core.plays == 0
  }

  /** The socket pair the verb in progress owns. */
  function Owned(verb: VerbPC): Option<nat>
  {
    match verb
    case OfferingUDP(_, p, _) => Some(p)
    case Dropping(p, _) => Some(p)
    case PublishUDP(_, p) => Some(p)
    case Registering(_, p) => Some(p)
    case Inserting(_, p) => Some(p)
    case _ => None
  }

  /** Every pair ever opened is closed, registered, or owned by the verb in progress. */
  predicate OwnInv(made: nat, dropped: set<nat>, media: map<nat, nat>, verb: VerbPC)
  {
    && (forall p :: 0 <= p < made ==> p in dropped || p in media.Values || Owned(verb) == Some(p))
    && (Owned(verb).Some? ==> Owned(verb).value < made && Owned(verb).value !in media.Values)
    && (forall p :: p in media.Values ==> p < made)
  }

  predicate RegInv(tracks: seq<Track>, made: nat, media: map<nat, nat>, verb: VerbPC, closing: bool)
  {
    && (forall t :: t in tracks && t.carrier.Sockets? ==>
          && t.carrier.pair < made
          && ((verb.OfferingUDP? || verb.PublishUDP?) ==> t.carrier.pair != verb.pair)
          && (closing || (t.id in media && media[t.id] == t.carrier.pair)
              || ((verb.Registering? || verb.Inserting?) && verb.id == t.id)))
    && (forall id :: id in media ==> Track(id, Sockets(media[id])) in tracks)
  }

  /** The map is open to an insertion only while no snapshot of it has been taken. */
  predicate HoldInv(held: bool, verb: VerbPC, reader: ReaderPC, shut: Shut)
  {
    && (held <==> verb.Inserting?)
    && (PastSnapshot(reader) || shut.pc.Arming? || shut.pc.Spent? ==> !held)
  }

  predicate PastSnapshot(reader: ReaderPC)
  {
    !reader.Framing? && !reader.LoopEnded? && !reader.TearWriting? && !reader.Snapshotting?
  }

  predicate CloseInv(media: map<nat, nat>, dropped: set<nat>, reader: ReaderPC)
  {
    match reader
    case ClosingPairs(pairs) => pairs == media.Values
    case _ => PastSnapshot(reader) ==> media.Values <= dropped
  }

  predicate ExpireInv(media: map<nat, nat>, expired: set<Conn>, pc: ShutPC)
  {
    && (pc.Arming? ==> pc.pairs == media.Values)
    && (pc.Spent? ==> ConnsOf(media.Values) <= expired)
  }

  /** The control connection: once interrupted, only the TEARDOWN may extend a deadline. */
  predicate WireInv(net: Net, reader: ReaderPC, shut: Shut)
  {
    && (shut.shuttingDown && (reader.Framing? || reader.LoopEnded?) ==> net.read == Now && net.write == Now)
    && (reader.TearWriting? ==>
          && (reader.interruptedBefore ==> shut.shuttingDown && net.write == Later)
          && (!reader.interruptedBefore ==> net.write == if shut.shuttingDown then Now else Later))
  }

  /** Tracks whose receivers are reserved but not started. */
  function Rest(verb: VerbPC): seq<Track>
  {
    if verb.Reserved? || verb.Launching? then verb.rest else []
  }

  predicate TimerOwed(verb: VerbPC)
  {
    verb.Reserved? || verb.Launching? || verb.LaunchingTimer?
  }

  predicate CountInv(join: Join, verb: VerbPC, reader: ReaderPC)
  {
    && join.udp == |join.running| + 2 * |Rest(verb)|
    && join.wg == join.timers + (if TimerOwed(verb) then 1 else 0)
    && (reader.ClosingConn? || reader.JoiningTimer? || reader.Done? ==> join.udp == 0)
    && (reader.Done? ==> join.wg == 0)
  }

  predicate LaunchInv(join: Join, media: map<nat, nat>, plays: nat, verb: VerbPC)
  {
    && join.running <= ConnsOf(join.launched)
    && join.launched <= media.Values
    && (plays == 0 ==> join.launched == {})
    && AllApart(Rest(verb))
    && (forall t :: t in Rest(verb) ==>
          t.id in media && t.carrier == Sockets(media[t.id]) && media[t.id] !in join.launched)
    && (verb.Launching? ==> forall t :: t in verb.rest ==> t.id in verb.media && verb.media[t.id] == media[t.id])
  }

  predicate Inv(s: State)
  {
    && TermInv(s.core, s.shut)
    && ReaderInv(s.core, s.reader, s.shut)
    && TracksInv(s.core)
    && VerbInv(s.core, s.verb)
    && OwnInv(s.net.made, s.net.dropped, s.net.media, s.verb)
    && RegInv(s.core.tracks, s.net.made, s.net.media, s.verb, s.shut.closing)
    && HoldInv(s.net.held, s.verb, s.reader, s.shut)
    && CloseInv(s.net.media, s.net.dropped, s.reader)
    && ExpireInv(s.net.media, s.net.expired, s.shut.pc)
    && WireInv(s.net, s.reader, s.shut)
    && CountInv(s.join, s.verb, s.reader)
    && LaunchInv(s.join, s.net.media, s.core.plays, s.verb)
  }

  lemma InitialInv(pref: Preference)
    ensures Inv(Initial(pref))
  {
  }

  lemma ShutKeeps(s: State)
    requires Inv(s) && ShutStep(s).Some?
    ensures Inv(ShutStep(s).value)
  {
    hide TracksInv, OwnInv, CountInv, LaunchInv, CloseInv, AllApart, PairAccepted, FreshId;
    ClosingKeeps(s);
  }

  lemma ClosingKeeps(s: State)
    requires TracksInv(s.core) && VerbInv(s.core, s.verb)
    ensures forall e :: TracksInv(s.core.(phase := Closed, termErr := e))
                              && VerbInv(s.core.(phase := Closed, termErr := e), s.verb)
  {
  }

  lemma ReaderKeeps(s: State)
    requires Inv(s) && ReaderStep(s).Some?
    ensures Inv(ReaderStep(s).value)
  {
    hide TracksInv, VerbInv, LaunchInv, RegInv;
  }

  lemma DescribeKeeps(s: State, a: Answer)
    requires Inv(s) && DescribeStep(s, a).Some?
    ensures Inv(DescribeStep(s, a).value)
  {
    hide CloseInv, ExpireInv, WireInv, AllApart;
  }

  lemma StartKeeps(s: State, v: Verb, id: nat)
    requires Inv(s) && StartVerb(s, v, id).Some?
    ensures Inv(StartVerb(s, v, id).value)
  {
    hide TermInv, CloseInv, ExpireInv, WireInv, AllApart, Fits, PairAccepted;
  }

  /** No Setup step loses a socket pair: it is owned from its opening until it is dropped. */
  lemma SetupKeepsPairs(s: State, a: Answer)
    requires OwnInv(s.net.made, s.net.dropped, s.net.media, s.verb)
    requires RegInv(s.core.tracks, s.net.made, s.net.media, s.verb, s.shut.closing)
    requires VerbInv(s.core, s.verb) && SetupStep(s, a).Some?
    ensures var t := SetupStep(s, a).value;
            && OwnInv(t.net.made, t.net.dropped, t.net.media, t.verb)
            && RegInv(t.core.tracks, t.net.made, t.net.media, t.verb, t.shut.closing)
  {
    hide PairAccepted, FreshId;
  }

  /** The counts concern only a Play past its commit. */
  lemma QuietKeeps(s: State, v: VerbPC)
    requires CountInv(s.join, s.verb, s.reader) && LaunchInv(s.join, s.net.media, s.core.plays, s.verb)
    requires !TimerOwed(s.verb) && !TimerOwed(v)
    ensures CountInv(s.join, v, s.reader) && LaunchInv(s.join, s.net.media, s.core.plays, v)
  {
  }

  lemma SetupKeeps(s: State, a: Answer)
    requires Inv(s) && SetupStep(s, a).Some?
    ensures Inv(SetupStep(s, a).value)
  {
    SetupKeepsPairs(s, a);
    QuietKeeps(s, SetupStep(s, a).value.verb);
    hide TermInv, TracksInv, ExpireInv, AllApart, ConnsOf, PairAccepted, FreshId, OwnInv, RegInv, CountInv, LaunchInv;
  }

  lemma TracksSnoc(core: Core, t: Track, pin: Pin)
    requires TracksInv(core) && core.plays == 0 && Fits(t, pin)
    requires core.pin == Unpinned || core.pin == pin
    requires forall u :: u in core.tracks ==> Apart(u, t)
    ensures TracksInv(core.(tracks := core.tracks + [t], pin := pin, phase := SetUp))
  {
  }

  /** A channel pair the server assigned and the check accepted collides with no track's. */
  lemma AcceptedIsApart(core: Core, id: nat, rtp: int, rtcp: int)
    requires TracksInv(core) && SettingUp(core, id, PinnedTCP) && PairAccepted(core.tracks, rtp, rtcp)
    ensures forall u :: u in core.tracks ==> Apart(u, Track(id, Channels(rtp, rtcp)))
  {
    forall u | u in core.tracks
      ensures Apart(u, Track(id, Channels(rtp, rtcp)))
    {
      assert Fits(u, core.pin);
    }
  }

  lemma PublishTCPKeeps(s: State)
    requires Inv(s) && s.verb.PublishTCP? && PublishStep(s, Proceeds).Some?
    ensures Inv(PublishStep(s, Proceeds).value)
  {
    hide CloseInv, ExpireInv, WireInv, AllApart, ConnsOf, PairAccepted, TracksInv, Fits;
    var v := s.verb;
    if s.core.termErr.None? {
      AcceptedIsApart(s.core, v.id, v.rtp, v.rtcp);
      assert Fits(Track(v.id, Channels(v.rtp, v.rtcp)), PinnedTCP) by {
        AcceptedFits(s.core.tracks, v.id, v.rtp, v.rtcp);
      }
      TracksSnoc(s.core, Track(v.id, Channels(v.rtp, v.rtcp)), PinnedTCP);
    }
  }

  lemma AcceptedFits(tracks: seq<Track>, id: nat, rtp: int, rtcp: int)
    requires PairAccepted(tracks, rtp, rtcp)
    ensures Fits(Track(id, Channels(rtp, rtcp)), PinnedTCP)
  {
  }

  /** A socket pair just opened belongs to no other track. */
  lemma OwnedIsApart(s: State)
    requires Inv(s) && s.verb.PublishUDP?
    ensures forall u :: u in s.core.tracks ==> Apart(u, Track(s.verb.id, Sockets(s.verb.pair)))
    ensures Fits(Track(s.verb.id, Sockets(s.verb.pair)), PinnedUDP)
  {
    forall u | u in s.core.tracks
      ensures Apart(u, Track(s.verb.id, Sockets(s.verb.pair)))
    {
      assert Fits(u, s.core.pin);
    }
  }

  lemma PublishUDPKeeps(s: State)
    requires Inv(s) && s.verb.PublishUDP? && PublishStep(s, Proceeds).Some?
    ensures Inv(PublishStep(s, Proceeds).value)
  {
    OwnedIsApart(s);
    hide CloseInv, ExpireInv, WireInv, AllApart, ConnsOf, PairAccepted, TracksInv, Fits;
    if s.core.termErr.None? {
      TracksSnoc(s.core, Track(s.verb.id, Sockets(s.verb.pair)), PinnedUDP);
    }
  }

  /** The track being registered is not in the map yet, so inserting it adds exactly its pair. */
  lemma InsertAdds(s: State)
    requires Inv(s) && s.verb.Inserting?
    ensures s.verb.id !in s.net.media
    ensures s.net.media[s.verb.id := s.verb.pair].Values == s.net.media.Values + {s.verb.pair}
  {
    var id, p, m := s.verb.id, s.verb.pair, s.net.media;
    if id in m {
      assert m[id] in m.Values;
      SameTrack(s.core.tracks, Track(id, Sockets(m[id])), Track(id, Sockets(p)));
      assert false;
    }
    var n := m[id := p];
    forall x | x in m.Values + {p}
      ensures x in n.Values
    {
      if x == p {
        assert n[id] == p;
      } else {
        var k :| k in m && m[k] == x;
        assert n[k] == x;
      }
    }
  }

  lemma ApartAt(tracks: seq<Track>, i: int, j: int)
    requires AllApart(tracks)
    ensures 0 <= i < j < |tracks| ==> Apart(tracks[i], tracks[j])
  {
  }

  lemma SameTrack(tracks: seq<Track>, t: Track, u: Track)
    requires AllApart(tracks) && t in tracks && u in tracks && t.id == u.id
    ensures t == u
  {
    var i :| 0 <= i < |tracks| && tracks[i] == t;
    var j :| 0 <= j < |tracks| && tracks[j] == u;
    ApartAt(tracks, i, j);
    ApartAt(tracks, j, i);
  }

  lemma RegisterKeeps(s: State)
    requires Inv(s) && (s.verb.Registering? || s.verb.Inserting?) && PublishStep(s, Proceeds).Some?
    ensures Inv(PublishStep(s, Proceeds).value)
  {
    if s.verb.Inserting? {
      InsertAdds(s);
    }
    hide AllApart, ConnsOf, PairAccepted, TracksInv, Fits, WireInv;
  }

  lemma PublishKeeps(s: State, a: Answer)
    requires Inv(s) && PublishStep(s, a).Some?
    ensures Inv(PublishStep(s, a).value)
  {
    hide Inv;
    if s.verb.PublishTCP? {
      PublishTCPKeeps(s);
    } else if s.verb.PublishUDP? {
      PublishUDPKeeps(s);
    } else {
      RegisterKeeps(s);
    }
  }

  /** With the terminal error unset, every UDP track a Play finds has its sockets in the map. */
  lemma CommitFindsSockets(s: State)
    requires Inv(s) && s.verb.PlayCommit? && s.core.termErr.None?
    ensures s.core.plays == 0 && s.reader.Framing? && s.join.launched == {}
    ensures s.core.pin == PinnedUDP ==>
              forall t :: t in s.core.tracks ==> t.id in s.net.media && t.carrier == Sockets(s.net.media[t.id])
  {
    if s.core.pin == PinnedUDP {
      forall t | t in s.core.tracks
        ensures t.id in s.net.media && t.carrier == Sockets(s.net.media[t.id])
      {
        assert Fits(t, s.core.pin);
      }
    }
  }

  lemma PlayCommitKeeps(s: State)
    requires Inv(s) && s.verb.PlayCommit? && PlayStep(s, Proceeds).Some?
    ensures Inv(PlayStep(s, Proceeds).value)
  {
    if s.core.termErr.None? {
      CommitFindsSockets(s);
    }
    hide Fits, OwnInv, RegInv, CloseInv, ExpireInv, WireInv, ConnsOf, AllApart;
    assert AllApart(s.core.tracks) && AllApart([]) by { NoneApart(s.core); }
  }

  lemma NoneApart(core: Core)
    requires TracksInv(core)
    ensures AllApart(core.tracks) && AllApart([])
  {
  }

  /** Starting the receivers of a pair nothing reads yet adds two goroutines. */
  lemma TwoMore(running: set<Conn>, launched: set<nat>, p: nat)
    requires running <= ConnsOf(launched) && p !in launched
    ensures |running + Both(p)| == |running| + 2
    ensures running + Both(p) <= ConnsOf(launched + {p})
  {
    assert Conn(p, false) !in running && Conn(p, true) !in running;
    assert running + Both(p) == (running + {Conn(p, false)}) + {Conn(p, true)};
    forall c | c in running + Both(p)
      ensures c in ConnsOf(launched + {p})
    {
      if c in running {
        assert c in ConnsOf(launched);
      }
    }
  }

  /** The next track to start has its sockets in the map, and nothing reads them yet. */
  lemma NextTrack(join: Join, media: map<nat, nat>, plays: nat, verb: VerbPC)
    requires LaunchInv(join, media, plays, verb) && verb.Launching? && verb.rest != []
    ensures verb.rest[0].id in verb.media
    ensures var p := verb.media[verb.rest[0].id];
            && verb.rest[0].carrier == Sockets(p) && p in media.Values && p !in join.launched
            && forall t :: t in verb.rest[1..] ==> t in verb.rest && media[t.id] != p
    ensures AllApart(verb.rest[1..])
  {
    hide ConnsOf;
    var rest := verb.rest;
    var t0 := rest[0];
    assert t0 in rest;
    var p := verb.media[t0.id];
    assert media[t0.id] == p;
    forall t | t in rest[1..]
      ensures t in rest && media[t.id] != p
    {
      var i :| 0 <= i < |rest[1..]| && rest[1..][i] == t;
      assert rest[i + 1] == t && Apart(rest[0], rest[i + 1]);
    }
  }

  lemma LaunchOneKeeps(join: Join, media: map<nat, nat>, plays: nat, verb: VerbPC, reader: ReaderPC)
    requires LaunchInv(join, media, plays, verb) && CountInv(join, verb, reader)
    requires verb.Launching? && verb.rest != [] && plays == 1
    ensures verb.rest[0].id in verb.media
    ensures var p := verb.media[verb.rest[0].id];
            var j := join.(running := join.running + Both(p), launched := join.launched + {p});
            var v := Launching(verb.rest[1..], verb.media);
            LaunchInv(j, media, plays, v) && CountInv(j, v, reader)
  {
    NextTrack(join, media, plays, verb);
    TwoMore(join.running, join.launched, verb.media[verb.rest[0].id]);
    hide ConnsOf, Both, AllApart;
  }

  lemma LaunchingKeeps(s: State)
    requires Inv(s) && s.verb.Launching? && s.verb.rest != [] && PlayStep(s, Proceeds).Some?
    ensures Inv(PlayStep(s, Proceeds).value)
  {
    hide LaunchInv, CountInv, TracksInv, OwnInv, RegInv, CloseInv, ExpireInv, WireInv, Both, TermInv, ReaderInv;
    LaunchOneKeeps(s.join, s.net.media, s.core.plays, s.verb, s.reader);
    OwnNothing(s, Launching(s.verb.rest[1..], s.verb.media));
  }

  lemma LaunchedKeeps(s: State)
    requires Inv(s) && s.verb.Launching? && s.verb.rest == [] && PlayStep(s, Proceeds).Some?
    ensures Inv(PlayStep(s, Proceeds).value)
  {
    OwnNothing(s, LaunchingTimer);
    hide TracksInv, OwnInv, RegInv, CloseInv, ExpireInv, WireInv, ConnsOf;
  }

  lemma OwnNothing(s: State, v: VerbPC)
    requires OwnInv(s.net.made, s.net.dropped, s.net.media, s.verb)
    requires RegInv(s.core.tracks, s.net.made, s.net.media, s.verb, s.shut.closing)
    requires TimerOwed(s.verb) && TimerOwed(v)
    ensures OwnInv(s.net.made, s.net.dropped, s.net.media, v)
    ensures RegInv(s.core.tracks, s.net.made, s.net.media, v, s.shut.closing)
  {
  }

  lemma PlayKeeps(s: State, a: Answer)
    requires Inv(s) && PlayStep(s, a).Some?
    ensures Inv(PlayStep(s, a).value)
  {
    if s.verb.PlayCommit? {
      PlayCommitKeeps(s);
    } else if s.verb.Launching? && s.verb.rest != [] {
      LaunchingKeeps(s);
    } else if s.verb.Launching? {
      LaunchedKeeps(s);
    } else {
      hide Fits, TracksInv, CloseInv, ExpireInv, WireInv, ConnsOf, AllApart, Both;
      assert AllApart([]) by { NoneApart(Core(Idle, None, [], Unpinned, 0, false)); }
    }
  }

  lemma ReceiverKeeps(s: State, a: Action)
    requires Inv(s) && (a.Arms? || a.Leaves?) && Step(s, a).Some?
    ensures Inv(Step(s, a).value)
  {
    hide TracksInv, VerbInv, OwnInv, RegInv, AllApart;
  }

  lemma ConnectionKeeps(s: State, a: Action)
    requires Inv(s) && (a.Ticks? || a.ReadArmed? || a.WriteArmed? || a.Begins?) && Step(s, a).Some?
    ensures Inv(Step(s, a).value)
  {
    hide TracksInv, VerbInv, OwnInv, RegInv, ConnsOf, AllApart;
  }

  lemma StepKeeps(s: State, a: Action)
    requires Inv(s) && Step(s, a).Some?
    ensures Inv(Step(s, a).value)
  {
    hide Inv, ShutStep, SetupStep, PublishStep, PlayStep, DescribeStep, StartVerb, ReaderStep;
    match a
    case Shuts => ShutKeeps(s);
    case Starts(v, id) => StartKeeps(s, v, id);
    case Continues(x) => VerbKeeps(s, x);
    case Reads => ReaderKeeps(s);
    case Arms(_) => ReceiverKeeps(s, a);
    case Leaves(_) => ReceiverKeeps(s, a);
    case _ => ConnectionKeeps(s, a);
  }

  lemma VerbKeeps(s: State, a: Answer)
    requires Inv(s) && VerbStep(s, a).Some?
    ensures Inv(VerbStep(s, a).value)
  {
    hide Inv, SetupStep, PublishStep, PlayStep, DescribeStep;
    var v := s.verb;
    if v.Describing? || v.DescribeCommit? {
      DescribeKeeps(s, a);
    } else if v.OpeningSockets? || v.OfferingUDP? || v.Dropping? || v.OfferingTCP? {
      SetupKeeps(s, a);
    } else if v.PublishTCP? || v.PublishUDP? || v.Registering? || v.Inserting? {
      PublishKeeps(s, a);
    } else {
      PlayKeeps(s, a);
    }
  }

  /** Every reachable state satisfies the invariant. */
  lemma {:induction false} Reachable(pref: Preference, run: seq<Action>)
    requires After(pref, run).Some?
    ensures Inv(After(pref, run).value)
  {
    if run == [] {
      InitialInv(pref);
    } else {
      hide Inv, Step;
      Reachable(pref, run[..|run| - 1]);
      StepKeeps(After(pref, run[..|run| - 1]).value, run[|run| - 1]);
    }
  }

  // ---- main results --------------------------------------------------------

  function Rank(p: Phase): nat
  {
    match p case Idle => 0 case Described => 1 case SetUp => 2 case Playing => 3 case Closed => 4
  }

  /** The terminal error is written once, closed is never left, and the state never goes back. */
  lemma ClosedForGood(pref: Preference, run: seq<Action>, a: Action)
    requires After(pref, run).Some? && Step(After(pref, run).value, a).Some?
    ensures var s := After(pref, run).value; var t := Step(s, a).value;
            && (s.core.phase.Closed? <==> s.core.termErr.Some?)
            && (s.core.termErr.Some? ==> t.core.termErr == s.core.termErr && t.core.phase.Closed?)
            && Rank(s.core.phase) <= Rank(t.core.phase)
  {
    hide After, TracksInv, OwnInv, RegInv, HoldInv, CloseInv, ExpireInv, WireInv, CountInv, LaunchInv, PairAccepted;
    Reachable(pref, run);
  }

  /** A WaitGroup count is taken only while the reader is still in its framing loop, before any join. */
  lemma CountsPrecedeJoins(pref: Preference, run: seq<Action>, a: Action)
    requires After(pref, run).Some? && Step(After(pref, run).value, a).Some?
    ensures var s := After(pref, run).value; var t := Step(s, a).value;
            (t.join.wg > s.join.wg || t.join.udp > s.join.udp) ==> s.reader.Framing? && t.reader.Framing?
  {
    hide After, TracksInv, OwnInv, RegInv, HoldInv, CloseInv, ExpireInv, WireInv, LaunchInv, VerbInv, PairAccepted;
    Reachable(pref, run);
  }

  /**
   Every count reserved is matched by a receiver running or still to be started, never released for
   want of sockets; and once the reader is done no goroutine it had to join is left.
   */
  lemma ReservationsMatched(pref: Preference, run: seq<Action>)
    requires After(pref, run).Some?
    ensures var s := After(pref, run).value;
            && s.join.udp == |s.join.running| + 2 * |Rest(s.verb)|
            && s.join.wg == s.join.timers + (if TimerOwed(s.verb) then 1 else 0)
            && (s.verb.Launching? ==> forall t :: t in s.verb.rest ==> t.id in s.verb.media)
            && (s.reader.Done? ==> s.join.running == {} && Rest(s.verb) == [] && s.join.timers == 0)
  {
    hide After, TermInv, TracksInv, OwnInv, RegInv, HoldInv, CloseInv, ExpireInv, WireInv, VerbInv, ConnsOf, AllApart;
    Reachable(pref, run);
  }

  /** No pair leaks: each is closed, owned by the Setup in progress, or registered for the teardown. */
  lemma SocketsAccountedFor(pref: Preference, run: seq<Action>, p: nat)
    requires After(pref, run).Some? && p < After(pref, run).value.net.made
    ensures var s := After(pref, run).value;
            && (p in s.net.dropped || p in s.net.media.Values || Owned(s.verb) == Some(p))
            && (s.reader.Done? && s.verb.Resting? ==> p in s.net.dropped)
  {
    hide After, TermInv, TracksInv, RegInv, HoldInv, ExpireInv, WireInv, VerbInv, CountInv, LaunchInv;
    Reachable(pref, run);
  }

  /** After the funnel has run, no receive goroutine is left parked on an unexpired read. */
  lemma ReceiversInterrupted(pref: Preference, run: seq<Action>)
    requires After(pref, run).Some?
    ensures var s := After(pref, run).value; s.shut.pc.Spent? ==> s.join.running <= s.net.expired
  {
    hide After, TermInv, TracksInv, OwnInv, RegInv, HoldInv, CloseInv, WireInv, VerbInv, CountInv, AllApart;
    Reachable(pref, run);
    var s := After(pref, run).value;
    assert ConnsOf(s.join.launched) <= ConnsOf(s.net.media.Values);
  }

  /**
   One session, one transport: all tracks share the pinned kind, and no two share an id, a channel
   or a socket pair.
   */
  lemma OneTransport(pref: Preference, run: seq<Action>)
    requires After(pref, run).Some?
    ensures var c := After(pref, run).value.core;
            && AllApart(c.tracks) && (forall t :: t in c.tracks ==> Fits(t, c.pin))
            && (c.pin == Unpinned <==> c.tracks == []) && c.plays <= 1
  {
    hide After, TermInv, OwnInv, RegInv, HoldInv, CloseInv, ExpireInv, WireInv, VerbInv, CountInv, LaunchInv;
    Reachable(pref, run);
  }

  /**
   The write deadline under which the TEARDOWN goes out is in the future unless the interrupt of
   initiateShutdown landed between arming it and the write, exactly then it has expired already.
   */
  lemma TeardownDeadline(pref: Preference, run: seq<Action>)
    requires After(pref, run).Some? && After(pref, run).value.reader.TearWriting?
    ensures var s := After(pref, run).value;
            && s.core.session
            && (s.net.write == Later <==> s.reader.interruptedBefore || !s.shut.shuttingDown)
  {
    hide After, TermInv, TracksInv, OwnInv, RegInv, HoldInv, CloseInv, ExpireInv, VerbInv, CountInv, LaunchInv;
    Reachable(pref, run);
  }

  lemma Extend(pref: Preference, run: seq<Action>, s: State, a: Action) returns (run': seq<Action>, s': State)
    requires After(pref, run) == Some(s) && Step(s, a).Some?
    ensures After(pref, run') == Some(s') && s' == Step(s, a).value
  {
    run', s' := run + [a], Step(s, a).value;
    assert run'[..|run|] == run;
  }

  lemma Started(pref: Preference)
    ensures After(pref, []) == Some(Initial(pref))
  {
  }

  /**
   That race is real: with a session set up, a reader that sees the shutdown early loses its TEARDOWN
   deadline to the interrupt.
   */
  lemma TeardownDeadlineCanBeLost() returns (run: seq<Action>, s: State)
    ensures After(PreferTCP, run) == Some(s) && s.core.session && s.core.tracks != []
    ensures s.reader.TearWriting? && s.net.write == Now
  {
    run, s := SessionSetUp();
    hide After, PairAccepted;
    var pref := PreferTCP;
    run, s := Extend(pref, run, s, Begins(0));
    run, s := Extend(pref, run, s, Shuts);
    run, s := Extend(pref, run, s, Shuts);
    run, s := Extend(pref, run, s, Reads);
    run, s := Extend(pref, run, s, Reads);
    run, s := Extend(pref, run, s, Shuts);
  }

  /** One track described and set up on channels 0 and 1, its session named. */
  lemma SessionSetUp() returns (run: seq<Action>, s: State)
    ensures After(PreferTCP, run) == Some(s)
    ensures s == Initial(PreferTCP).(core := Core(SetUp, None, [Track(0, Channels(0, 1))], PinnedTCP, 0, true))
  {
    hide After;
    var pref := PreferTCP;
    run, s := [], Initial(pref);
    Started(pref);
    run, s := Extend(pref, run, s, Starts(Describe, 0));
    run, s := Extend(pref, run, s, Continues(Accepts));
    run, s := Extend(pref, run, s, Continues(Proceeds));
    run, s := Extend(pref, run, s, Starts(Setup, 0));
    run, s := Extend(pref, run, s, Continues(Assigns(0, 1, true)));
    run, s := Extend(pref, run, s, Continues(Proceeds));
  }

  // ---- progress ------------------------------------------------------------

  /** Steps that cannot be withheld: own steps of shutdown, reader and verb, and goroutines made to leave. */
  predicate Forced(s: State, a: Action)
  {
    match a
    case Shuts => true
    case Reads => true
    case Continues(x) => x == Proceeds || x == Fails
    case Leaves(c) => c in s.net.expired || c.pair in s.net.dropped
    case Ticks => s.shut.closing
    case _ => false
  }

  function VerbRank(v: VerbPC): nat
  {
    match v
    case Resting => 0
    case Describing => 2
    case DescribeCommit => 1
    case OpeningSockets(_, _) => 6
    case OfferingUDP(_, _, _) => 5
    case Dropping(_, next) => 1 + VerbRank(next)
    case OfferingTCP(_) => 2
    case PublishTCP(_, _, _) => 1
    case PublishUDP(_, _) => 4
    case Registering(_, _) => 3
    case Inserting(_, _) => 1
    case OfferingPlay => 2
    case PlayCommit => 1
    case Reserved(rest) => 3 * |rest| + 4
    case Launching(rest, _) => 3 * |rest| + 3
    case LaunchingTimer => 2
  }

  function ShutRank(pc: ShutPC): nat
  {
    match pc
    case Free => 6
    case Noting(_) => 5
    case Signalling => 4
    case Interrupting => 3
    case Snapping => 2
    case Arming(_) => 1
    case Spent => 0
  }

  function ReaderRank(pc: ReaderPC): nat
  {
    match pc
    case Framing => 8
    case LoopEnded => 7
    case TearWriting(_) => 6
    case Snapshotting => 5
    case ClosingPairs(_) => 4
    case JoiningUDP => 3
    case ClosingConn => 2
    case JoiningTimer => 1
    case Done => 0
  }

  /** How many steps there can still be once the terminal error is recorded. */
  function Remaining(s: State): nat
  {
    VerbRank(s.verb) + ShutRank(s.shut.pc) + ReaderRank(s.reader) + |s.join.running| + s.join.timers
  }

  predicate Works(a: Action)
  {
    a.Shuts? || a.Reads? || a.Continues? || a.Leaves? || a.Ticks?
  }

  lemma OneLess(running: set<Conn>, c: Conn)
    requires c in running
    ensures |running - {c}| == |running| - 1
  {
  }

  lemma TwoAtMost(running: set<Conn>, p: nat)
    ensures |running + Both(p)| <= |running| + 2
  {
    var one := running + {Conn(p, false)};
    assert running + Both(p) == one + {Conn(p, true)};
  }

  lemma VerbDescends(s: State, a: Answer)
    requires s.core.termErr.Some? && VerbStep(s, a).Some?
    ensures var t := VerbStep(s, a).value;
            && VerbRank(t.verb) + |t.join.running| + t.join.timers < VerbRank(s.verb) + |s.join.running| + s.join.timers
            && t.shut == s.shut && t.reader == s.reader
  {
    hide PairAccepted, Both;
    if s.verb.Launching? && s.verb.rest != [] && s.verb.rest[0].id in s.verb.media {
      TwoAtMost(s.join.running, s.verb.media[s.verb.rest[0].id]);
    }
  }

  /** A recorded terminal error stays, and the client with it closed. */
  predicate Ending(s: State)
  {
    s.core.termErr.Some? && s.core.phase.Closed?
  }

  lemma ReceiverDescends(s: State, c: Conn)
    requires ReceiverLeaves(s, c).Some?
    ensures Remaining(ReceiverLeaves(s, c).value) < Remaining(s)
    ensures ReceiverArms(s, c).Some? && Remaining(ReceiverArms(s, c).value) <= Remaining(s)
  {
    OneLess(s.join.running, c);
  }

  /** Once the terminal error is recorded, every step of the machinery brings the end nearer and none defers it. */
  lemma WorkDescends(s: State, a: Action)
    requires Ending(s) && Step(s, a).Some?
    ensures var t := Step(s, a).value;
            && t.core.termErr == s.core.termErr
            && Remaining(t) <= Remaining(s)
            && (Works(a) ==> Remaining(t) < Remaining(s))
  {
    hide VerbStep, ReceiverArms, ReceiverLeaves, VerbRank, ConnsOf, ShutStep, ReaderStep;
    match a
    case Continues(x) =>
      VerbDescends(s, x);
      VerbKeepsError(s, x);
    case Arms(c) => ArmsKeepsError(s, c);
    case Leaves(c) => ArmsKeepsError(s, c);
    case Shuts => ShutDescends(s);
    case Reads => ReaderDescends(s);
    case _ =>
  }

  lemma ArmsKeepsError(s: State, c: Conn)
    requires ReceiverArms(s, c).Some? || ReceiverLeaves(s, c).Some?
    ensures ReceiverArms(s, c).Some? && ReceiverLeaves(s, c).Some?
    ensures ReceiverArms(s, c).value.core == s.core && ReceiverLeaves(s, c).value.core == s.core
    ensures Remaining(ReceiverLeaves(s, c).value) < Remaining(s)
    ensures Remaining(ReceiverArms(s, c).value) <= Remaining(s)
  {
    ReceiverDescends(s, c);
  }

  lemma ShutDescends(s: State)
    requires s.core.termErr.Some? && ShutStep(s).Some?
    ensures var t := ShutStep(s).value; t.core.termErr == s.core.termErr && Remaining(t) < Remaining(s)
  {
    hide VerbRank, ReaderRank, ConnsOf;
  }

  lemma ReaderDescends(s: State)
    requires ReaderStep(s).Some?
    ensures var t := ReaderStep(s).value; t.core == s.core && Remaining(t) < Remaining(s)
  {
    hide VerbRank, ShutRank, ConnsOf;
  }

  lemma VerbKeepsError(s: State, a: Answer)
    requires VerbStep(s, a).Some?
    ensures VerbStep(s, a).value.core.termErr == s.core.termErr
  {
    hide PairAccepted;
  }

  /** The machine from `s` on, if every step of the run can happen. */
  function RunFrom(s: State, run: seq<Action>): (r: Option<State>)
  {
    if run == [] then Some(s) else
      var t := RunFrom(s, run[..|run| - 1]);
      if t.None? then None else Step(t.value, run[|run| - 1])
  }

  function WorkIn(run: seq<Action>): nat
  {
    if run == [] then 0 else WorkIn(run[..|run| - 1]) + if Works(run[|run| - 1]) then 1 else 0
  }

  /** With the terminal error recorded only so many steps of the machinery are left, in any interleaving. */
  lemma {:induction false} ShutdownBounded(s: State, run: seq<Action>)
    requires Inv(s) && s.core.termErr.Some? && RunFrom(s, run).Some?
    ensures var t := RunFrom(s, run).value;
            Inv(t) && t.core.termErr == s.core.termErr && WorkIn(run) + Remaining(t) <= Remaining(s)
  {
    hide Inv, Step, Remaining;
    if run != [] {
      ShutdownBounded(s, run[..|run| - 1]);
      var t, a := RunFrom(s, run[..|run| - 1]).value, run[|run| - 1];
      ErrorEnds(t);
      WorkDescends(t, a);
      StepKeeps(t, a);
    }
  }

  lemma ErrorEnds(s: State)
    requires Inv(s) && s.core.termErr.Some?
    ensures Ending(s)
  {
    hide TracksInv, OwnInv, RegInv, HoldInv, CloseInv, ExpireInv, WireInv, VerbInv, CountInv, LaunchInv;
  }

  /** A verb in progress can always go on without its server. */
  lemma VerbCanGoOn(s: State) returns (x: Answer)
    requires Inv(s) && !s.verb.Resting?
    ensures (x == Proceeds || x == Fails) && VerbStep(s, x).Some?
  {
    hide TracksInv, OwnInv, RegInv, CloseInv, ExpireInv, WireInv, CountInv, LaunchInv, VerbInv, TermInv;
    var v := s.verb;
    x := if v.Describing? || v.OpeningSockets? || v.OfferingUDP? || v.OfferingTCP? || v.OfferingPlay? then Fails
         else Proceeds;
  }

  /** Every receiver the reader waits for reads from a socket it has closed. */
  lemma JoinedAreClosed(s: State)
    requires Inv(s) && s.reader.JoiningUDP?
    ensures forall c :: c in s.join.running ==> c.pair in s.net.dropped
  {
    forall c | c in s.join.running
      ensures c.pair in s.net.dropped
    {
      assert c in ConnsOf(s.join.launched);
    }
  }

  /** From the start of a shutdown until the reader is done some step that cannot be withheld is open. */
  lemma NeverHangs(s: State) returns (a: Action)
    requires Inv(s) && !s.shut.pc.Free? && !s.reader.Done?
    ensures Forced(s, a) && Step(s, a).Some?
  {
    hide TracksInv, OwnInv, RegInv, CloseInv, ExpireInv, WireInv, LaunchInv, VerbInv, VerbStep;
    a := Reads;
    if !s.verb.Resting? {
      var x := VerbCanGoOn(s);
      a := Continues(x);
    } else if ShutStep(s).Some? {
      a := Shuts;
    } else if s.reader.JoiningUDP? && s.join.udp != 0 {
      JoinedAreClosed(s);
      assert s.join.running != {};
      var c :| c in s.join.running;
      a := Leaves(c);
    } else if s.reader.JoiningTimer? && s.join.wg != 0 {
      a := Ticks;
    }
  }

  /**
   Teardown cannot hang: in every run, once a terminal error is recorded the machinery has a bounded
   number of steps left, and while the reader is not done one that cannot be withheld is open.
   */
  lemma TeardownCompletes(pref: Preference, run: seq<Action>, more: seq<Action>) returns (a: Action)
    requires After(pref, run).Some? && After(pref, run).value.core.termErr.Some?
    requires RunFrom(After(pref, run).value, more).Some?
    ensures var s := After(pref, run).value; var t := RunFrom(s, more).value;
            && WorkIn(more) + Remaining(t) <= Remaining(s)
            && (!t.reader.Done? ==> Forced(t, a) && Works(a) && Step(t, a).Some?)
  {
    hide Inv, Step, Remaining, After;
    Reachable(pref, run);
    var s := After(pref, run).value;
    ShutdownBounded(s, more);
    var t := RunFrom(s, more).value;
    a := Shuts;
    if !t.reader.Done? {
      ShutdownBegun(t);
      a := NeverHangs(t);
    }
  }

  lemma ShutdownBegun(s: State)
    requires Inv(s) && s.core.termErr.Some?
    ensures !s.shut.pc.Free?
  {
    hide TracksInv, OwnInv, RegInv, HoldInv, CloseInv, ExpireInv, WireInv, VerbInv, CountInv, LaunchInv;
  }

  // ---- proposing a channel pair --------------------------------------------

  predicate AboveAll(tracks: seq<Track>, n: nat, b: int)
  {
    forall i :: 0 <= i < n <= |tracks| && tracks[i].carrier.Channels? ==>
      tracks[i].carrier.rtp < b && tracks[i].carrier.rtcp < b
  }

  lemma AboveOneMore(tracks: seq<Track>, n: nat, b: int)
    requires n < |tracks|
    ensures AboveAll(tracks, n + 1, b) <==>
              && AboveAll(tracks, n, b)
              && (tracks[n].carrier.Channels? ==> tracks[n].carrier.rtp < b && tracks[n].carrier.rtcp < b)
  {
  }

  /** The lowest even channel above every claimed one, unless the channel space is exhausted. */
  method NextChannelPair(tracks: seq<Track>) returns (base: int, ok: bool)
    ensures base >= 0 && base % 2 == 0 && AboveAll(tracks, |tracks|, base)
    ensures forall b :: 0 <= b < base && b % 2 == 0 ==> !AboveAll(tracks, |tracks|, b)
    ensures ok <==> base + 1 <= MaxChannel
  {
    base := 0;
    var i := 0;
    while i < |tracks|
      invariant 0 <= i <= |tracks| && base >= 0 && AboveAll(tracks, i, base)
      invariant forall b :: 0 <= b < base ==> !AboveAll(tracks, i, b)
    {
      ghost var before := base;
      if tracks[i].carrier.Channels? {
        var rtp, rtcp := tracks[i].carrier.rtp, tracks[i].carrier.rtcp;
        if rtp >= base {
          base := rtp + 1;
        }
        if rtcp >= base {
          base := rtcp + 1;
        }
      }
      i := i + 1;
      forall b | 0 <= b < base
        ensures !AboveAll(tracks, i, b)
      {
        AboveOneMore(tracks, i - 1, b);
        assert b < before ==> !AboveAll(tracks, i - 1, b);
      }
    }
    if base % 2 != 0 {
      base := base + 1;
    }
    ok := base + 1 <= MaxChannel;
  }

  /** A server that honours the proposal is never turned away for a conflict. */
  lemma ProposalAccepted(tracks: seq<Track>, base: int)
    requires base >= 0 && AboveAll(tracks, |tracks|, base) && base + 1 <= MaxChannel
    ensures PairAccepted(tracks, base, base + 1)
  {
    forall t | t in tracks && t.carrier.Channels?
      ensures t.carrier.rtp < base && t.carrier.rtcp < base
    {
      var i :| 0 <= i < |tracks| && tracks[i] == t;
    }
  }
}
