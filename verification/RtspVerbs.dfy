/**
 What the lifecycle verbs of the RTSP client accomplish: the course of each of them, the order they can
 come in, and that nothing else the client does takes part in them.
 */
module RtspVerbs {
  import opened RtspLifecycle

  /** The state after actions in turn, if each can happen. */
  function Do(s: State, actions: seq<Action>): Option<State>
    decreases |actions|
  {
    if actions == [] then Some(s) else
      var t := Step(s, actions[0]);
      if t.None? then None else Do(t.value, actions[1..])
  }

  lemma DoOne(s: State, a: Action, more: seq<Action>)
    ensures Do(s, [a] + more) == if Step(s, a).None? then None else Do(Step(s, a).value, more)
  {
    assert ([a] + more)[1..] == more;
  }

  lemma DoNothing(s: State)
    ensures Do(s, []) == Some(s)
  {
  }

  const Goes: Action := Continues(Proceeds)

  /** A client between verbs, with no terminal error and no shutdown begun. */
  predicate Ready(s: State)
  {
    s.verb.Resting? && s.core.termErr.None? && !s.shut.closing && !s.net.held
  }

  // ---- each verb -----------------------------------------------------------

  lemma DescribeDoes(s: State, id: nat)
    requires Ready(s) && s.core.phase == Idle
    ensures Do(s, [Starts(Describe, id), Continues(Accepts), Goes]) == Some(s.(core := s.core.(phase := Described)))
    ensures Do(s, [Starts(Describe, id), Continues(Fails)]) == Some(s)
  {
    var a, b, c := Starts(Describe, id), Continues(Accepts), Continues(Fails);
    assert [a, b, Goes] == [a] + ([b] + ([Goes] + [])) && [a, c] == [a] + ([c] + []);
    var s1 := Step(s, a).value;
    var s2 := Step(s1, b).value;
    hide Step;
    DoOne(s, a, [b] + ([Goes] + []));
    DoOne(s, a, [c] + []);
    DoOne(s1, b, [Goes] + []);
    DoOne(s1, c, []);
    DoOne(s2, Goes, []);
    assert Step(s, a) == Some(s1) && Step(s1, b) == Some(s2) && Step(s1, c) == Some(s)
        && Step(s2, Goes) == Some(s.(core := s.core.(phase := Described))) by { DescribeSteps(s, id); }
    DoNothing(s);
    DoNothing(s.(core := s.core.(phase := Described)));
  }

  lemma DescribeSteps(s: State, id: nat)
    requires Ready(s) && s.core.phase == Idle
    ensures var s1 := s.(verb := Describing);
            && Step(s, Starts(Describe, id)) == Some(s1) && Step(s1, Continues(Fails)) == Some(s)
            && Step(s1, Continues(Accepts)) == Some(s.(verb := DescribeCommit))
            && Step(s.(verb := DescribeCommit), Goes) == Some(s.(core := s.core.(phase := Described)))
  {
  }

  /** Where a Setup goes first: UDP unless TCP is pinned or, nothing being pinned, preferred. */
  predicate TriesUDP(s: State)
  {
    s.core.pin == PinnedUDP || (s.core.pin == Unpinned && s.pref != PreferTCP)
  }

  /** And may a refusal there go on to TCP: only while nothing is pinned, and when that was asked for. */
  predicate FallsBack(s: State)
  {
    s.core.pin == Unpinned && s.pref == PreferUDPThenTCP
  }

  /** A client ready for the Setup of a new track. */
  predicate ReadyFor(s: State, id: nat)
  {
    Ready(s) && (s.core.phase == Described || s.core.phase == SetUp) && FreshId(s.core.tracks, id)
  }

  /** What a Setup has added when it succeeds. */
  function WithTrack(s: State, t: Track, named: bool): State
  {
    s.(verb := Resting,
       core := s.core.(tracks := s.core.tracks + [t], phase := SetUp, session := s.core.session || named,
                       pin := if t.carrier.Channels? then PinnedTCP else PinnedUDP))
  }

  lemma NotThere(tracks: seq<Track>, id: nat)
    requires FreshId(tracks, id)
    ensures !exists t :: t in tracks && t.id == id
  {
  }

  /** From the offer on: the track has exactly the channels assigned, or there is none when they will not do. */
  lemma OfferTCPDoes(s: State, id: nat, rtp: int, rtcp: int, named: bool)
    requires s.verb == OfferingTCP(id) && s.core.termErr.None?
    ensures var answered := Continues(Assigns(rtp, rtcp, named));
            if PairAccepted(s.core.tracks, rtp, rtcp) then
              Do(s, [answered, Goes]) == Some(WithTrack(s, Track(id, Channels(rtp, rtcp)), named))
            else Do(s, [answered]) == Some(Recorded(s, named).(verb := Resting))
  {
    hide PairAccepted;
    var a := Continues(Assigns(rtp, rtcp, named));
    assert [a, Goes] == [a] + ([Goes] + []) && [a] == [a] + [];
    DoOne(s, a, [Goes] + []);
    DoOne(s, a, []);
    var t := Step(s, a).value;
    DoOne(t, Goes, []);
  }

  lemma SetupTCPStarts(s: State, id: nat)
    requires ReadyFor(s, id) && !TriesUDP(s)
    ensures Step(s, Starts(Setup, id)) == Some(s.(verb := OfferingTCP(id)))
  {
    NotThere(s.core.tracks, id);
  }

  /** Setup over TCP. */
  lemma SetupTCPDoes(s: State, id: nat, rtp: int, rtcp: int, named: bool)
    requires ReadyFor(s, id) && !TriesUDP(s)
    ensures var answered := Continues(Assigns(rtp, rtcp, named));
            if PairAccepted(s.core.tracks, rtp, rtcp) then
              Do(s, [Starts(Setup, id)] + [answered, Goes]) == Some(WithTrack(s, Track(id, Channels(rtp, rtcp)), named))
            else Do(s, [Starts(Setup, id)] + [answered]) == Some(Recorded(s, named))
  {
    hide Step, PairAccepted, Do, FreshId, TriesUDP;
    var a := Continues(Assigns(rtp, rtcp, named));
    SetupTCPStarts(s, id);
    var o := s.(verb := OfferingTCP(id));
    DoOne(s, Starts(Setup, id), [a, Goes]);
    DoOne(s, Starts(Setup, id), [a]);
    OfferTCPDoes(o, id, rtp, rtcp, named);
  }

  /** A fresh socket pair, in hand. */
  function Offering(s: State, id: nat): State
  {
    s.(verb := OfferingUDP(id, s.net.made, FallsBack(s)), net := s.net.(made := s.net.made + 1))
  }

  lemma SetupUDPStarts(s: State, id: nat)
    requires ReadyFor(s, id) && TriesUDP(s)
    ensures Step(s, Starts(Setup, id)) == Some(s.(verb := OpeningSockets(id, FallsBack(s))))
    ensures Step(s.(verb := OpeningSockets(id, FallsBack(s))), Goes) == Some(Offering(s, id))
    ensures Step(s.(verb := OpeningSockets(id, FallsBack(s))), Continues(Fails)) == Some(s)
  {
    NotThere(s.core.tracks, id);
  }

  /** Setup over UDP with usable server ports: the track has the pair just opened, and it is registered. */
  lemma SetupUDPDoes(s: State, id: nat, named: bool)
    requires ReadyFor(s, id) && TriesUDP(s)
    ensures var p := s.net.made;
            var net := s.net.(made := p + 1, media := s.net.media[id := p]);
            Do(s, [Starts(Setup, id)] + ([Goes] + [Continues(Offers(named)), Goes, Goes, Goes]))
            == Some(WithTrack(s, Track(id, Sockets(p)), named).(net := net))
  {
    hide Step, Do, FreshId, TriesUDP, FallsBack;
    SetupUDPStarts(s, id);
    var tail := [Continues(Offers(named)), Goes, Goes, Goes];
    DoOne(s, Starts(Setup, id), [Goes] + tail);
    DoOne(s.(verb := OpeningSockets(id, FallsBack(s))), Goes, tail);
    OfferUDPDoes(Offering(s, id), id, s.net.made, FallsBack(s), named);
  }

  lemma OfferUDPDoes(s: State, id: nat, p: nat, fallback: bool, named: bool)
    requires s.verb == OfferingUDP(id, p, fallback) && s.core.termErr.None? && !s.shut.closing && !s.net.held
    ensures Do(s, [Continues(Offers(named)), Goes, Goes, Goes])
            == Some(WithTrack(s, Track(id, Sockets(p)), named).(net := s.net.(media := s.net.media[id := p])))
  {
    var a := Continues(Offers(named));
    assert [a, Goes, Goes, Goes] == [a] + ([Goes] + ([Goes] + ([Goes] + [])));
    var s1 := Recorded(s, named).(verb := PublishUDP(id, p));
    var s2 := WithTrack(s, Track(id, Sockets(p)), named).(verb := Registering(id, p));
    var s3 := s2.(verb := Inserting(id, p), net := s.net.(held := true));
    var s4 := s2.(verb := Resting, net := s.net.(media := s.net.media[id := p]));
    hide Step, Do, WithTrack;
    assert Step(s, a) == Some(s1) && Step(s1, Goes) == Some(s2) by { PublishSteps(s, id, p, fallback, named); }
    assert Step(s2, Goes) == Some(s3) && Step(s3, Goes) == Some(s4) by { RegisterSteps(s, s2, id, p, named); }
    DoOne(s, a, [Goes] + ([Goes] + ([Goes] + [])));
    DoOne(s1, Goes, [Goes] + ([Goes] + []));
    DoOne(s2, Goes, [Goes] + []);
    DoOne(s3, Goes, []);
    DoNothing(s4);
    assert WithTrack(s, Track(id, Sockets(p)), named).verb == Resting by { TrackRests(s, Track(id, Sockets(p)), named); }
  }

  lemma TrackRests(s: State, t: Track, named: bool)
    ensures WithTrack(s, t, named).verb == Resting && WithTrack(s, t, named).net == s.net
    ensures WithTrack(s, t, named).shut == s.shut
  {
  }

  lemma PublishSteps(s: State, id: nat, p: nat, fallback: bool, named: bool)
    requires s.verb == OfferingUDP(id, p, fallback) && s.core.termErr.None?
    ensures var s1 := Recorded(s, named).(verb := PublishUDP(id, p));
            && Step(s, Continues(Offers(named))) == Some(s1)
            && Step(s1, Goes) == Some(WithTrack(s, Track(id, Sockets(p)), named).(verb := Registering(id, p)))
  {
  }

  lemma RegisterSteps(s: State, t: State, id: nat, p: nat, named: bool)
    requires !s.shut.closing && !s.net.held
    requires t == WithTrack(s, Track(id, Sockets(p)), named).(verb := Registering(id, p))
    ensures var u := t.(verb := Inserting(id, p), net := s.net.(held := true));
            && Step(t, Goes) == Some(u)
            && Step(u, Goes) == Some(t.(verb := Resting, net := s.net.(media := s.net.media[id := p])))
  {
  }

  /**
   Setup over UDP that comes to nothing: the pair is closed again, and a refusal, when falling back is
   allowed, goes on to the offer over TCP; no track is added either way.
   */
  lemma SetupUDPFails(s: State, id: nat, x: Answer)
    requires ReadyFor(s, id) && TriesUDP(s) && (x == Refused || x == Fails || x.Unusable?)
    ensures var named := x.Unusable? && x.named;
            Do(s, [Starts(Setup, id)] + ([Goes] + [Continues(x), Goes]))
            == Some(Recorded(s, named).(verb := if x == Refused && FallsBack(s) then OfferingTCP(id) else Resting,
                                        net := s.net.(made := s.net.made + 1, dropped := s.net.dropped + {s.net.made})))
  {
    SetupUDPStarts(s, id);
    var o, tail := Offering(s, id), [Continues(x), Goes];
    DoOne(s, Starts(Setup, id), [Goes] + tail);
    DoOne(s.(verb := OpeningSockets(id, FallsBack(s))), Goes, tail);
    assert tail == [Continues(x)] + ([Goes] + []);
    DoOne(o, Continues(x), [Goes] + []);
    DoOne(Step(o, Continues(x)).value, Goes, []);
    DoNothing(Step(Step(o, Continues(x)).value, Goes).value);
  }

  // ---- play ----------------------------------------------------------------

  function Times(n: nat): seq<Action>
  {
    if n == 0 then [] else [Goes] + Times(n - 1)
  }

  /** The socket pairs of UDP tracks. */
  function Pairs(tracks: seq<Track>): set<nat>
  {
    set t <- tracks | t.carrier.Sockets? :: t.carrier.pair
  }

  /** Receivers running for these pairs too. */
  function Launched(j: Join, pairs: set<nat>): Join
  {
    j.(running := j.running + ConnsOf(pairs), launched := j.launched + pairs)
  }

  predicate Registered(tracks: seq<Track>, media: map<nat, nat>)
  {
    forall t :: t in tracks ==> t.id in media && t.carrier == Sockets(media[t.id])
  }

  lemma PairsCons(tracks: seq<Track>, media: map<nat, nat>)
    requires tracks != [] && Registered(tracks, media)
    ensures Pairs(tracks) == {media[tracks[0].id]} + Pairs(tracks[1..])
    ensures Registered(tracks[1..], media)
  {
    assert tracks == [tracks[0]] + tracks[1..];
  }

  lemma LaunchedTrans(j: Join, p: nat, pairs: set<nat>)
    ensures var one := j.(running := j.running + Both(p), launched := j.launched + {p});
            Launched(one, pairs) == Launched(j, {p} + pairs)
  {
    assert ConnsOf({p} + pairs) == Both(p) + ConnsOf(pairs);
  }

  /** Both receivers of every track are started. */
  lemma {:induction false} LaunchingDoes(s: State, rest: seq<Track>, media: map<nat, nat>)
    requires s.verb == Launching(rest, media) && Registered(rest, media)
    ensures Do(s, Times(|rest| + 1)) == Some(s.(verb := LaunchingTimer, join := Launched(s.join, Pairs(rest))))
    decreases |rest|
  {
    DoOne(s, Goes, Times(|rest|));
    if rest == [] {
      DoNothing(s.(verb := LaunchingTimer));
      assert Launched(s.join, Pairs(rest)) == s.join;
    } else {
      hide Registered, Pairs, Launched;
      assert rest[0].id in media by { PairsCons(rest, media); FirstRegistered(rest, media); }
      var p := media[rest[0].id];
      var join := s.join.(running := s.join.running + Both(p), launched := s.join.launched + {p});
      var t := s.(verb := Launching(rest[1..], media), join := join);
      assert Step(s, Goes) == Some(t);
      hide Step, Do;
      PairsCons(rest, media);
      LaunchingDoes(t, rest[1..], media);
      LaunchedTrans(s.join, p, Pairs(rest[1..]));
    }
  }

  lemma FirstRegistered(tracks: seq<Track>, media: map<nat, nat>)
    requires tracks != [] && Registered(tracks, media)
    ensures tracks[0].id in media
  {
  }

  /** What Play has done when it succeeds, before the receivers start. */
  function Playing(s: State): State
  {
    var udp := s.core.pin == PinnedUDP;
    s.(core := s.core.(phase := Phase.Playing, plays := s.core.plays + 1),
       join := s.join.(wg := s.join.wg + 1, udp := s.join.udp + (if udp then 2 * |s.core.tracks| else 0)))
  }

  lemma PlayStarts(s: State, id: nat)
    requires Ready(s) && s.core.phase == SetUp
    ensures Step(s, Starts(Play, id)) == Some(s.(verb := OfferingPlay))
    ensures Step(s.(verb := OfferingPlay), Continues(Accepts)) == Some(s.(verb := PlayCommit))
    ensures Step(s.(verb := PlayCommit), Goes)
            == Some(Playing(s).(verb := if s.core.pin == PinnedUDP then Reserved(s.core.tracks) else LaunchingTimer))
  {
  }

  lemma PlayingKeeps(s: State)
    requires s.verb.Resting?
    ensures Playing(s).net == s.net && Playing(s).join.timers == s.join.timers && Playing(s).verb == Resting
  {
  }

  /** Play over TCP: playing, with the timer goroutine started and joined later. */
  lemma PlayTCPDoes(s: State, id: nat)
    requires Ready(s) && s.core.phase == SetUp && s.core.pin != PinnedUDP
    ensures Do(s, [Starts(Play, id)] + ([Continues(Accepts)] + ([Goes] + Times(1))))
            == Some(Playing(s).(join := Playing(s).join.(timers := s.join.timers + 1)))
  {
    hide Step, Do, Playing;
    PlayStarts(s, id);
    PlayingKeeps(s);
    var c := Playing(s).(verb := LaunchingTimer);
    DoOne(s, Starts(Play, id), [Continues(Accepts)] + ([Goes] + Times(1)));
    DoOne(s.(verb := OfferingPlay), Continues(Accepts), [Goes] + Times(1));
    DoOne(s.(verb := PlayCommit), Goes, Times(1));
    TimerDoes(c);
  }

  lemma TimerDoes(s: State)
    requires s.verb == LaunchingTimer
    ensures Do(s, Times(1)) == Some(s.(verb := Resting, join := s.join.(timers := s.join.timers + 1)))
  {
    DoOne(s, Goes, Times(0));
  }

  /** From the reservation on. */
  lemma ReservedDoes(c: State)
    requires c.verb.Reserved? && !c.net.held && Registered(c.verb.rest, c.net.media)
    ensures var rest := c.verb.rest;
            Do(c, [Goes] + (Times(|rest| + 1) + Times(1)))
            == Some(c.(verb := Resting, join := Launched(c.join, Pairs(rest)).(timers := c.join.timers + 1)))
  {
    var rest := c.verb.rest;
    var l := c.(verb := Launching(rest, c.net.media));
    var t := l.(verb := LaunchingTimer, join := Launched(l.join, Pairs(rest)));
    assert Step(c, Goes) == Some(l) by { SnapshotDoes(c); }
    hide Step, Do, Launched, Pairs, Registered;
    DoOne(c, Goes, Times(|rest| + 1) + Times(1));
    LaunchingDoes(l, rest, c.net.media);
    DoBoth(l, Times(|rest| + 1), Times(1));
    TimerDoes(t);
    LaunchedKeepsTimers(l.join, Pairs(rest));
  }

  /** Play over UDP: both receivers of every track that was set up run as well. */
  lemma PlayUDPDoes(s: State, id: nat)
    requires Ready(s) && Inv(s) && s.core.phase == SetUp && s.core.pin == PinnedUDP
    ensures var n := |s.core.tracks|;
            Do(s, [Starts(Play, id)] + ([Continues(Accepts)] + ([Goes] + ([Goes] + (Times(n + 1) + Times(1))))))
            == Some(Playing(s).(join := Launched(Playing(s).join, Pairs(s.core.tracks)).(timers := s.join.timers + 1)))
  {
    hide Inv, Step, Do, Launched, Pairs, Registered, Playing, LegalIn;
    SetUpRegistered(s);
    PlayStarts(s, id);
    PlayingKeeps(s);
    var tail := [Goes] + (Times(|s.core.tracks| + 1) + Times(1));
    var c := Playing(s).(verb := Reserved(s.core.tracks));
    DoOne(s, Starts(Play, id), [Continues(Accepts)] + ([Goes] + tail));
    DoOne(s.(verb := OfferingPlay), Continues(Accepts), [Goes] + tail);
    DoOne(s.(verb := PlayCommit), Goes, tail);
    ReservedDoes(c);
  }

  lemma LaunchedKeepsTimers(j: Join, pairs: set<nat>)
    ensures Launched(j, pairs).timers == j.timers
  {
  }

  lemma SnapshotDoes(s: State)
    requires s.verb.Reserved? && !s.net.held
    ensures Step(s, Goes) == Some(s.(verb := Launching(s.verb.rest, s.net.media)))
  {
  }

  lemma {:induction false} DoBoth(s: State, a: seq<Action>, b: seq<Action>)
    ensures Do(s, a + b) == if Do(s, a).None? then None else Do(Do(s, a).value, b)
    decreases |a|
  {
    hide Step;
    if a == [] {
      assert a + b == b;
    } else {
      assert (a + b)[1..] == a[1..] + b;
      if Step(s, a[0]).Some? {
        DoBoth(Step(s, a[0]).value, a[1..], b);
      }
    }
  }

  /** Between verbs and before a shutdown every UDP track is registered. */
  lemma SetUpRegistered(s: State)
    requires Inv(s) && Ready(s) && s.core.pin == PinnedUDP
    ensures Registered(s.core.tracks, s.net.media)
  {
    hide TermInv, OwnInv, HoldInv, CloseInv, ExpireInv, WireInv, CountInv, LaunchInv, AllApart;
  }

  // ---- order ---------------------------------------------------------------

  /** A verb that may not start, or the Setup of a track that is there, changes nothing. */
  lemma OutOfOrder(s: State, v: Verb, id: nat)
    requires s.verb.Resting?
    ensures var p := s.core.phase;
            Step(s, Starts(v, id)) == Some(s) <==>
            match v
            case Describe => p != Idle
            case Setup => (p != Described && p != SetUp) || exists t :: t in s.core.tracks && t.id == id
            case Play => p != SetUp
  {
  }

  /** The phase says what has been done. */
  predicate Reached(c: Core)
  {
    && (c.phase == Idle || c.phase == Described ==> c.tracks == [] && c.plays == 0)
    && (c.phase == SetUp ==> c.tracks != [] && c.plays == 0)
    && (c.phase == Phase.Playing ==> c.tracks != [] && c.plays == 1)
  }

  lemma ReachedKept(s: State, a: Action)
    requires Inv(s) && Reached(s.core) && Step(s, a).Some?
    ensures Reached(Step(s, a).value.core)
  {
    hide OwnInv, RegInv, HoldInv, CloseInv, ExpireInv, WireInv, CountInv, LaunchInv, PairAccepted, AllApart;
  }

  /** In every run: described before any track, playing only with tracks, played at most once. */
  lemma {:induction false} VerbsInOrder(pref: Preference, run: seq<Action>)
    requires After(pref, run).Some?
    ensures Reached(After(pref, run).value.core)
  {
    if run != [] {
      hide Inv, Step, Reached;
      VerbsInOrder(pref, run[..|run| - 1]);
      Reachable(pref, run[..|run| - 1]);
      ReachedKept(After(pref, run[..|run| - 1]).value, run[|run| - 1]);
    }
  }

  /** Nothing but the verbs moves a verb, its tracks or its sockets; a shutdown only closes the phase. */
  lemma OthersApart(s: State, a: Action)
    requires !a.Starts? && !a.Continues? && Step(s, a).Some?
    ensures var t := Step(s, a).value;
            && t.verb == s.verb && t.core.tracks == s.core.tracks && t.core.pin == s.core.pin
            && t.core.plays == s.core.plays && t.core.session == s.core.session
            && t.net.media == s.net.media && t.net.made == s.net.made && t.net.held == s.net.held
            && (t.core.phase == s.core.phase || t.core.phase == Closed)
            && t.join.launched == s.join.launched && t.join.running <= s.join.running
  {
  }
}
