/**
 The reconnecting supervisor as a machine of atomic steps: one supervising goroutine, any number
 of Close and Wait callers, and a user-supplied Factory, Retryable and source that may panic.
 A step is one critical section, one call into user code, or one channel operation.
 */
module Supervisor {
  import B = Backoff

  datatype Option<T> = None | Some(value: T)

  datatype Err =
    | Closed                  // the local Close
    | CtxEnded(caller: nat)   // the context of one Wait call
    | Canceled | Redirect | DeadlineExceeded
    | NilSource               // a Factory that returned neither source nor error
    | Session(id: nat)        // any other failure of a connect or of a session
    | Panicked(id: nat)

  datatype Phase = Connecting | Connected | Reconnecting | ClosedPhase | Failed {
    predicate Terminal() { ClosedPhase? || Failed? }
  }

  datatype Change = Change(phase: Phase, attempt: nat, err: Option<Err>, backoff: int)

  /** The retry policy: the default one, or the caller's, which may or may not refuse a nil error. */
  datatype Policy = Default | Custom(refusesNil: bool)

  datatype Config = Config(policy: Policy, schedule: B.Config)

  predicate DefaultRetryable(cause: Option<Err>)
  {
    match cause
    case None => true
    case Some(e) => !(e.Canceled? || e.DeadlineExceeded? || e.Closed? || e.Redirect?)
  }

  /** May the policy answer `retry` for `cause`? */
  predicate MayAnswer(p: Policy, cause: Option<Err>, retry: bool)
  {
    match p
    case Default => retry == DefaultRetryable(cause)
    case Custom(refusesNil) => cause == None && !refusesNil ==> retry
  }

  /** Where the supervising goroutine is. */
  datatype PC =
    | Top(attempt: nat)
    | Announce(change: Change, next: PC)               // phase recorded, OnState not yet called
    | InFactory(attempt: nat)
    | FactoryFailed(attempt: nat, err: Err)
    | Deciding(attempt: nat, cause: Option<Err>)       // Retryable running
    | Scheduling(attempt: nat, cause: Option<Err>)
    | Sleeping(attempt: nat)
    | Publishing(src: nat)
    | InSession(src: nat)                              // the source's Wait running
    | Capturing(src: nat, cause: Option<Err>)          // the source's Stats and Info running
    | Closing(src: nat, cause: Option<Err>)
    | Retracting(cause: Option<Err>)
    | SessionOver(cause: Option<Err>)
    | EndingClosed
    | EndingFailed(cause: Option<Err>)
    | Recovering(panic: Err)
    | RecoverClosing(src: nat, panic: Err)
    | RecoverCancelling(panic: Err)
    | Deferred
    | Releasing
    | Gone

  /** The once guarding shutdown: free, held by a caller with its cause, or spent. */
  datatype Once = Free | Held(cause: Err, recorded: bool) | Spent

  datatype Waiter = Blocked | Shutting | Draining | Returned(result: Option<Err>)

  /** Who ran its critical section on the terminal error first. */
  datatype Side = Nobody | Shutdown | Loop

  datatype State = State(
    pc: PC,
    cancelled: bool,
    done: bool,
    termErr: Option<Err>,
    phase: Phase,
    current: Option<nat>,
    once: Once,
    waiters: map<nat, Waiter>,
    log: seq<Change>,        // the transitions OnState was given
    handed: nat,             // sources the Factory handed over
    closes: seq<nat>,        // Close calls on sources, in order
    first: Side)

  const Initial: State :=
    State(Top(0), false, false, None, Connecting, None, Free, map[], [], 0, [], Nobody)

  /** What the supervising goroutine's environment answers. */
  datatype Move =
    | Go                             // a step of its own
    | Connects | ConnectsNil | ConnectFails(err: Err)
    | Ends(cause: Option<Err>)
    | Answers(retry: bool)
    | Draws(r: real)
    | Wakes(elapsed: bool)
    | Panics(id: nat)

  datatype Action =
    | Own(move: Move)
    | CallsClose
    | CallsWait(id: nat)
    | CtxEnds(id: nat)
    | EntersOnce(id: nat)
    | PassesOnce(id: nat)
    | Records
    | Fires
    | Returns(id: nat)

  /** Records a phase and goes on to announce it. */
  function Announcing(s: State, c: Change, next: PC): State
  {
    s.(phase := c.phase, pc := Announce(c, next))
  }

  /** The critical section ending the loop without a cancellation: the first cause wins. */
  function Finish(s: State, cause: Option<Err>): State
  {
    var lost := s.termErr.Some?;
    var err := if lost then s.termErr else cause;
    Announcing(s.(termErr := err, first := if s.first.Nobody? then Loop else s.first),
               Change(if lost then ClosedPhase else Failed, 0, err, 0), Deferred)
  }

  /** The critical section ending the loop on a cancellation, with its defensive default. */
  function FinishClosed(s: State): State
  {
    var err := if s.termErr.Some? then s.termErr else Some(Canceled);
    Announcing(s.(termErr := err, first := if s.first.Nobody? then Loop else s.first),
               Change(ClosedPhase, 0, err, 0), Deferred)
  }

  /** Steps on the way to a session: connecting, deciding on a failure, backing off. */
  function ConnectStep(cfg: Config, s: State, m: Move): (r: Option<State>)
  {
    match s.pc
    case Top(a) =>
      if m != Go then None
      else if s.cancelled then Some(s.(pc := EndingClosed))
      else Some(Announcing(s, Change(Connecting, a, None, 0), InFactory(a)))
    case Announce(c, next) =>
      if m != Go then None else Some(s.(log := s.log + [c], pc := next))
    case InFactory(a) =>
      (match m
       case Connects => Some(s.(handed := s.handed + 1, pc := Publishing(s.handed)))
       case ConnectsNil => Some(s.(pc := FactoryFailed(a, NilSource)))
       case ConnectFails(e) => Some(s.(pc := FactoryFailed(a, e)))
       case Panics(id) => Some(s.(pc := Recovering(Panicked(id))))
       case _ => None)
    case FactoryFailed(a, e) =>
      if m != Go then None
      else Some(s.(pc := if s.cancelled then EndingClosed else Deciding(a, Some(e))))
    case Deciding(a, cause) =>
      (match m
       case Answers(retry) =>
         if !MayAnswer(cfg.policy, cause, retry) then None
         else Some(s.(pc := if retry then Scheduling(a + 1, cause) else EndingFailed(cause)))
       case Panics(id) => Some(s.(pc := Recovering(Panicked(id))))
       case _ => None)
    case Scheduling(a, cause) =>
      if m.Draws? && 0.0 <= m.r < 1.0 then
        Some(Announcing(s, Change(Reconnecting, a, cause, B.Jittered(cfg.schedule, a, m.r).Floor), Sleeping(a)))
      else None
    case Sleeping(a) =>
      if m.Wakes? && (m.elapsed || s.cancelled) then
        Some(s.(pc := if m.elapsed then Top(a) else EndingClosed))
      else None
    case _ => None
  }

  /** Steps of one session, from publishing its source to retracting it. */
  function SessionStep(s: State, m: Move): (r: Option<State>)
  {
    match s.pc
    case Publishing(src) =>
      if m != Go then None
      else Some(Announcing(s.(current := Some(src)), Change(Connected, 0, None, 0), InSession(src)))
    case InSession(src) =>
      (match m
       case Ends(cause) => Some(s.(pc := Capturing(src, cause)))
       case Panics(id) => Some(s.(pc := Recovering(Panicked(id))))
       case _ => None)
    case Capturing(src, cause) =>
      (match m
       case Go => Some(s.(pc := Closing(src, cause)))
       case Panics(id) => Some(s.(pc := Recovering(Panicked(id))))
       case _ => None)
    case Closing(src, cause) =>
      if m != Go then None else Some(s.(closes := s.closes + [src], pc := Retracting(cause)))
    case Retracting(cause) =>
      if m != Go then None else Some(s.(current := None, pc := SessionOver(cause)))
    case SessionOver(cause) =>
      if m != Go then None
      else Some(s.(pc := if s.cancelled then EndingClosed else Deciding(0, cause)))
    case _ => None
  }

  /** Steps that end the supervisor, and the recovery from a panic. */
  function EndStep(s: State, m: Move): (r: Option<State>)
  {
    match s.pc
    case EndingClosed =>
      if m != Go then None else Some(FinishClosed(s))
    case EndingFailed(cause) =>
      if m != Go then None else Some(Finish(s, cause))
    case Recovering(e) =>
      if m != Go then None
      else Some(s.(current := None,
                   pc := if s.current.Some? then RecoverClosing(s.current.value, e) else RecoverCancelling(e)))
    case RecoverClosing(src, e) =>
      if m != Go then None else Some(s.(closes := s.closes + [src], pc := RecoverCancelling(e)))
    case RecoverCancelling(e) =>
      if m != Go then None else Some(s.(cancelled := true, pc := EndingFailed(Some(e))))
    case Deferred =>
      if m != Go then None else Some(s.(cancelled := true, pc := Releasing))
    case Releasing =>
      if m != Go then None else Some(s.(done := true, pc := Gone))
    case _ => None
  }

  /** One step of the supervising goroutine, or nothing when `m` is not what it is waiting for. */
  function OwnStep(cfg: Config, s: State, m: Move): (r: Option<State>)
  {
    if InConnect(s.pc) then ConnectStep(cfg, s, m)
    else if InSessionSteps(s.pc) then SessionStep(s, m)
    else EndStep(s, m)
  }

  predicate InConnect(pc: PC)
  {
    pc.Top? || pc.Announce? || pc.InFactory? || pc.FactoryFailed? || pc.Deciding? || pc.Scheduling? || pc.Sleeping?
  }

  predicate InSessionSteps(pc: PC)
  {
    pc.Publishing? || pc.InSession? || pc.Capturing? || pc.Closing? || pc.Retracting? || pc.SessionOver?
  }

  /** One step of anyone, or nothing when it cannot happen. */
  function Step(cfg: Config, s: State, a: Action): (r: Option<State>)
  {
    match a
    case Own(m) => OwnStep(cfg, s, m)
    case CallsClose =>
      if s.once.Free? then Some(s.(once := Held(Closed, false))) else None
    case CallsWait(id) =>
      if id !in s.waiters then Some(s.(waiters := s.waiters[id := Blocked])) else None
    case CtxEnds(id) =>
      if id in s.waiters && s.waiters[id].Blocked? then Some(s.(waiters := s.waiters[id := Shutting])) else None
    case EntersOnce(id) =>
      if id in s.waiters && s.waiters[id].Shutting? && s.once.Free?
      then Some(s.(once := Held(CtxEnded(id), false))) else None
    case PassesOnce(id) =>
      if id in s.waiters && s.waiters[id].Shutting? && s.once.Spent?
      then Some(s.(waiters := s.waiters[id := Draining])) else None
    case Records =>
      if s.once.Held? && !s.once.recorded then
        var took := s.termErr.None?;
        Some(s.(once := s.once.(recorded := true),
                termErr := if took then Some(s.once.cause) else s.termErr,
                first := if s.first.Nobody? then Shutdown else s.first))
      else None
    case Fires =>
      if s.once.Held? && s.once.recorded then Some(s.(once := Spent, cancelled := true)) else None
    case Returns(id) =>
      if id in s.waiters && (s.waiters[id].Blocked? || s.waiters[id].Draining?) && s.done
      then Some(s.(waiters := s.waiters[id := Returned(s.termErr)])) else None
  }

  /** The state after a run from `s`, if every step of it can happen. */
  function RunFrom(cfg: Config, s: State, run: seq<Action>): (r: Option<State>)
  {
    if run == [] then Some(s) else
      var t := RunFrom(cfg, s, run[..|run| - 1]);
      if t.None? then None else Step(cfg, t.value, run[|run| - 1])
  }

  function After(cfg: Config, run: seq<Action>): Option<State>
  {
    RunFrom(cfg, Initial, run)
  }

  // ---- what OnState is promised --------------------------------------------

  /** Failed attempts since the last established session. */
  function Failures(log: seq<Change>): nat
  {
    if log == [] then 0 else
      var c := log[|log| - 1];
      if c.phase.Connected? then 0 else Failures(log[..|log| - 1]) + if c.phase.Reconnecting? then 1 else 0
  }

  predicate LastIn(log: seq<Change>, phases: set<Phase>)
  {
    log != [] && log[|log| - 1].phase in phases
  }

  /** May `c` follow the transitions of `log`? */
  predicate Follows(cfg: Config, log: seq<Change>, c: Change)
  {
    match c.phase
    case Connecting =>
      (log == [] || LastIn(log, {Reconnecting})) && c.attempt == Failures(log) && c.err == None && c.backoff == 0
    case Connected =>
      LastIn(log, {Connecting}) && c.attempt == 0 && c.err == None && c.backoff == 0
    case Reconnecting =>
      LastIn(log, {Connecting, Connected}) && c.attempt == Failures(log) + 1 && 0 <= c.backoff <= cfg.schedule.max
    case ClosedPhase =>
      (log == [] || !log[|log| - 1].phase.Terminal()) && c.attempt == 0 && c.err.Some? && c.backoff == 0
    case Failed =>
      LastIn(log, {Connecting, Connected}) && c.attempt == 0 && c.backoff == 0
  }

  predicate Conforms(cfg: Config, log: seq<Change>)
  {
    log != [] ==> Conforms(cfg, log[..|log| - 1]) && Follows(cfg, log[..|log| - 1], log[|log| - 1])
  }

  // ---- the invariant -------------------------------------------------------

  function UpTo(n: nat): seq<nat>
  {
    seq(n, i requires 0 <= i < n => i)
  }

  /** The source whose Close is still owed. */
  function Owed(s: State): Option<nat>
  {
    match s.pc
    case Publishing(src) => Some(src)
    case Announce(c, next) => if next.InSession? then Some(next.src) else None
    case InSession(src) => Some(src)
    case Capturing(src, _) => Some(src)
    case Closing(src, _) => Some(src)
    case Recovering(_) => s.current
    case RecoverClosing(src, _) => Some(src)
    case _ => None
  }

  predicate SourcesInv(s: State)
  {
    && (match Owed(s)
        case Some(src) => s.handed == src + 1 && s.closes == UpTo(src)
        case None => s.closes == UpTo(s.handed))
    && (match s.pc
        case Announce(c, next) => s.current == Owed(s)
        case InSession(src) => s.current == Some(src)
        case Capturing(src, _) => s.current == Some(src)
        case Closing(src, _) => s.current == Some(src)
        case Retracting(_) => s.current.Some?
        case Recovering(_) => true
        case _ => s.current == None)
  }

  /** Past the point where the loop has settled the terminal error. */
  predicate Settled(pc: PC)
  {
    match pc
    case Announce(c, next) => c.phase.Terminal()
    case Deferred => true
    case Releasing => true
    case Gone => true
    case _ => false
  }

  /** What comes after each announcement. */
  predicate Shaped(pc: PC)
  {
    pc.Announce? ==>
      match pc.change.phase
      case Connecting => pc.next == InFactory(pc.change.attempt)
      case Connected => pc.next.InSession?
      case Reconnecting => pc.next == Sleeping(pc.change.attempt)
      case _ => pc.next == Deferred
  }

  predicate LogInv(cfg: Config, s: State)
  {
    && Shaped(s.pc)
    && Conforms(cfg, s.log)
    && (match s.pc
        case Top(a) => (s.log == [] || LastIn(s.log, {Reconnecting})) && a == Failures(s.log)
        case Announce(c, next) =>
          Follows(cfg, s.log, c) && s.phase == c.phase
        case InFactory(a) => LastIn(s.log, {Connecting}) && a == Failures(s.log)
        case FactoryFailed(a, _) => LastIn(s.log, {Connecting}) && a == Failures(s.log)
        case Deciding(a, _) => LastIn(s.log, {Connecting, Connected}) && a == Failures(s.log)
        case Scheduling(a, _) => LastIn(s.log, {Connecting, Connected}) && a == Failures(s.log) + 1
        case Sleeping(a) => LastIn(s.log, {Reconnecting}) && a == Failures(s.log)
        case Publishing(_) => LastIn(s.log, {Connecting})
        case EndingClosed => s.log == [] || !s.log[|s.log| - 1].phase.Terminal()
        case EndingFailed(_) => LastIn(s.log, {Connecting, Connected})
        case Recovering(_) => LastIn(s.log, {Connecting, Connected})
        case RecoverClosing(_, _) => LastIn(s.log, {Connecting, Connected})
        case RecoverCancelling(_) => LastIn(s.log, {Connecting, Connected})
        case Deferred => LastIn(s.log, {ClosedPhase, Failed})
        case Releasing => LastIn(s.log, {ClosedPhase, Failed})
        case Gone => LastIn(s.log, {ClosedPhase, Failed})
        case _ => LastIn(s.log, {Connected}) && Failures(s.log) == 0)
  }

  /** The terminal transition, announced or about to be. */
  function Verdict(s: State): Option<Change>
  {
    if s.pc.Announce? && s.pc.change.phase.Terminal() then Some(s.pc.change)
    else if s.log != [] && s.log[|s.log| - 1].phase.Terminal() then Some(s.log[|s.log| - 1])
    else None
  }

  predicate TermInv(cfg: Config, s: State)
  {
    && (s.first.Nobody? ==> s.termErr == None)
    && (s.first.Shutdown? ==> s.termErr.Some?)
    && (s.first.Loop? ==> Settled(s.pc))
    && (Settled(s.pc) ==> !s.first.Nobody?)
    && (s.once.Spent? || (s.once.Held? && s.once.recorded) ==> s.termErr.Some?)
    && (s.cancelled ==> s.once.Spent? || Settled(s.pc) || s.pc.EndingFailed?)
    && (s.pc.EndingClosed? ==> s.once.Spent?)
    && (s.pc.EndingFailed? && s.pc.cause == None ==> cfg.policy == Custom(true))
    && (Verdict(s).Some? ==>
          var v := Verdict(s).value;
          && s.phase == v.phase
          && (v.phase.ClosedPhase? <==> s.first.Shutdown?)
          && (v.err.Some? ==> s.termErr == v.err)
          && (v.err == None ==> cfg.policy == Custom(true)))
  }

  predicate WaitInv(s: State)
  {
    && (s.done <==> s.pc.Gone?)
    && (forall id :: id in s.waiters && s.waiters[id].Returned? ==>
          s.done && Verdict(s).Some?
          && (s.waiters[id].result == s.termErr || s.waiters[id].result == Verdict(s).value.err))
  }

  predicate Inv(cfg: Config, s: State)
  {
    SourcesInv(s) && LogInv(cfg, s) && TermInv(cfg, s) && WaitInv(s)
  }

  lemma InitialInv(cfg: Config)
    ensures Inv(cfg, Initial)
  {
  }

  lemma UpToSnoc(n: nat)
    ensures UpTo(n) + [n] == UpTo(n + 1)
  {
  }

  lemma LogSnoc(cfg: Config, log: seq<Change>, c: Change)
    ensures Failures(log + [c]) ==
            if c.phase.Connected? then 0 else Failures(log) + if c.phase.Reconnecting? then 1 else 0
    ensures Conforms(cfg, log) && Follows(cfg, log, c) ==> Conforms(cfg, log + [c])
  {
    assert (log + [c])[..|log|] == log;
  }

  lemma UnfoldShaped(cfg: Config, s: State)
    requires LogInv(cfg, s)
    ensures Shaped(s.pc)
  {
  }

  lemma ConnectKeepsSources(cfg: Config, s: State, m: Move)
    requires SourcesInv(s) && Shaped(s.pc) && InConnect(s.pc) && ConnectStep(cfg, s, m).Some?
    ensures SourcesInv(ConnectStep(cfg, s, m).value)
  {
    hide B.Jittered, UpTo, MayAnswer;
  }

  lemma SessionKeepsSources(s: State, m: Move)
    requires SourcesInv(s) && SessionStep(s, m).Some?
    ensures SourcesInv(SessionStep(s, m).value)
  {
    hide UpTo;
    if Owed(s).Some? {
      UpToSnoc(Owed(s).value);
    }
  }

  lemma EndKeepsSources(s: State, m: Move)
    requires SourcesInv(s) && EndStep(s, m).Some?
    ensures SourcesInv(EndStep(s, m).value)
  {
    hide UpTo;
    if Owed(s).Some? {
      UpToSnoc(Owed(s).value);
    }
  }

  /** At most one source is unclosed, and sources are closed once each, in order of arrival. */
  lemma SourcesKept(cfg: Config, s: State, m: Move)
    requires SourcesInv(s) && Shaped(s.pc) && OwnStep(cfg, s, m).Some?
    ensures SourcesInv(OwnStep(cfg, s, m).value)
  {
    hide ConnectStep, SessionStep, EndStep, SourcesInv, Shaped;
    if InConnect(s.pc) {
      ConnectKeepsSources(cfg, s, m);
    } else if InSessionSteps(s.pc) {
      SessionKeepsSources(s, m);
    } else {
      EndKeepsSources(s, m);
    }
  }

  lemma AnnounceKept(cfg: Config, s: State)
    requires s.pc.Announce? && LogInv(cfg, s)
    ensures LogInv(cfg, s.(log := s.log + [s.pc.change], pc := s.pc.next))
  {
    hide Conforms, Failures;
    LogSnoc(cfg, s.log, s.pc.change);
  }

  lemma ConnectKeepsLogInv(cfg: Config, s: State, m: Move)
    requires LogInv(cfg, s) && B.Resolved(cfg.schedule) && InConnect(s.pc) && ConnectStep(cfg, s, m).Some?
    ensures LogInv(cfg, ConnectStep(cfg, s, m).value)
  {
    hide B.Jittered, Conforms, Failures, MayAnswer;
    if s.pc.Announce? {
      AnnounceKept(cfg, s);
    } else if s.pc.Scheduling? {
      B.JitteredRange(cfg.schedule, s.pc.attempt, m.r);
    }
  }

  lemma SessionKeepsLogInv(cfg: Config, s: State, m: Move)
    requires LogInv(cfg, s) && B.Resolved(cfg.schedule) && SessionStep(s, m).Some?
    ensures LogInv(cfg, SessionStep(s, m).value)
  {
    hide Conforms, Failures;
  }

  lemma EndKeepsLogInv(cfg: Config, s: State, m: Move)
    requires LogInv(cfg, s) && B.Resolved(cfg.schedule) && EndStep(s, m).Some?
    ensures LogInv(cfg, EndStep(s, m).value)
  {
    hide Conforms, Failures;
  }

  /** The transitions keep conforming, and the loop keeps count. */
  lemma LogKept(cfg: Config, s: State, m: Move)
    requires LogInv(cfg, s) && B.Resolved(cfg.schedule) && OwnStep(cfg, s, m).Some?
    ensures LogInv(cfg, OwnStep(cfg, s, m).value)
  {
    hide ConnectStep, SessionStep, EndStep, LogInv, TermInv;
    if InConnect(s.pc) {
      ConnectKeepsLogInv(cfg, s, m);
    } else if InSessionSteps(s.pc) {
      SessionKeepsLogInv(cfg, s, m);
    } else {
      EndKeepsLogInv(cfg, s, m);
    }
  }

  lemma ConnectKeepsTermInv(cfg: Config, s: State, m: Move)
    requires LogInv(cfg, s) && TermInv(cfg, s) && InConnect(s.pc) && ConnectStep(cfg, s, m).Some?
    ensures TermInv(cfg, ConnectStep(cfg, s, m).value)
  {
    hide B.Jittered, Conforms, Follows, Failures;
  }

  lemma SessionKeepsTermInv(cfg: Config, s: State, m: Move)
    requires LogInv(cfg, s) && TermInv(cfg, s) && SessionStep(s, m).Some?
    ensures TermInv(cfg, SessionStep(s, m).value)
  {
    hide B.Jittered, Conforms, Follows, Failures;
  }

  lemma EndKeepsTermInv(cfg: Config, s: State, m: Move)
    requires LogInv(cfg, s) && TermInv(cfg, s) && EndStep(s, m).Some?
    ensures TermInv(cfg, EndStep(s, m).value)
  {
    hide B.Jittered, Conforms, Follows, Failures;
  }

  /** The first cause wins, and the verdict agrees with it. */
  lemma TermKept(cfg: Config, s: State, m: Move)
    requires LogInv(cfg, s) && TermInv(cfg, s) && OwnStep(cfg, s, m).Some?
    ensures TermInv(cfg, OwnStep(cfg, s, m).value)
  {
    hide ConnectStep, SessionStep, EndStep, LogInv, TermInv;
    if InConnect(s.pc) {
      ConnectKeepsTermInv(cfg, s, m);
    } else if InSessionSteps(s.pc) {
      SessionKeepsTermInv(cfg, s, m);
    } else {
      EndKeepsTermInv(cfg, s, m);
    }
  }

  lemma WaitKept(cfg: Config, s: State, m: Move)
    requires WaitInv(s) && Shaped(s.pc) && OwnStep(cfg, s, m).Some?
    ensures WaitInv(OwnStep(cfg, s, m).value)
  {
    hide B.Jittered, MayAnswer, UpTo;
  }

  /** The other goroutines touch neither the sources nor the transitions. */
  lemma OthersApart(cfg: Config, s: State, a: Action)
    requires !a.Own? && Step(cfg, s, a).Some?
    ensures var t := Step(cfg, s, a).value;
            && t.pc == s.pc && t.done == s.done && t.phase == s.phase && t.current == s.current
            && t.log == s.log && t.handed == s.handed && t.closes == s.closes
  {
  }

  lemma OthersKept(cfg: Config, s: State, a: Action)
    requires Inv(cfg, s) && !a.Own? && Step(cfg, s, a).Some?
    ensures Inv(cfg, Step(cfg, s, a).value)
  {
    OthersApart(cfg, s, a);
    OthersKeepSources(cfg, s, Step(cfg, s, a).value);
    OthersKeepTerm(cfg, s, a);
    OthersKeepWait(cfg, s, a);
  }

  lemma OthersKeepSources(cfg: Config, s: State, t: State)
    requires SourcesInv(s) && LogInv(cfg, s)
    requires t.pc == s.pc && t.phase == s.phase && t.current == s.current
    requires t.log == s.log && t.handed == s.handed && t.closes == s.closes
    ensures SourcesInv(t) && LogInv(cfg, t)
  {
    hide Conforms, Follows, Failures, UpTo;
  }

  lemma OthersKeepTerm(cfg: Config, s: State, a: Action)
    requires TermInv(cfg, s) && LogInv(cfg, s) && !a.Own? && Step(cfg, s, a).Some?
    ensures TermInv(cfg, Step(cfg, s, a).value)
  {
    hide OwnStep, Conforms, Follows, Failures;
  }

  lemma OthersKeepWait(cfg: Config, s: State, a: Action)
    requires TermInv(cfg, s) && WaitInv(s) && LogInv(cfg, s) && !a.Own? && Step(cfg, s, a).Some?
    ensures WaitInv(Step(cfg, s, a).value)
  {
    hide OwnStep, Conforms, Follows, Failures;
  }

  /** Every reachable state satisfies the invariant. */
  lemma {:induction false} Reachable(cfg: Config, run: seq<Action>)
    requires B.Resolved(cfg.schedule) && After(cfg, run).Some?
    ensures Inv(cfg, After(cfg, run).value)
  {
    if run == [] {
      InitialInv(cfg);
    } else {
      hide Inv, OwnStep;
      Reachable(cfg, run[..|run| - 1]);
      var s, a := After(cfg, run[..|run| - 1]).value, run[|run| - 1];
      InvStep(cfg, s, a);
    }
  }

  lemma InvStep(cfg: Config, s: State, a: Action)
    requires B.Resolved(cfg.schedule) && Inv(cfg, s) && Step(cfg, s, a).Some?
    ensures Inv(cfg, Step(cfg, s, a).value)
  {
    hide SourcesInv, LogInv, TermInv, WaitInv, OwnStep;
    match a {
      case Own(m) =>
        assert Shaped(s.pc) by { UnfoldShaped(cfg, s); }
        SourcesKept(cfg, s, m);
        LogKept(cfg, s, m);
        TermKept(cfg, s, m);
        WaitKept(cfg, s, m);
      case _ => OthersKept(cfg, s, a);
    }
  }

  // ---- main results --------------------------------------------------------

  /** In a conforming log only the last transition can be terminal. */
  lemma {:induction false} TerminalIsLast(cfg: Config, log: seq<Change>, i: nat)
    requires Conforms(cfg, log) && i + 1 < |log|
    ensures !log[i].phase.Terminal()
  {
    var init := log[..|log| - 1];
    if i + 1 < |init| {
      TerminalIsLast(cfg, init, i);
      assert init[i] == log[i];
    } else {
      assert init[|init| - 1] == log[i];
    }
  }

  /**
   What every run promises OnState. At any time the transitions conform to the protocol (attempts
   counted 1, 2, 3 from each Connected, delays between zero and the ceiling) and at most the last
   is terminal; once Wait is released there is exactly one terminal transition, and it says closed
   exactly when a shutdown settled the terminal error before the loop did.
   */
  lemma TransitionProtocol(cfg: Config, run: seq<Action>)
    requires B.Resolved(cfg.schedule) && After(cfg, run).Some?
    ensures var s := After(cfg, run).value;
            && Conforms(cfg, s.log)
            && (forall i :: 0 <= i < |s.log| - 1 ==> !s.log[i].phase.Terminal())
            && (s.done ==> s.log != [] && var v := s.log[|s.log| - 1];
                  && v.phase.Terminal() && s.phase == v.phase
                  && (v.phase.ClosedPhase? <==> s.first.Shutdown?))
  {
    hide RunFrom, Conforms, Follows, Failures, SourcesInv;
    Reachable(cfg, run);
    var s := After(cfg, run).value;
    forall i | 0 <= i < |s.log| - 1
      ensures !s.log[i].phase.Terminal()
    {
      TerminalIsLast(cfg, s.log, i);
    }
  }

  /** Every source the Factory handed over is closed exactly once, in order; never two are open. */
  lemma EverySourceClosed(cfg: Config, run: seq<Action>)
    requires B.Resolved(cfg.schedule) && After(cfg, run).Some?
    ensures var s := After(cfg, run).value;
            && (s.closes == UpTo(s.handed) || s.closes + [s.handed - 1] == UpTo(s.handed))
            && (s.done ==> s.closes == UpTo(s.handed))
  {
    hide RunFrom, Conforms, Follows, Failures, TermInv;
    Reachable(cfg, run);
    var s := After(cfg, run).value;
    if Owed(s).Some? {
      UpToSnoc(Owed(s).value);
    }
  }

  /** The defensive default of the closing path is never needed: a cause was recorded before it. */
  lemma ClosingCauseKnown(cfg: Config, run: seq<Action>)
    requires B.Resolved(cfg.schedule) && After(cfg, run).Some?
    ensures var s := After(cfg, run).value;
            s.pc.EndingClosed? ==> s.termErr.Some? && FinishClosed(s).termErr == s.termErr
  {
    hide RunFrom, LogInv, SourcesInv;
    Reachable(cfg, run);
  }

  /** Once recorded, the terminal error never changes. */
  lemma FirstCauseSticks(cfg: Config, s: State, a: Action)
    requires s.termErr.Some? && Step(cfg, s, a).Some?
    ensures Step(cfg, s, a).value.termErr == s.termErr
  {
    hide B.Jittered, MayAnswer;
  }

  /** All Wait calls that returned did so with one result, the error of the last transition. */
  predicate Agreement(s: State)
  {
    forall id :: id in s.waiters && s.waiters[id].Returned? ==>
      s.log != [] && s.waiters[id].result == s.log[|s.log| - 1].err == s.termErr
  }

  ghost predicate WaitsAgree(cfg: Config)
  {
    forall run :: After(cfg, run).Some? ==> Agreement(After(cfg, run).value)
  }

  lemma AgreementUnlessRefused(cfg: Config, run: seq<Action>)
    requires B.Resolved(cfg.schedule) && After(cfg, run).Some? && cfg.policy != Custom(true)
    ensures Agreement(After(cfg, run).value)
  {
    hide RunFrom, Conforms, Follows, Failures, SourcesInv;
    Reachable(cfg, run);
  }

  lemma {:induction false} Extend(cfg: Config, run: seq<Action>, s: State, a: Action) returns (run': seq<Action>,
    s': State)
    requires After(cfg, run) == Some(s) && Step(cfg, s, a).Some?
    ensures After(cfg, run') == Some(s') && s' == Step(cfg, s, a).value
  {
    run', s' := run + [a], Step(cfg, s, a).value;
    assert run'[..|run|] == run;
  }

  /** A first session established. */
  lemma FirstSession(cfg: Config) returns (run: seq<Action>, s: State)
    ensures After(cfg, run) == Some(s)
    ensures s == Initial.(pc := InSession(0), phase := Connected, current := Some(0), handed := 1, log := s.log)
  {
    hide RunFrom, SessionStep, EndStep;
    run, s := [], Initial;
    assert After(cfg, []) == Some(Initial) by { EmptyRun(cfg); }
    run, s := Extend(cfg, run, s, Own(Go));
    run, s := Extend(cfg, run, s, Own(Go));
    run, s := Extend(cfg, run, s, Own(Connects));
    run, s := PublishFirst(cfg, run, s);
  }

  lemma PublishFirst(cfg: Config, run0: seq<Action>, s0: State) returns (run: seq<Action>, s: State)
    requires After(cfg, run0) == Some(s0) && s0.pc == Publishing(0)
    ensures After(cfg, run) == Some(s)
    ensures s == s0.(pc := InSession(0), phase := Connected, current := Some(0), log := s.log)
  {
    hide RunFrom;
    run, s := Extend(cfg, run0, s0, Own(Go));
    run, s := Extend(cfg, run, s, Own(Go));
  }

  /** That session ends without an error. */
  lemma FirstSessionEnds(cfg: Config, run0: seq<Action>, s0: State) returns (run: seq<Action>, s: State)
    requires After(cfg, run0) == Some(s0) && s0.pc == InSession(0) && !s0.cancelled
    ensures After(cfg, run) == Some(s)
    ensures s == s0.(pc := Deciding(0, None), current := None, closes := s.closes)
  {
    hide RunFrom, ConnectStep, EndStep;
    run, s := Extend(cfg, run0, s0, Own(Ends(None)));
    run, s := Extend(cfg, run, s, Own(Go));
    run, s := Extend(cfg, run, s, Own(Go));
    run, s := Extend(cfg, run, s, Own(Go));
    run, s := Extend(cfg, run, s, Own(Go));
  }

  lemma RefusedEnds(cfg: Config, run0: seq<Action>, s0: State) returns (run: seq<Action>, s: State)
    requires After(cfg, run0) == Some(s0) && s0.pc == EndingFailed(None) && s0.termErr == None
    ensures After(cfg, run) == Some(s)
    ensures s.done && s.termErr == None && s.once == s0.once && s.waiters == s0.waiters
  {
    hide RunFrom, SessionStep;
    run, s := Extend(cfg, run0, s0, Own(Go));
    run, s := Extend(cfg, run, s, Own(Go));
    run, s := Extend(cfg, run, s, Own(Go));
    run, s := Extend(cfg, run, s, Own(Go));
  }

  /** A first session that ends without an error, refused by the policy. */
  lemma RefusedRun(cfg: Config) returns (run: seq<Action>, s: State)
    requires cfg.policy == Custom(true)
    ensures After(cfg, run) == Some(s)
    ensures s.done && s.termErr == None && s.once.Free? && s.waiters == map[]
  {
    hide RunFrom, SessionStep, EndStep;
    run, s := FirstSession(cfg);
    run, s := FirstSessionEnds(cfg, run, s);
    run, s := Extend(cfg, run, s, Own(Answers(false)));
    run, s := RefusedEnds(cfg, run, s);
  }

  lemma EmptyRun(cfg: Config)
    ensures After(cfg, []) == Some(Initial)
  {
  }

  /**
   Wait promises that all callers observe the same cause. That holds in every run exactly when the
   policy never refuses a nil error: a session that ends without an error and is not retried leaves
   no terminal error behind, and a later Close then records its own.
   */
  lemma WaitsAgreeExactly(cfg: Config)
    requires B.Resolved(cfg.schedule)
    ensures WaitsAgree(cfg) <==> cfg.policy != Custom(true)
  {
    if cfg.policy != Custom(true) {
      forall run | After(cfg, run).Some?
        ensures Agreement(After(cfg, run).value)
      {
        AgreementUnlessRefused(cfg, run);
      }
    } else {
      hide RunFrom;
      var run, s := RefusedRun(cfg);
      run, s := Extend(cfg, run, s, CallsWait(0));
      run, s := Extend(cfg, run, s, Returns(0));
      run, s := Extend(cfg, run, s, CallsClose);
      run, s := Extend(cfg, run, s, Records);
      assert s.waiters[0] == Returned(None) && s.termErr == Some(Closed);
      assert !Agreement(After(cfg, run).value);
    }
  }

  // ---- shutting down -------------------------------------------------------

  /** How many of its own steps the supervising goroutine can still take once cancelled. */
  function Rank(pc: PC): nat
  {
    match pc
    case Gone => 0
    case Releasing => 1
    case Deferred => 2
    case EndingClosed => 4
    case EndingFailed(_) => 4
    case RecoverCancelling(_) => 5
    case RecoverClosing(_, _) => 6
    case Recovering(_) => 7
    case Top(_) => 5
    case Sleeping(_) => 6
    case Scheduling(_, _) => 8
    case Deciding(_, _) => 9
    case FactoryFailed(_, _) => 10
    case SessionOver(_) => 10
    case Retracting(_) => 11
    case Closing(_, _) => 12
    case Capturing(_, _) => 13
    case InSession(_) => 14
    case Publishing(_) => 16
    case InFactory(_) => 17
    case Announce(_, next) => 1 + Rank(next)
  }

  function OwnSteps(run: seq<Action>): nat
  {
    if run == [] then 0 else OwnSteps(run[..|run| - 1]) + if run[|run| - 1].Own? then 1 else 0
  }

  lemma ConnectDescends(cfg: Config, s: State, m: Move)
    requires s.cancelled && InConnect(s.pc) && ConnectStep(cfg, s, m).Some?
    ensures var t := ConnectStep(cfg, s, m).value; t.cancelled && Rank(t.pc) < Rank(s.pc)
  {
    hide B.Jittered, MayAnswer;
  }

  lemma SessionDescends(s: State, m: Move)
    requires s.cancelled && SessionStep(s, m).Some?
    ensures var t := SessionStep(s, m).value; t.cancelled && Rank(t.pc) < Rank(s.pc)
  {
  }

  lemma EndDescends(s: State, m: Move)
    requires s.cancelled && EndStep(s, m).Some?
    ensures var t := EndStep(s, m).value; t.cancelled && Rank(t.pc) < Rank(s.pc)
  {
  }

  lemma StepDescends(cfg: Config, s: State, m: Move)
    requires s.cancelled && OwnStep(cfg, s, m).Some?
    ensures var t := OwnStep(cfg, s, m).value; t.cancelled && Rank(t.pc) < Rank(s.pc)
  {
    hide ConnectStep, SessionStep, EndStep, Rank;
    if InConnect(s.pc) {
      ConnectDescends(cfg, s, m);
    } else if InSessionSteps(s.pc) {
      SessionDescends(s, m);
    } else {
      EndDescends(s, m);
    }
  }

  /** After a shutdown the goroutine ends within a fixed number of its own steps, whatever it is doing. */
  lemma {:induction false} ShutdownDrains(cfg: Config, s: State, run: seq<Action>)
    requires s.cancelled && RunFrom(cfg, s, run).Some?
    ensures var t := RunFrom(cfg, s, run).value; t.cancelled && OwnSteps(run) + Rank(t.pc) <= Rank(s.pc)
  {
    if run != [] {
      hide OwnStep, Rank;
      ShutdownDrains(cfg, s, run[..|run| - 1]);
      var t, a := RunFrom(cfg, s, run[..|run| - 1]).value, run[|run| - 1];
      if a.Own? {
        StepDescends(cfg, t, a.move);
      }
    }
  }

  /** The goroutine is never stuck: until it is gone some answer of its environment moves it. */
  lemma NeverStuck(cfg: Config, s: State) returns (m: Move)
    requires !s.pc.Gone?
    ensures OwnStep(cfg, s, m).Some?
  {
    hide B.Jittered;
    m := match s.pc
      case InFactory(_) => Connects
      case Deciding(_, cause) => Answers(cfg.policy != Default || DefaultRetryable(cause))
      case Scheduling(_, _) => Draws(0.5)
      case Sleeping(_) => Wakes(true)
      case InSession(_) => Ends(None)
      case _ => Go;
  }
}
