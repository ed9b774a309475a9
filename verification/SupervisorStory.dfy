/**
 What the supervisor tells OnState, written down from its environment's answers alone: how connects
 and sessions came out, what the retry policy said, and what the backoff clock drew.  In every
 interleaving with Close and Wait callers the log is that story, cut off where a shutdown came first.
 */
module SupervisorStory {
  import B = Backoff
  import opened Supervisor

  /** The moves of a run that are answers of the environment, in order. */
  function AnswersOf(run: seq<Action>): seq<Move>
  {
    if run == [] then [] else
      var a := run[|run| - 1];
      AnswersOf(run[..|run| - 1]) + if a.Own? && a.move != Go then [a.move] else []
  }

  // ---- the questions asked -------------------------------------------------

  /** What the supervisor asks next, given everything answered. */
  datatype Question = ForConnect | ForEnd | ForVerdict | ForDraw | ForDelay | Nothing

  function Next(answers: seq<Move>): Question
  {
    if answers == [] then ForConnect else
      match answers[|answers| - 1]
      case Go => Nothing
      case Connects => ForEnd
      case ConnectsNil => ForVerdict
      case ConnectFails(_) => ForVerdict
      case Ends(_) => ForVerdict
      case Answers(retry) => if retry then ForDraw else Nothing
      case Draws(_) => ForDelay
      case Wakes(elapsed) => if elapsed then ForConnect else Nothing
      case Panics(_) => Nothing
  }

  /** Does an answer fit the question? User code may panic instead of connecting, ending or deciding. */
  predicate Fits(q: Question, m: Move)
  {
    match m
    case Go => false
    case Connects => q.ForConnect?
    case ConnectsNil => q.ForConnect?
    case ConnectFails(_) => q.ForConnect?
    case Ends(_) => q.ForEnd?
    case Answers(_) => q.ForVerdict?
    case Draws(_) => q.ForDraw?
    case Wakes(_) => q.ForDelay?
    case Panics(_) => q.ForConnect? || q.ForEnd? || q.ForVerdict?
  }

  /** Every failed connect and every ended session is put to the policy, and every retry to the clock. */
  predicate Orderly(answers: seq<Move>)
  {
    answers != [] ==>
      Orderly(answers[..|answers| - 1]) && Fits(Next(answers[..|answers| - 1]), answers[|answers| - 1])
  }

  /** Every verdict is one the policy can give, and the random draws are in [0, 1). */
  predicate Lawful(p: Policy, answers: seq<Move>)
  {
    answers != [] ==>
      var init, m := answers[..|answers| - 1], answers[|answers| - 1];
      && Lawful(p, init)
      && (m.Answers? ==> MayAnswer(p, LastCause(init), m.retry))
      && (m.Draws? ==> 0.0 <= m.r < 1.0)
  }

  // ---- the story -----------------------------------------------------------

  /** How the latest connect failed or the latest session ended. */
  function LastCause(answers: seq<Move>): Option<Err>
  {
    if answers == [] then None else
      var m := answers[|answers| - 1];
      match m
      case ConnectFails(e) => Some(e)
      case ConnectsNil => Some(NilSource)
      case Ends(cause) => cause
      case _ => LastCause(answers[..|answers| - 1])
  }

  /** Retries drawn since a session was last established. */
  function Attempts(answers: seq<Move>): nat
  {
    if answers == [] then 0 else
      var m := answers[|answers| - 1];
      if m.Connects? then 0 else Attempts(answers[..|answers| - 1]) + if m.Draws? then 1 else 0
  }

  /** The transition an answer brings about, after those before it. */
  function Told(cfg: B.Config, before: seq<Move>, m: Move): seq<Change>
  {
    match m
    case Connects => [Change(Connected, 0, None, 0)]
    case Draws(r) =>
      if 0.0 <= r < 1.0 then
        [Change(Reconnecting, Attempts(before) + 1, LastCause(before), B.Jittered(cfg, Attempts(before) + 1, r).Floor)]
      else []
    case Wakes(elapsed) => if elapsed then [Change(Connecting, Attempts(before), None, 0)] else []
    case Answers(retry) => if retry then [] else [Change(Failed, 0, LastCause(before), 0)]
    case Panics(id) => [Change(Failed, 0, Some(Panicked(id)), 0)]
    case _ => []
  }

  function Story(cfg: B.Config, answers: seq<Move>): seq<Change>
  {
    if answers == [] then [Change(Connecting, 0, None, 0)] else
      var init, m := answers[..|answers| - 1], answers[|answers| - 1];
      Story(cfg, init) + Told(cfg, init, m)
  }

  lemma AnswersSnoc(cfg: B.Config, p: Policy, answers: seq<Move>, m: Move)
    ensures var more := answers + [m];
            && Story(cfg, more) == Story(cfg, answers) + Told(cfg, answers, m)
            && (Orderly(more) <==> Orderly(answers) && Fits(Next(answers), m))
            && (Lawful(p, more) <==>
                  && Lawful(p, answers)
                  && (m.Answers? ==> MayAnswer(p, LastCause(answers), m.retry))
                  && (m.Draws? ==> 0.0 <= m.r < 1.0))
            && Attempts(more) == (if m.Connects? then 0 else Attempts(answers) + if m.Draws? then 1 else 0)
            && Next(more) == Next([m])
            && LastCause(more) == (match m
                                   case ConnectFails(e) => Some(e)
                                   case ConnectsNil => Some(NilSource)
                                   case Ends(cause) => cause
                                   case _ => LastCause(answers))
  {
    hide B.Jittered, MayAnswer;
    assert (answers + [m])[..|answers|] == answers;
  }

  // ---- the run and the story -----------------------------------------------

  /** Told but not yet announced. */
  function Pending(pc: PC): seq<Change>
  {
    match pc
    case Top(a) => [Change(Connecting, a, None, 0)]
    case Announce(c, _) => [c]
    case Publishing(_) => [Change(Connected, 0, None, 0)]
    case EndingFailed(cause) => [Change(Failed, 0, cause, 0)]
    case Recovering(e) => [Change(Failed, 0, Some(e), 0)]
    case RecoverClosing(_, e) => [Change(Failed, 0, Some(e), 0)]
    case RecoverCancelling(e) => [Change(Failed, 0, Some(e), 0)]
    case _ => []
  }

  /** Where the goroutine is agrees with what has been answered. */
  predicate At(pc: PC, answers: seq<Move>)
  {
    match pc
    case Top(a) => Next(answers) == ForConnect && a == Attempts(answers)
    case Announce(c, next) =>
      (match next
       case InFactory(a) => Next(answers) == ForConnect && a == Attempts(answers)
       case InSession(_) => Next(answers) == ForEnd && Attempts(answers) == 0
       case Sleeping(a) => Next(answers) == ForDelay && a == Attempts(answers)
       case _ => true)
    case InFactory(a) => Next(answers) == ForConnect && a == Attempts(answers)
    case FactoryFailed(a, e) => Next(answers) == ForVerdict && a == Attempts(answers) && Some(e) == LastCause(answers)
    case Deciding(a, cause) => Next(answers) == ForVerdict && a == Attempts(answers) && cause == LastCause(answers)
    case Scheduling(a, cause) => Next(answers) == ForDraw && a == Attempts(answers) + 1 && cause == LastCause(answers)
    case Sleeping(a) => Next(answers) == ForDelay && a == Attempts(answers)
    case Publishing(_) => Next(answers) == ForEnd && Attempts(answers) == 0
    case InSession(_) => Next(answers) == ForEnd && Attempts(answers) == 0
    case Capturing(_, cause) => Next(answers) == ForVerdict && Attempts(answers) == 0 && cause == LastCause(answers)
    case Closing(_, cause) => Next(answers) == ForVerdict && Attempts(answers) == 0 && cause == LastCause(answers)
    case Retracting(cause) => Next(answers) == ForVerdict && Attempts(answers) == 0 && cause == LastCause(answers)
    case SessionOver(cause) => Next(answers) == ForVerdict && Attempts(answers) == 0 && cause == LastCause(answers)
    case _ => true
  }

  /** The last transition, when a shutdown made it. */
  predicate EndsClosed(s: State)
  {
    || s.pc.EndingClosed?
    || (s.pc.Announce? && s.pc.change.phase.ClosedPhase?)
    || (Settled(s.pc) && !s.pc.Announce? && s.log != [] && s.log[|s.log| - 1].phase.ClosedPhase?)
  }

  /** The log with the closing transition left out. */
  function BeforeClosing(s: State): seq<Change>
  {
    if Settled(s.pc) && !s.pc.Announce? && s.log != [] then s.log[..|s.log| - 1] else s.log
  }

  /** The story up to now: all of it announced or pending, or cut off by a shutdown. */
  predicate Tells(cfg: Config, s: State, answers: seq<Move>)
  {
    && Orderly(answers) && Lawful(cfg.policy, answers) && At(s.pc, answers)
    && if EndsClosed(s) then BeforeClosing(s) <= Story(cfg.schedule, answers)
       else s.log + Pending(s.pc) == Story(cfg.schedule, answers)
  }

  /** What a step adds to the answers. */
  function Heard(m: Move): seq<Move>
  {
    if m == Go then [] else [m]
  }

  lemma AnnounceTells(cfg: Config, s: State, answers: seq<Move>)
    requires Tells(cfg, s, answers) && LogInv(cfg, s) && s.pc.Announce?
    ensures Tells(cfg, s.(log := s.log + [s.pc.change], pc := s.pc.next), answers)
  {
    hide Orderly, Lawful, Story, Next, Attempts, LastCause, Conforms, Follows, Failures;
    assert (s.log + [s.pc.change])[..|s.log|] == s.log;
  }

  lemma FactoryTells(cfg: Config, s: State, m: Move, answers: seq<Move>)
    requires Tells(cfg, s, answers) && s.pc.InFactory? && ConnectStep(cfg, s, m).Some?
    ensures Tells(cfg, ConnectStep(cfg, s, m).value, answers + Heard(m))
  {
    hide Orderly, Lawful, Story, Next, Attempts, LastCause;
    AnswersSnoc(cfg.schedule, cfg.policy, answers, m);
    NextAfter(m);
  }

  lemma ConnectTells(cfg: Config, s: State, m: Move, answers: seq<Move>)
    requires Tells(cfg, s, answers) && InConnect(s.pc) && !s.pc.Announce? && !s.pc.InFactory?
    requires ConnectStep(cfg, s, m).Some?
    ensures Tells(cfg, ConnectStep(cfg, s, m).value, answers + Heard(m))
  {
    hide Orderly, Lawful, Story, Next, Attempts, LastCause, B.Jittered, MayAnswer;
    assert answers + [] == answers;
    AnswersSnoc(cfg.schedule, cfg.policy, answers, m);
    NextAfter(m);
  }

  lemma NextAfter(m: Move)
    ensures Next([m]) == match m
                         case Connects => ForEnd
                         case ConnectsNil => ForVerdict
                         case ConnectFails(_) => ForVerdict
                         case Ends(_) => ForVerdict
                         case Answers(retry) => if retry then ForDraw else Nothing
                         case Draws(_) => ForDelay
                         case Wakes(elapsed) => if elapsed then ForConnect else Nothing
                         case _ => Nothing
  {
  }

  lemma SessionTells(cfg: Config, s: State, m: Move, answers: seq<Move>)
    requires Tells(cfg, s, answers) && SessionStep(s, m).Some?
    ensures Tells(cfg, SessionStep(s, m).value, answers + Heard(m))
  {
    hide Orderly, Lawful, Story, Next, Attempts, LastCause, Conforms, Follows, Failures, MayAnswer;
    assert answers + [] == answers;
    AnswersSnoc(cfg.schedule, cfg.policy, answers, m);
    NextAfter(m);
  }

  lemma EndTells(cfg: Config, s: State, m: Move, answers: seq<Move>)
    requires Tells(cfg, s, answers) && EndStep(s, m).Some?
    ensures Tells(cfg, EndStep(s, m).value, answers + Heard(m))
  {
    hide Tells, EndStep;
    assert m == Go && answers + [] == answers by { EndIsOwn(s, m); }
    if s.pc.EndingClosed? {
      FinishClosedTells(cfg, s, answers);
      assert EndStep(s, m).value == FinishClosed(s) by { EndIsOwn(s, m); }
    } else if s.pc.EndingFailed? {
      FinishTells(cfg, s, answers);
      assert EndStep(s, m).value == Finish(s, s.pc.cause) by { EndIsOwn(s, m); }
    } else {
      QuietTells(cfg, s, m, answers);
    }
  }

  lemma EndIsOwn(s: State, m: Move)
    requires EndStep(s, m).Some?
    ensures m == Go
    ensures s.pc.EndingClosed? ==> EndStep(s, m).value == FinishClosed(s)
    ensures s.pc.EndingFailed? ==> EndStep(s, m).value == Finish(s, s.pc.cause)
  {
  }

  /** Recovering and releasing announce nothing. */
  lemma QuietTells(cfg: Config, s: State, m: Move, answers: seq<Move>)
    requires Tells(cfg, s, answers) && EndStep(s, m).Some? && !s.pc.EndingClosed? && !s.pc.EndingFailed?
    ensures Tells(cfg, EndStep(s, m).value, answers)
  {
    hide Orderly, Lawful, Story, Next, Attempts, LastCause;
  }

  lemma FinishClosedTells(cfg: Config, s: State, answers: seq<Move>)
    requires Tells(cfg, s, answers) && s.pc.EndingClosed?
    ensures Tells(cfg, FinishClosed(s), answers)
  {
    hide Orderly, Lawful, Story;
  }

  lemma FinishTells(cfg: Config, s: State, answers: seq<Move>)
    requires Tells(cfg, s, answers) && s.pc.EndingFailed?
    ensures Tells(cfg, Finish(s, s.pc.cause), answers)
  {
    hide Orderly, Lawful, Story;
  }

  lemma OwnTells(cfg: Config, s: State, m: Move, answers: seq<Move>)
    requires Tells(cfg, s, answers) && LogInv(cfg, s) && OwnStep(cfg, s, m).Some?
    ensures Tells(cfg, OwnStep(cfg, s, m).value, answers + Heard(m))
  {
    hide Tells, LogInv, ConnectStep, SessionStep, EndStep;
    if s.pc.Announce? {
      AnnounceIsLocal(cfg, s, m);
      AnnounceTells(cfg, s, answers);
      assert answers + Heard(m) == answers;
    } else if s.pc.InFactory? {
      FactoryTells(cfg, s, m, answers);
    } else if InConnect(s.pc) {
      ConnectTells(cfg, s, m, answers);
    } else if InSessionSteps(s.pc) {
      SessionTells(cfg, s, m, answers);
    } else {
      EndTells(cfg, s, m, answers);
    }
  }

  lemma AnnounceIsLocal(cfg: Config, s: State, m: Move)
    requires s.pc.Announce? && OwnStep(cfg, s, m).Some?
    ensures m == Go && OwnStep(cfg, s, m).value == s.(log := s.log + [s.pc.change], pc := s.pc.next)
  {
  }

  lemma OthersTell(cfg: Config, s: State, t: State, answers: seq<Move>)
    requires Tells(cfg, s, answers) && t.pc == s.pc && t.log == s.log
    ensures Tells(cfg, t, answers)
  {
    hide Orderly, Lawful, Story, At;
  }

  lemma StepTells(cfg: Config, s: State, a: Action, answers: seq<Move>)
    requires Tells(cfg, s, answers) && Inv(cfg, s) && Step(cfg, s, a).Some?
    ensures Tells(cfg, Step(cfg, s, a).value, answers + if a.Own? then Heard(a.move) else [])
  {
    hide Tells, OwnStep, LogInv, SourcesInv, TermInv, WaitInv;
    if a.Own? {
      OwnTells(cfg, s, a.move, answers);
    } else {
      OthersApart(cfg, s, a);
      OthersTell(cfg, s, Step(cfg, s, a).value, answers);
      assert answers + [] == answers;
    }
  }

  lemma {:induction false} RunTells(cfg: Config, run: seq<Action>)
    requires B.Resolved(cfg.schedule) && After(cfg, run).Some?
    ensures Tells(cfg, After(cfg, run).value, AnswersOf(run))
  {
    if run == [] {
      EmptyRun(cfg);
    } else {
      hide Tells, Step, Inv;
      var init, a := run[..|run| - 1], run[|run| - 1];
      RunTells(cfg, init);
      Reachable(cfg, init);
      StepTells(cfg, After(cfg, init).value, a, AnswersOf(init));
    }
  }

  // ---- main results --------------------------------------------------------

  /** The log, without a last transition that says closed. */
  function Open(log: seq<Change>): seq<Change>
  {
    if log != [] && log[|log| - 1].phase.ClosedPhase? then log[..|log| - 1] else log
  }

  /**
   In every run the failures and ended sessions were each put to the policy and each retry to the
   clock, the policy's verdicts are ones it may give, and what OnState was told is the story of those
   answers. Unless a shutdown settled the end first nothing of the story is missing but the one
   transition about to be announced; if one did, the story is cut off where the shutdown came and
   followed by the single closing transition.
   */
  lemma StoryTold(cfg: Config, run: seq<Action>)
    requires B.Resolved(cfg.schedule) && After(cfg, run).Some?
    ensures var s, answers := After(cfg, run).value, AnswersOf(run);
            && Orderly(answers) && Lawful(cfg.policy, answers)
            && Open(s.log) <= Story(cfg.schedule, answers)
            && (!s.first.Shutdown? ==> s.log + Pending(s.pc) == Story(cfg.schedule, answers))
            && (s.done && !s.first.Shutdown? ==> s.log == Story(cfg.schedule, answers))
  {
    hide RunFrom, Orderly, Lawful, Story, Conforms, Follows, Failures, SourcesInv, At;
    RunTells(cfg, run);
    Reachable(cfg, run);
  }

  lemma {:induction false} StoryFailures(cfg: Config, answers: seq<Move>, i: nat)
    requires Lawful(cfg.policy, answers) && i < |Story(cfg.schedule, answers)|
    requires Story(cfg.schedule, answers)[i].phase.Failed?
    ensures var err := Story(cfg.schedule, answers)[i].err;
            (err.Some? && err.value.Panicked?) || MayAnswer(cfg.policy, err, false)
  {
    hide B.Jittered, MayAnswer;
    if answers != [] {
      var init := answers[..|answers| - 1];
      if i < |Story(cfg.schedule, init)| {
        StoryFailures(cfg, init, i);
      }
    }
  }

  /** Did user code panic with `err`, or is it one the default policy refuses? */
  predicate EndsDefault(err: Option<Err>)
  {
    RefusedByDefault(err) || (err.Some? && err.value.Panicked?)
  }

  /**
   OnState hears Failed only with a panic or a cause the policy may refuse; under the default policy
   that is a cancellation, an exceeded deadline, a closed client, a redirect or a panic, so no other
   failed connect or lost session ends the supervisor.
   */
  lemma FailedOnlyWhenRefused(cfg: Config, run: seq<Action>)
    requires B.Resolved(cfg.schedule) && After(cfg, run).Some?
    ensures forall c :: c in After(cfg, run).value.log && c.phase.Failed? ==>
              && ((c.err.Some? && c.err.value.Panicked?) || MayAnswer(cfg.policy, c.err, false))
              && (cfg.policy.Default? ==> EndsDefault(c.err))
  {
    hide RunFrom, Story, Orderly, Lawful;
    StoryTold(cfg, run);
    var s, answers := After(cfg, run).value, AnswersOf(run);
    forall i | 0 <= i < |s.log| && s.log[i].phase.Failed?
      ensures var err := s.log[i].err;
              (err.Some? && err.value.Panicked?) || MayAnswer(cfg.policy, err, false)
    {
      assert i < |Open(s.log)| && Open(s.log)[i] == s.log[i];
      StoryFailures(cfg, answers, i);
    }
  }

  lemma {:induction false} Earlier(cfg: Config, answers: seq<Move>, n: nat)
    requires n <= |answers| && Orderly(answers) && Lawful(cfg.policy, answers)
    ensures Orderly(answers[..n]) && Lawful(cfg.policy, answers[..n])
    ensures Story(cfg.schedule, answers[..n]) <= Story(cfg.schedule, answers)
  {
    hide B.Jittered, MayAnswer;
    if n < |answers| {
      var init := answers[..|answers| - 1];
      Earlier(cfg, init, n);
      assert init[..n] == answers[..n];
    } else {
      assert answers[..n] == answers;
    }
  }

  /** How an answer says a connect failed or a session ended. */
  function Trouble(m: Move): Option<Option<Err>>
  {
    match m
    case ConnectFails(e) => Some(Some(e))
    case ConnectsNil => Some(Some(NilSource))
    case Ends(cause) => Some(cause)
    case _ => None
  }

  /** The causes that are not retried by default. */
  predicate RefusedByDefault(err: Option<Err>)
  {
    err in {Some(Canceled), Some(DeadlineExceeded), Some(Closed), Some(Redirect)}
  }

  /** A failed connect or an ended session is followed by the verdict on that very cause, or a panic. */
  lemma TroubleIsJudged(cfg: Config, answers: seq<Move>, i: nat)
    requires i + 1 < |answers| && Orderly(answers) && Lawful(cfg.policy, answers) && Trouble(answers[i]).Some?
    ensures LastCause(answers[..i + 1]) == Trouble(answers[i]).value
    ensures answers[i + 1].Panics? ||
            (answers[i + 1].Answers? && MayAnswer(cfg.policy, Trouble(answers[i]).value, answers[i + 1].retry))
    ensures cfg.policy.Default? ==>
              answers[i + 1].Panics? || answers[i + 1] == Answers(!RefusedByDefault(Trouble(answers[i]).value))
  {
    hide Orderly, Lawful, Story, Next, LastCause, B.Jittered, Attempts;
    Earlier(cfg, answers, i + 2);
    Earlier(cfg, answers, i + 1);
    assert answers[..i + 2] == answers[..i + 1] + [answers[i + 1]];
    assert answers[..i + 1] == answers[..i] + [answers[i]];
    AnswersSnoc(cfg.schedule, cfg.policy, answers[..i], answers[i]);
    AnswersSnoc(cfg.schedule, cfg.policy, answers[..i + 1], answers[i + 1]);
    NextAfter(answers[i]);
  }

  /** What a retried failure adds to the story. */
  lemma RetryTold(cfg: Config, answers: seq<Move>, i: nat)
    requires i + 2 < |answers| && Orderly(answers) && Lawful(cfg.policy, answers)
    requires Trouble(answers[i]).Some? && answers[i + 1] == Answers(true)
    ensures answers[i + 2].Draws?
    ensures Story(cfg.schedule, answers[..i + 3]) == Story(cfg.schedule, answers[..i]) +
            [Change(Reconnecting, Attempts(answers[..i]) + 1, Trouble(answers[i]).value,
                    B.Jittered(cfg.schedule, Attempts(answers[..i]) + 1, answers[i + 2].r).Floor)]
  {
    hide Orderly, Lawful, Story, Next, LastCause, B.Jittered, Attempts, MayAnswer;
    Earlier(cfg, answers, i + 3);
    assert answers[..i + 3] == answers[..i + 2] + [answers[i + 2]];
    assert answers[..i + 2] == answers[..i + 1] + [answers[i + 1]];
    assert answers[..i + 1] == answers[..i] + [answers[i]];
    AnswersSnoc(cfg.schedule, cfg.policy, answers[..i], answers[i]);
    AnswersSnoc(cfg.schedule, cfg.policy, answers[..i + 1], answers[i + 1]);
    AnswersSnoc(cfg.schedule, cfg.policy, answers[..i + 2], answers[i + 2]);
    NextAfter(answers[i + 1]);
  }

  /**
   After a failed connect or an ended session the policy retries, the next transition is Reconnecting
   with exactly that cause, one attempt more than so far and the delay drawn for it: if no shutdown
   settled the end it has been announced or is about to be, and if one did nothing but its closing
   transition can be in that place.
   */
  lemma RetriedReconnects(cfg: Config, run: seq<Action>, i: nat)
    requires B.Resolved(cfg.schedule) && After(cfg, run).Some?
    requires i + 2 < |AnswersOf(run)| && Trouble(AnswersOf(run)[i]).Some? && AnswersOf(run)[i + 1] == Answers(true)
    ensures AnswersOf(run)[i + 2].Draws?
    ensures var s, answers := After(cfg, run).value, AnswersOf(run);
            var k, a := |Story(cfg.schedule, answers[..i])|, Attempts(answers[..i]) + 1;
            var next := Change(Reconnecting, a, Trouble(answers[i]).value,
                               B.Jittered(cfg.schedule, a, answers[i + 2].r).Floor);
            && (k < |s.log| ==> s.log[k] == next || (k == |s.log| - 1 && s.log[k].phase.ClosedPhase?))
            && (!s.first.Shutdown? ==> k < |s.log + Pending(s.pc)| && (s.log + Pending(s.pc))[k] == next)
  {
    hide RunFrom, Story, Orderly, Lawful, Attempts, B.Jittered;
    StoryTold(cfg, run);
    var s, answers := After(cfg, run).value, AnswersOf(run);
    RetryTold(cfg, answers, i);
    Earlier(cfg, answers, i + 3);
    var k, story := |Story(cfg.schedule, answers[..i])|, Story(cfg.schedule, answers);
    assert story[k] == Story(cfg.schedule, answers[..i + 3])[k];
    if k < |s.log| {
      assert k < |Open(s.log)| ==> Open(s.log)[k] == story[k] && s.log[k] == story[k];
    }
  }

  // ---- nothing dawdles -----------------------------------------------------

  /** How many steps of its own the goroutine takes before it asks its next question or is gone. */
  function Idle(pc: PC): nat
  {
    match pc
    case Top(_) => 7
    case Announce(_, next) => if next.Deferred? then 4 else 1
    case FactoryFailed(_, _) => 7
    case Publishing(_) => 2
    case Capturing(_, _) => 10
    case Closing(_, _) => 9
    case Retracting(_) => 8
    case SessionOver(_) => 7
    case EndingClosed => 6
    case EndingFailed(_) => 6
    case Recovering(_) => 9
    case RecoverClosing(_, _) => 8
    case RecoverCancelling(_) => 7
    case Deferred => 2
    case Releasing => 1
    case _ => 0
  }

  /** Does the goroutine wait for an answer? */
  predicate Asks(pc: PC)
  {
    pc.InFactory? || pc.InSession? || pc.Deciding? || pc.Scheduling? || pc.Sleeping?
  }

  lemma GoDescends(cfg: Config, s: State)
    requires Shaped(s.pc)
    ensures OwnStep(cfg, s, Go).Some? ==> Idle(OwnStep(cfg, s, Go).value.pc) < Idle(s.pc) <= 10
    ensures OwnStep(cfg, s, Go).None? <==> Asks(s.pc) || s.pc.Gone?
  {
    hide B.Jittered;
  }

  /**
   Between two answers the goroutine takes at most ten steps of its own, and then it asks exactly
   the question due next or is gone.
   */
  lemma AsksWhatIsDue(cfg: Config, run: seq<Action>)
    requires B.Resolved(cfg.schedule) && After(cfg, run).Some?
    ensures var s := After(cfg, run).value;
            && (OwnStep(cfg, s, Go).Some? ==> Idle(OwnStep(cfg, s, Go).value.pc) < Idle(s.pc) <= 10)
            && (OwnStep(cfg, s, Go).None? <==> Asks(s.pc) || s.pc.Gone?)
            && (s.pc.InFactory? ==> Next(AnswersOf(run)) == ForConnect)
            && (s.pc.InSession? ==> Next(AnswersOf(run)) == ForEnd)
            && (s.pc.Deciding? ==> Next(AnswersOf(run)) == ForVerdict)
            && (s.pc.Scheduling? ==> Next(AnswersOf(run)) == ForDraw)
            && (s.pc.Sleeping? ==> Next(AnswersOf(run)) == ForDelay)
  {
    hide RunFrom, Story, Orderly, Lawful, Attempts, OwnStep, Idle, Conforms, Follows, Failures, Next;
    hide SourcesInv, TermInv, WaitInv;
    RunTells(cfg, run);
    Reachable(cfg, run);
    GoDescends(cfg, After(cfg, run).value);
  }

  // ---- after a shutdown ----------------------------------------------------

  /** How many answers a cancelled goroutine can still take in from each point. */
  function Left(pc: PC): nat
  {
    match pc
    case InFactory(_) => 3
    case Publishing(_) => 2
    case InSession(_) => 2
    case Capturing(_, _) => 1
    case Deciding(_, _) => 3
    case Scheduling(_, _) => 2
    case Sleeping(_) => 1
    case Announce(_, next) => Left(next)
    case _ => 0
  }

  lemma LeftDescends(cfg: Config, s: State, m: Move)
    requires s.cancelled && OwnStep(cfg, s, m).Some?
    ensures var t := OwnStep(cfg, s, m).value; t.cancelled && |Heard(m)| + Left(t.pc) <= Left(s.pc)
  {
    hide ConnectStep, SessionStep, EndStep, Left;
    if InConnect(s.pc) {
      ConnectLeft(cfg, s, m);
    } else if InSessionSteps(s.pc) {
      SessionLeft(s, m);
    } else {
      EndLeft(s, m);
    }
  }

  lemma ConnectLeft(cfg: Config, s: State, m: Move)
    requires s.cancelled && InConnect(s.pc) && ConnectStep(cfg, s, m).Some?
    ensures var t := ConnectStep(cfg, s, m).value; t.cancelled && |Heard(m)| + Left(t.pc) <= Left(s.pc)
  {
    hide B.Jittered, MayAnswer;
  }

  lemma SessionLeft(s: State, m: Move)
    requires s.cancelled && SessionStep(s, m).Some?
    ensures var t := SessionStep(s, m).value; t.cancelled && |Heard(m)| + Left(t.pc) <= Left(s.pc)
  {
  }

  lemma EndLeft(s: State, m: Move)
    requires s.cancelled && EndStep(s, m).Some?
    ensures var t := EndStep(s, m).value; t.cancelled && |Heard(m)| + Left(t.pc) <= Left(s.pc)
  {
  }

  /**
   Once cancelled the goroutine begins nothing new: it takes in at most the answers left from where
   it is, so a failure it learns of afterwards is put to no policy, draws no delay and connects
   nothing again.
   */
  lemma {:induction false} ShutdownBeginsNothing(cfg: Config, s: State, run: seq<Action>)
    requires s.cancelled && RunFrom(cfg, s, run).Some?
    ensures var t := RunFrom(cfg, s, run).value; t.cancelled && |AnswersOf(run)| + Left(t.pc) <= Left(s.pc)
  {
    if run != [] {
      hide Step, Left, Heard;
      var init, a := run[..|run| - 1], run[|run| - 1];
      ShutdownBeginsNothing(cfg, s, init);
      LeftAfter(cfg, RunFrom(cfg, s, init).value, a);
    }
  }

  lemma LeftAfter(cfg: Config, s: State, a: Action)
    requires s.cancelled && Step(cfg, s, a).Some?
    ensures var t := Step(cfg, s, a).value;
            t.cancelled && (if a.Own? && a.move != Go then 1 else 0) + Left(t.pc) <= Left(s.pc)
  {
    hide OwnStep, Left;
    if a.Own? {
      LeftDescends(cfg, s, a.move);
    } else {
      OthersApart(cfg, s, a);
    }
  }
}
