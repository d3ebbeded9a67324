/** The session and its login jobs together: when a session is authenticated. */
module Logins {
  import opened ByteArrays
  import opened ReplyCodes
  import opened JobEffects
  import opened SessionModel
  import opened Scheduling
  import SD = SendDialogue
  import LD = LoginDialogue

  /** The last reply the job has heard is 235. */
  predicate EndsWith235(heard: seq<Heard>) {
    heard != [] && heard[|heard| - 1].reply.code == 235
  }

  predicate LoginSucceeded(fate: Fate) {
    fate.Finished? && fate.run.job.task.LoginTask? && fate.error == 0
  }

  /** Successful logins have heard 235, and an authenticated session has had one. */
  predicate Authorized(s: Session) {
    && (s.crash.None? && s.currentJob.Some? ==>
         (s.currentJob.value.task.LoginTask? <==> s.currentJob.value.job.task.LoginTask?))
    && (forall i :: 0 <= i < |s.fates| && LoginSucceeded(s.fates[i]) ==> EndsWith235(s.fates[i].run.heard))
    && (s.state == Authenticated ==> exists i :: 0 <= i < |s.fates| && LoginSucceeded(s.fates[i]))
  }

  lemma StartAuthorized(cfg: Config, s: Session, sasl: LD.SaslStart)
    requires s.crash.None? && Scheduled(s.(startEvents := s.startEvents + 1)) && Authorized(s)
    ensures Authorized(DoStartNext(cfg, s, sasl))
  {
    if s.queue != [] && !s.jobRunning && s.state != Disconnected {
      var job := s.queue[0];
      var (task, effects) := StartTask(cfg, s, job.task, sasl);
      var started := s.(jobRunning := true, currentJob := Some(Begin(job, task)), queue := s.queue[1..]);
      StartShape(cfg, s, job.task, sasl);
      if effects == [Abort(LoginUnencrypted)] {
        assert effects[1..] == [];
      } else {
        FirstStepAuthorized(s, started, job.id, effects);
      }
    }
  }

  lemma FirstStepAuthorized(s: Session, started: Session, id: nat, effects: seq<Effect>)
    requires s.crash.None? && Authorized(s) && IsCurrent(started, id) && WellFormed(effects) && Authenticate !in effects
    requires started.fates == s.fates && started.state == s.state
    requires Results(effects) != [] ==> Results(effects)[0] != 0
    requires started.currentJob.value.task.LoginTask? <==> started.currentJob.value.job.task.LoginTask?
    ensures Authorized(Perform(started, id, effects))
  {
    PerformIs(started, id, effects);
    assert s.fates <= Perform(started, id, effects).fates;
    Kept(s, Perform(started, id, effects));
  }

  /** New fates that are not successful logins change nothing. */
  lemma Kept(s: Session, next: Session)
    requires Authorized(s) && s.fates <= next.fates
    requires next.state == s.state || next.state != Authenticated
    requires forall i :: |s.fates| <= i < |next.fates| ==> !LoginSucceeded(next.fates[i])
    requires next.crash.None? && next.currentJob.Some? ==>
      (next.currentJob.value.task.LoginTask? <==> next.currentJob.value.job.task.LoginTask?)
    ensures Authorized(next)
  {
    if next.state == Authenticated {
      var i :| 0 <= i < |s.fates| && LoginSucceeded(s.fates[i]);
      assert next.fates[i] == s.fates[i];
    }
  }

  lemma DeliverAuthorized(cfg: Config, s: Session, r: ServerResponse, sasl: SaslStep)
    requires s.crash.None? && Scheduled(s) && Authorized(s)
    ensures Authorized(Deliver(cfg, s, r, sasl))
  {
    if s.currentJob.Some? {
      var run := s.currentJob.value;
      var (task, effects) := HandleTask(cfg, s, run.task, r, sasl);
      var heard := run.heard + [Heard(r, s.caps.allowsDsn, sasl)];
      var told := s.(currentJob := Some(run.(heard := heard, task := task)));
      var next := Perform(told, run.job.id, effects);
      HandleShape(cfg, s, run.task, r, sasl);
      HandleAgrees(cfg, s, run.task, r, sasl);
      FateOfStep(told, run.job.id, effects);
      if run.task.LoginTask? && r.code == 235 {
        assert next.fates[|s.fates|] == Finished(told.currentJob.value, 0);
        assert LoginSucceeded(next.fates[|s.fates|]);
      } else {
        Kept(s, next);
      }
    }
  }

  /** The state, the fates and the current job after the calls of one step. */
  lemma FateOfStep(told: Session, id: nat, effects: seq<Effect>)
    requires IsCurrent(told, id) && WellFormed(effects)
    ensures var next := Perform(told, id, effects);
      && next.crash.None? && next.state == (if Authenticate in effects then Authenticated else told.state)
      && told.fates <= next.fates
      && next.fates == told.fates +
           (if Results(effects) == [] then [] else [Finished(told.currentJob.value, Results(effects)[0])])
      && (next.currentJob.Some? ==> next.currentJob == told.currentJob)
  {
    PerformIs(told, id, effects);
  }

  /** Only a login that hears 235 authenticates the session, and only it succeeds as a login. */
  lemma HandleAgrees(cfg: Config, s: Session, task: Task, r: ServerResponse, sasl: SaslStep)
    requires LiveTask(task)
    ensures var (next, effects) := HandleTask(cfg, s, task, r, sasl);
      && (next.LoginTask? <==> task.LoginTask?)
      && (Authenticate in effects <==> task.LoginTask? && r.code == 235)
      && (task.LoginTask? && r.code == 235 ==> Results(effects) == [0])
      && (task.LoginTask? && r.code != 235 && Results(effects) != [] ==> Results(effects)[0] != 0)
  {
    match task
    case SendTask(send) =>
      SD.StepIsWellFormed(send, r, s.caps.allowsDsn, cfg.ace);
    case LoginTask(login) =>
      LD.StepIsWellFormed(login, r, sasl, cfg.base64);
      var effects := LD.Handle(login, r, sasl, cfg.base64).1;
      if Results(effects) != [] {
        assert Results(effects)[0] in Results(effects);
      }
  }

  lemma LossAuthorized(s: Session)
    requires s.crash.None? && Scheduled(s) && Authorized(s)
    ensures Authorized(SocketDisconnected(s))
  {
    DisconnectDecidesAll(s);
    LostKeeps(s);
    var lost := SocketDisconnected(s);
    var more := lost.fates[|s.fates|..];
    forall i | |s.fates| <= i < |lost.fates| ensures !LoginSucceeded(lost.fates[i]) {
      assert lost.fates[i] == more[i - |s.fates|];
    }
    Kept(s, lost);
  }

  lemma ReplyAuthorized(cfg: Config, s: Session, r: ServerResponse, sasl: SaslStep)
    requires s.crash.None? && Scheduled(s) && Authorized(s)
    ensures Authorized(ResponseReceived(cfg, s, r, sasl))
  {
    if s.state != Quitting && !HandshakeFails(s, r) {
      var next := s;
      if s.state == Handshake {
        HandshakeReplyKeeps(cfg, s, r);
        next := HandshakeReply(cfg, s, r);
        HandshakeKept(cfg, s, r);
      }
      DeliverAuthorized(cfg, next, r, sasl);
    }
  }

  lemma HandshakeKept(cfg: Config, s: Session, r: ServerResponse)
    requires s.crash.None? && s.state == Handshake && Authorized(s)
    ensures Authorized(HandshakeReply(cfg, s, r))
  {
    if !Matches(r.code, 500) && !Matches(r.code, 502) && Matches(r.code, 25) {
      NotedKept(cfg, s, Note(cfg, s.caps, r.text));
    }
  }

  lemma NotedKept(cfg: Config, s: Session, caps: Capabilities)
    requires s.crash.None? && s.state == Handshake && Authorized(s)
    ensures Authorized(s.(caps := caps)) && Authorized(HandshakeDone(cfg, s.(caps := caps)))
  {
  }

  lemma QuietAuthorized(cfg: Config, s: Session, e: Event)
    requires s.crash.None? && Authorized(s) && Quiet(e)
    ensures Authorized(Step(cfg, s, e))
  {
    QuietDecidesNothing(cfg, s, e);
    Kept(s, Step(cfg, s, e));
  }

  lemma QuietDecidesNothing(cfg: Config, s: Session, e: Event)
    requires Quiet(e)
    ensures var next := Step(cfg, s, e);
      && next.fates == s.fates && next.currentJob == s.currentJob && next.crash == s.crash
      && (next.state == s.state || next.state != Authenticated)
  {
  }

  lemma StepAuthorized(cfg: Config, s: Session, added: seq<Job>, e: Event)
    requires Invariant(s) && Enabled(s, added, e) && Authorized(s)
    ensures Authorized(Step(cfg, s, e))
  {
    if Quiet(e) {
      QuietAuthorized(cfg, s, e);
    } else {
      match e
      case ConnectionLost => LossAuthorized(s);
      case Reply(r, step) => ReplyAuthorized(cfg, s, r, step);
      case StartEvent(start) => StartAuthorized(cfg, s.(startEvents := s.startEvents - 1), start);
    }
  }

  /**
   * In every run: a login is reported as successful only when the last reply it
   * heard is 235, and a session is authenticated only when some login was.
   */
  lemma {:induction false} AuthenticatedByLogin(cfg: Config, events: seq<Event>)
    requires IsRun(cfg, events)
    ensures Authorized(After(cfg, events))
    decreases |events|
  {
    if events != [] {
      var before, last := events[..|events| - 1], events[|events| - 1];
      AuthenticatedByLogin(cfg, before);
      JobsAreDecidedInOrder(cfg, before);
      StepAuthorized(cfg, After(cfg, before), Added(before), last);
    }
  }

  // ---------------------------------------------------------------------
  // Connection by connection
  // ---------------------------------------------------------------------

  /** Between `s` and `next` a login was decided with success, by a 235. */
  predicate Agreed(s: Session, next: Session, r: ServerResponse) {
    r.code == 235 && |next.fates| == |s.fates| + 1 && LoginSucceeded(next.fates[|s.fates|])
  }

  /**
   * A login has succeeded, and since then the session has not connected, lost its
   * connection, been told to quit or greeted the server anew.
   */
  predicate LoggedInSince(cfg: Config, events: seq<Event>) {
    events != []
    && var before, last := events[..|events| - 1], events[|events| - 1];
       match last
       case Connected => false
       case ConnectionLost => false
       case QuitCalled => false
       case Negotiated(_) => false
       case Reply(r, _) => Agreed(After(cfg, before), After(cfg, events), r) || LoggedInSince(cfg, before)
       case _ => LoggedInSince(cfg, before)
  }

  lemma DeliverLogin(cfg: Config, s: Session, r: ServerResponse, sasl: SaslStep)
    requires s.crash.None? && Scheduled(s) && Authorized(s)
    ensures var next := Deliver(cfg, s, r, sasl);
      next.state == if Agreed(s, next, r) then Authenticated else s.state
  {
    if s.currentJob.Some? {
      var run := s.currentJob.value;
      var (task, effects) := HandleTask(cfg, s, run.task, r, sasl);
      var heard := run.heard + [Heard(r, s.caps.allowsDsn, sasl)];
      HandleShape(cfg, s, run.task, r, sasl);
      HandleAgrees(cfg, s, run.task, r, sasl);
      FateOfStep(s.(currentJob := Some(run.(heard := heard, task := task))), run.job.id, effects);
    }
  }

  /** The branch for Handshake decides no job and authenticates nobody. */
  lemma HandshakeLogin(cfg: Config, s: Session, r: ServerResponse)
    requires s.state == Handshake
    ensures HandshakeReply(cfg, s, r).fates == s.fates && HandshakeReply(cfg, s, r).state != Authenticated
  {
    if !Matches(r.code, 500) && !Matches(r.code, 502) && Matches(r.code, 25) {
      EndLogin(cfg, s, Note(cfg, s.caps, r.text));
    }
  }

  lemma EndLogin(cfg: Config, s: Session, caps: Capabilities)
    requires s.state == Handshake
    ensures var next := HandshakeDone(cfg, s.(caps := caps)); next.fates == s.fates && next.state != Authenticated
  {
  }

  lemma ReplyLogin(cfg: Config, s: Session, r: ServerResponse, sasl: SaslStep)
    requires s.crash.None? && Scheduled(s) && Authorized(s)
    ensures var next := ResponseReceived(cfg, s, r, sasl);
      next.state == Authenticated <==> s.state == Authenticated || Agreed(s, next, r)
  {
    if s.state == Handshake && !HandshakeFails(s, r) {
      HandshakeReplyKeeps(cfg, s, r);
      HandshakeKept(cfg, s, r);
      HandshakeLogin(cfg, s, r);
      DeliverLogin(cfg, HandshakeReply(cfg, s, r), r, sasl);
    } else {
      DeliverLogin(cfg, s, r, sasl);
    }
  }

  lemma StartLogin(cfg: Config, s: Session, sasl: LD.SaslStart)
    requires s.crash.None? && Scheduled(s.(startEvents := s.startEvents + 1))
    ensures DoStartNext(cfg, s, sasl).state == s.state
  {
    if s.queue != [] && !s.jobRunning && s.state != Disconnected {
      var job := s.queue[0];
      var (task, effects) := StartTask(cfg, s, job.task, sasl);
      StartShape(cfg, s, job.task, sasl);
      if effects == [Abort(LoginUnencrypted)] {
        assert effects[1..] == [];
      } else {
        FateOfStep(s.(jobRunning := true, currentJob := Some(Begin(job, task)), queue := s.queue[1..]),
                   job.id, effects);
      }
    }
  }

  lemma QuietLogin(cfg: Config, s: Session, e: Event)
    requires Quiet(e)
    ensures Step(cfg, s, e).state == Authenticated <==>
      s.state == Authenticated && !e.Connected? && !e.QuitCalled? && !e.Negotiated?
  {
  }

  /** What one event makes of an authenticated session, and what makes a session authenticated. */
  lemma StepLogin(cfg: Config, s: Session, added: seq<Job>, e: Event)
    requires Invariant(s) && Enabled(s, added, e) && Authorized(s)
    ensures var next := Step(cfg, s, e);
      next.state == Authenticated <==> match e
        case Connected => false
        case ConnectionLost => false
        case QuitCalled => false
        case Negotiated(_) => false
        case Reply(r, _) => Agreed(s, next, r) || s.state == Authenticated
        case _ => s.state == Authenticated
  {
    if Quiet(e) {
      QuietLogin(cfg, s, e);
    } else {
      match e
      case ConnectionLost => LostKeeps(s);
      case Reply(r, step) => ReplyLogin(cfg, s, r, step);
      case StartEvent(start) => StartLogin(cfg, s.(startEvents := s.startEvents - 1), start);
    }
  }

  /**
   * In every run a session is authenticated exactly when a login has succeeded,
   * on a 235, on the connection it has now, and it has neither been told to quit
   * nor greeted the server anew since.
   */
  lemma {:induction false} AuthenticatedOnThisConnection(cfg: Config, events: seq<Event>)
    requires IsRun(cfg, events)
    ensures After(cfg, events).state == Authenticated <==> LoggedInSince(cfg, events)
    decreases |events|
  {
    if events != [] {
      var before, last := events[..|events| - 1], events[|events| - 1];
      AuthenticatedOnThisConnection(cfg, before);
      AuthenticatedByLogin(cfg, before);
      JobsAreDecidedInOrder(cfg, before);
      StepLogin(cfg, After(cfg, before), Added(before), last);
    }
  }
}
