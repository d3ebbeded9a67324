/**
 * Encryption over whole runs, with STARTTLS or TLS from the start: nothing is
 * ready in a session that should be encrypted before it is, and when the qFatal
 * that guards logins can fire.
 */
module Encryption {
  import opened ByteArrays
  import opened ReplyCodes
  import opened JobEffects
  import opened SessionModel
  import opened Scheduling
  import opened RunRules
  import SD = SendDialogue
  import LD = LoginDialogue

  /** open() and connects only while disconnected, no unknown protocol except at rest, no handshake ahead of TLS. */
  const ORDERLY := Rules(true, true, true, false, false, false, true)

  /** All that keeps the qFatal away. */
  const GUARDED := ORDERLY.(drained := true, refused := true)

  predicate Orderly(cfg: Config, s: Session, e: Event) { Follows(cfg, s, e, ORDERLY) }

  predicate OrderlyRun(cfg: Config, events: seq<Event>) {
    RunUnder(cfg, events, ORDERLY)
  }

  /** Where a reply in the handshake cannot make an unencrypted session ready. */
  predicate Guarded(cfg: Config, s: Session) {
    cfg.mode == STARTTLS || s.state != Handshake || SslKnown(s)
  }

  predicate LoginRunning(s: Session) {
    s.currentJob.Some? && s.currentJob.value.task.LoginTask?
  }

  predicate Gate(s: Session) {
    && (s.state == NotAuthenticated || s.state == Authenticated ==> SslKnown(s))
    && (s.crash.None? && LoginRunning(s) ==> SslKnown(s))
  }

  // What a step of a job can do to the gate.

  lemma StartGate(cfg: Config, s: Session, sasl: LD.SaslStart)
    requires cfg.mode != Unencrypted && s.crash.None? && Gate(s)
    requires Scheduled(s.(startEvents := s.startEvents + 1))
    ensures var next := DoStartNext(cfg, s, sasl);
      Gate(next) && next.sslVersion == s.sslVersion && next.state == s.state
    ensures SslKnown(s) ==> DoStartNext(cfg, s, sasl).crash.None?
  {
    if s.queue != [] && !s.jobRunning && s.state != Disconnected {
      var job := s.queue[0];
      var (task, effects) := StartTask(cfg, s, job.task, sasl);
      StartShape(cfg, s, job.task, sasl);
      if effects == [Abort(LoginUnencrypted)] {
        assert effects[1..] == [];
      } else {
        var started := s.(jobRunning := true, currentJob := Some(Begin(job, task)), queue := s.queue[1..]);
        FirstStepGate(s, started, job.id, effects);
      }
    }
  }

  lemma FirstStepGate(s: Session, started: Session, id: nat, effects: seq<Effect>)
    requires Gate(s) && IsCurrent(started, id) && WellFormed(effects) && Authenticate !in effects
    requires started.state == s.state && started.sslVersion == s.sslVersion
    requires LoginRunning(started) ==> SslKnown(s)
    ensures var next := Perform(started, id, effects);
      Gate(next) && next.sslVersion == s.sslVersion && next.state == s.state && next.crash.None?
  {
    PerformIs(started, id, effects);
  }

  lemma DeliverGate(cfg: Config, s: Session, r: ServerResponse, sasl: SaslStep)
    requires s.crash.None? && Scheduled(s) && Gate(s)
    ensures var next := Deliver(cfg, s, r, sasl);
      Gate(next) && next.sslVersion == s.sslVersion
    ensures s.currentJob.None? ==> Deliver(cfg, s, r, sasl) == s
  {
    if s.currentJob.Some? {
      var run := s.currentJob.value;
      var (task, effects) := HandleTask(cfg, s, run.task, r, sasl);
      HandleShape(cfg, s, run.task, r, sasl);
      if run.task.SendTask? {
        SD.StepIsWellFormed(run.task.send, r, s.caps.allowsDsn, cfg.ace);
        assert Authenticate !in effects;
      }
      var heard := run.heard + [Heard(r, s.caps.allowsDsn, sasl)];
      PerformIs(s.(currentJob := Some(run.(heard := heard, task := task))), run.job.id, effects);
    }
  }

  /** Nothing in the handshake changes the protocol, and it ends only with the protocol known. */
  lemma HandshakeReplyGate(cfg: Config, s: Session, r: ServerResponse)
    requires Guarded(cfg, s) && s.crash.None? && Gate(s) && s.state == Handshake
    ensures var next := HandshakeReply(cfg, s, r);
      && Gate(next) && next.sslVersion == s.sslVersion && next.crash.None? && next.currentJob == s.currentJob
      && next.state != Disconnected
      && (!SslKnown(s) ==> next.startEvents == s.startEvents)
  {
    if !Matches(r.code, 500) && !Matches(r.code, 502) && Matches(r.code, 25) {
      NotedGate(cfg, s, Note(cfg, s.caps, r.text));
    }
  }

  lemma NotedGate(cfg: Config, s: Session, caps: Capabilities)
    requires Guarded(cfg, s) && s.crash.None? && Gate(s) && s.state == Handshake
    ensures var next := HandshakeDone(cfg, s.(caps := caps));
      && Gate(next) && next.sslVersion == s.sslVersion && next.crash.None? && next.currentJob == s.currentJob
      && next.state != Disconnected
      && (!SslKnown(s) ==> next.startEvents == s.startEvents)
  {
  }

  lemma ReplyGate(cfg: Config, s: Session, r: ServerResponse, sasl: SaslStep)
    requires Guarded(cfg, s) && s.crash.None? && Scheduled(s) && Gate(s)
    ensures var next := ResponseReceived(cfg, s, r, sasl);
      Gate(next) && next.sslVersion == s.sslVersion
    ensures !SslKnown(s) && s.currentJob.None? ==>
      var next := ResponseReceived(cfg, s, r, sasl);
      next.startEvents == s.startEvents && next.currentJob.None?
  {
    if s.state != Quitting && !HandshakeFails(s, r) {
      var next := s;
      if s.state == Handshake {
        HandshakeReplyGate(cfg, s, r);
        HandshakeReplyKeeps(cfg, s, r);
        next := HandshakeReply(cfg, s, r);
      }
      DeliverGate(cfg, next, r, sasl);
    }
  }

  lemma StepGate(cfg: Config, s: Session, added: seq<Job>, e: Event)
    requires cfg.mode != Unencrypted && Invariant(s) && Enabled(s, added, e) && Orderly(cfg, s, e) && Gate(s)
    ensures Gate(Step(cfg, s, e))
  {
    if Quiet(e) {
      QuietGate(cfg, s, e);
    } else {
      match e
      case ConnectionLost => LostKeeps(s);
      case Reply(r, step) => ReplyGate(cfg, s, r, step);
      case StartEvent(start) => StartGate(cfg, s.(startEvents := s.startEvents - 1), start);
    }
  }

  lemma QuietGate(cfg: Config, s: Session, e: Event)
    requires Quiet(e) && Orderly(cfg, s, e) && Gate(s) && Scheduled(s) && s.crash.None?
    ensures Gate(Step(cfg, s, e))
  {
  }

  /**
   * When encryption was asked for, in every orderly run the session is ready for
   * jobs, or authenticated, only while a negotiated protocol is known.
   */
  lemma {:induction false} ReadyOnlyWhenEncrypted(cfg: Config, events: seq<Event>)
    requires cfg.mode != Unencrypted && OrderlyRun(cfg, events)
    ensures Gate(After(cfg, events))
    decreases |events|
  {
    if events != [] {
      var before, last := events[..|events| - 1], events[|events| - 1];
      ReadyOnlyWhenEncrypted(cfg, before);
      JobsAreDecidedInOrder(cfg, before);
      StepGate(cfg, After(cfg, before), Added(before), last);
    }
  }

  /** Has a protocol been negotiated since the connection was made, or asked for anew? */
  predicate NegotiatedSince(events: seq<Event>) {
    events != []
    && var last := events[|events| - 1];
       match last
       case Negotiated(version) => version != UnknownProtocol
       case Connected => false
       case OpenCalled => false
       case _ => NegotiatedSince(events[..|events| - 1])
  }

  lemma VersionStep(cfg: Config, s: Session, added: seq<Job>, e: Event)
    requires cfg.mode != Unencrypted && Invariant(s) && Enabled(s, added, e) && Gate(s)
    requires e.Reply? ==> Guarded(cfg, s)
    ensures Step(cfg, s, e).sslVersion == match e
      case Negotiated(version) => version
      case Connected => UnknownProtocol
      case OpenCalled => UnknownProtocol
      case _ => s.sslVersion
  {
    if Quiet(e) {
      QuietVersion(cfg, s, e);
    } else {
      match e
      case ConnectionLost => LossVersion(s);
      case Reply(r, step) => ReplyGate(cfg, s, r, step);
      case StartEvent(start) => StartGate(cfg, s.(startEvents := s.startEvents - 1), start);
    }
  }

  lemma QuietVersion(cfg: Config, s: Session, e: Event)
    requires Quiet(e)
    ensures Step(cfg, s, e).sslVersion == match e
      case Negotiated(version) => version
      case Connected => UnknownProtocol
      case OpenCalled => UnknownProtocol
      case _ => s.sslVersion
  {
  }

  lemma LossVersion(s: Session)
    requires s.crash.None? && Scheduled(s)
    ensures SocketDisconnected(s).sslVersion == s.sslVersion
  {
    var closed := Post(s.(state := Disconnected), CloseSocket);
    if closed.currentJob.Some? {
      LoseKeeps(closed);
    } else if closed.queue != [] {
      LoseKeeps(HeadTaken(closed));
    }
  }

  /**
   * And the protocol was negotiated on this very connection: not on an earlier
   * one, whose protocol does not survive a connect.
   */
  lemma {:induction false} EncryptedOnThisConnection(cfg: Config, events: seq<Event>)
    requires cfg.mode != Unencrypted && OrderlyRun(cfg, events)
    ensures SslKnown(After(cfg, events)) <==> NegotiatedSince(events)
    ensures After(cfg, events).state in {NotAuthenticated, Authenticated} ==> NegotiatedSince(events)
    decreases |events|
  {
    ReadyOnlyWhenEncrypted(cfg, events);
    if events != [] {
      var before, last := events[..|events| - 1], events[|events| - 1];
      EncryptedOnThisConnection(cfg, before);
      ReadyOnlyWhenEncrypted(cfg, before);
      JobsAreDecidedInOrder(cfg, before);
      VersionStep(cfg, After(cfg, before), Added(before), last);
    }
  }

  // ---------------------------------------------------------------------
  // The qFatal
  // ---------------------------------------------------------------------

  /** While the protocol is unknown on an open connection, no job runs and none is about to. */
  predicate NothingStarts(s: Session) {
    !SslKnown(s) && s.state != Disconnected ==> s.startEvents == 0 && s.currentJob.None?
  }

  lemma StepStartsNothing(cfg: Config, s: Session, added: seq<Job>, e: Event)
    requires cfg.mode != Unencrypted && s.crash.None? && Scheduled(s) && Gate(s) && NothingStarts(s)
    requires Enabled(s, added, e) && Follows(cfg, s, e, GUARDED)
    ensures Step(cfg, s, e).crash.None? && NothingStarts(Step(cfg, s, e))
  {
    if Quiet(e) {
      QuietStartsNothing(cfg, s, e);
    } else {
      match e
      case ConnectionLost => LostKeeps(s);
      case Reply(r, step) =>
        ReplyGate(cfg, s, r, step);
        ReplyKeeps(cfg, s, r, step);
        if s.state == Disconnected {
          ReplyStaysOpen(cfg, s, r, step);
        }
      case StartEvent(start) => StartGate(cfg, s.(startEvents := s.startEvents - 1), start);
    }
  }

  lemma QuietStartsNothing(cfg: Config, s: Session, e: Event)
    requires Quiet(e) && Follows(cfg, s, e, GUARDED) && NothingStarts(s) && Gate(s) && Scheduled(s) && s.crash.None?
    ensures Step(cfg, s, e).crash.None? && NothingStarts(Step(cfg, s, e))
  {
  }

  /** A reply does not open a connection. */
  lemma ReplyStaysOpen(cfg: Config, s: Session, r: ServerResponse, sasl: SaslStep)
    requires s.crash.None? && s.state == Disconnected && s.currentJob.None?
    ensures ResponseReceived(cfg, s, r, sasl) == s
  {
  }

  /** Under these rules no login is started without encryption that was asked for. */
  lemma {:induction false} NoUnencryptedLogin(cfg: Config, events: seq<Event>)
    requires cfg.mode != Unencrypted && RunUnder(cfg, events, GUARDED)
    ensures After(cfg, events).crash.None? && NothingStarts(After(cfg, events))
    decreases |events|
  {
    if events != [] {
      var before, last := events[..|events| - 1], events[|events| - 1];
      NoUnencryptedLogin(cfg, before);
      Weaken(cfg, before, GUARDED, ORDERLY);
      ReadyOnlyWhenEncrypted(cfg, before);
      JobsAreDecidedInOrder(cfg, before);
      StepStartsNothing(cfg, After(cfg, before), Added(before), last);
    }
  }

  /**
   * Exactly when a step of an orderly run ends in the qFatal: a start event
   * finds a login at the head of the queue and no job running, on a connection
   * that is open, not yet encrypted, and not ready for jobs.
   */
  lemma QFatalExactlyWhen(cfg: Config, s: Session, added: seq<Job>, e: Event)
    requires cfg.mode != Unencrypted && s.crash.None? && Scheduled(s) && Gate(s)
    requires Enabled(s, added, e) && Orderly(cfg, s, e)
    ensures Step(cfg, s, e).crash.Some? <==>
      && e.StartEvent? && !SslKnown(s) && s.state in {Ready, Handshake, Quitting}
      && !s.jobRunning && s.queue != [] && s.queue[0].task.LoginTask?
  {
    if e.StartEvent? {
      StartCrashes(cfg, s.(startEvents := s.startEvents - 1), e.start);
    } else {
      NoCrash(cfg, s, added, e);
    }
  }

  /** Only a start event can end a run. */
  lemma NoCrash(cfg: Config, s: Session, added: seq<Job>, e: Event)
    requires s.crash.None? && Scheduled(s) && Enabled(s, added, e) && !e.StartEvent?
    ensures Step(cfg, s, e).crash.None?
  {
    if Quiet(e) {
      QuietKeeps(cfg, s, added, e);
    } else {
      match e
      case ConnectionLost => LostKeeps(s);
      case Reply(r, step) => ReplyKeeps(cfg, s, r, step);
    }
  }

  lemma StartCrashes(cfg: Config, s: Session, sasl: LD.SaslStart)
    requires s.crash.None? && Scheduled(s.(startEvents := s.startEvents + 1))
    ensures DoStartNext(cfg, s, sasl).crash.Some? <==>
      && s.queue != [] && !s.jobRunning && s.state != Disconnected
      && s.queue[0].task.LoginTask? && !Secured(cfg, s)
  {
    if s.queue != [] && !s.jobRunning && s.state != Disconnected {
      var job := s.queue[0];
      var (task, effects) := StartTask(cfg, s, job.task, sasl);
      StartShape(cfg, s, job.task, sasl);
      if effects == [Abort(LoginUnencrypted)] {
        assert effects[1..] == [];
      } else {
        PerformKeeps(s.(jobRunning := true, currentJob := Some(Begin(job, task)), queue := s.queue[1..]),
                     job.id, effects);
      }
    }
  }

  /** Without encryption asked for, no run ends in the qFatal. */
  lemma {:induction false} NeverWithoutEncryptionMode(cfg: Config, events: seq<Event>)
    requires cfg.mode == Unencrypted && IsRun(cfg, events)
    ensures After(cfg, events).crash.None?
    decreases |events|
  {
    if events != [] {
      var before, last := events[..|events| - 1], events[|events| - 1];
      var s := After(cfg, before);
      NeverWithoutEncryptionMode(cfg, before);
      JobsAreDecidedInOrder(cfg, before);
      if last.StartEvent? {
        StartCrashes(cfg, s.(startEvents := s.startEvents - 1), last.start);
      } else {
        NoCrash(cfg, s, Added(before), last);
      }
    }
  }

  // ---------------------------------------------------------------------
  // Runs that end in the qFatal
  // ---------------------------------------------------------------------

  const SECOND := Job(3, LoginTask(LD.NEW_LOGIN_JOB))

  /** An open connection, not encrypted, with a login waiting and about to be started. */
  predicate LoginAboutToStart(s: Session) {
    && s.crash.None? && !SslKnown(s) && s.state != Disconnected && !s.jobRunning
    && s.queue != [] && s.queue[0].task.LoginTask? && s.startEvents > 0
  }

  lemma LastStep(cfg: Config, before: seq<Event>, rules: Rules) returns (run: seq<Event>)
    requires cfg.mode != Unencrypted && RunUnder(cfg, before, rules) && LoginAboutToStart(After(cfg, before))
    ensures RunUnder(cfg, run, rules) && After(cfg, run).crash == Some(LoginUnencrypted)
  {
    var s := After(cfg, before);
    JobsAreDecidedInOrder(cfg, before);
    run := Extend(cfg, before, StartEvent(LD.LibraryFailed), rules);
    StartCrashes(cfg, s.(startEvents := s.startEvents - 1), LD.LibraryFailed);
    JobsAreDecidedInOrder(cfg, run);
  }

  lemma NotOffered(cfg: Config, s: Session, r: ServerResponse)
    requires cfg.mode == STARTTLS && s.state == Handshake && !SslKnown(s) && !s.caps.allowsTls && s.currentJob.None?
    requires r == ServerResponse(250, [], false)
    ensures ResponseReceived(cfg, s, r, NO_STEP) == Quit(s)
  {
    CodeRanges(250);
    assert Note(cfg, s.caps, []) == s.caps;
  }

  /** The session quits before it was encrypted: STARTTLS is not offered, or the user does not wait for TLS. */
  lemma QuitsUnencrypted(cfg: Config) returns (run: seq<Event>)
    requires cfg.mode != Unencrypted
    ensures RunUnder(cfg, run, ALL_RULES) && Added(run) == []
    ensures var s := After(cfg, run); Idle(s) && s.state == Quitting && !SslKnown(s)
  {
    if cfg.mode == STARTTLS {
      var answered := ServerResponse(250, [], false);
      run := Greeted(cfg);
      NotOffered(cfg, After(cfg, run), answered);
      run := Extend(cfg, run, Reply(answered, NO_STEP), ALL_RULES);
    } else {
      run := Extend(cfg, [], Connected, ALL_RULES);
      run := Extend(cfg, run, QuitCalled, ALL_RULES);
    }
  }

  /** A login added to it then is started all the same. */
  lemma LoginWhileQuitting(cfg: Config) returns (run: seq<Event>)
    requires cfg.mode != Unencrypted
    ensures RunUnder(cfg, run, ALL_RULES.(refused := false)) && After(cfg, run).crash == Some(LoginUnencrypted)
  {
    var rules := ALL_RULES.(refused := false);
    run := QuitsUnencrypted(cfg);
    Weaken(cfg, run, ALL_RULES, rules);
    run := Extend(cfg, run, JobAdded(LOGIN), rules);
    run := LastStep(cfg, run, rules);
  }

  /** A start event left over from a failed open() starts a login right after the next connect. */
  lemma LoginAfterReconnect(cfg: Config) returns (run: seq<Event>)
    requires cfg.mode != Unencrypted
    ensures RunUnder(cfg, run, ALL_RULES.(drained := false)) && After(cfg, run).crash == Some(LoginUnencrypted)
  {
    var rules := ALL_RULES.(drained := false);
    run := LeftoverStartEvent(cfg);
    Weaken(cfg, run, ALL_RULES, rules);
    assert Ids([SENDING]) == [2];
    run := Extend(cfg, run, JobAdded(LOGIN), rules);
    run := Extend(cfg, run, Connected, rules);
    run := LastStep(cfg, run, rules);
  }

  /** open() forgets the protocol of a session that is ready. */
  lemma LoginAfterOpen(cfg: Config) returns (run: seq<Event>)
    requires cfg.mode != Unencrypted
    ensures RunUnder(cfg, run, ALL_RULES.(opens := false)) && After(cfg, run).crash == Some(LoginUnencrypted)
  {
    var rules := ALL_RULES.(opens := false);
    run := ReadyIdle(cfg);
    Weaken(cfg, run, ALL_RULES, rules);
    run := Extend(cfg, run, OpenCalled, rules);
    run := Extend(cfg, run, JobAdded(LOGIN), rules);
    run := LastStep(cfg, run, rules);
  }

  /** So does a further negotiation that reports no protocol, here when a login is about to start. */
  lemma LoginAfterUnknownProtocol(cfg: Config) returns (run: seq<Event>)
    requires cfg.mode != Unencrypted
    ensures RunUnder(cfg, run, ALL_RULES.(known := false, still := false))
    ensures After(cfg, run).crash == Some(LoginUnencrypted)
  {
    var rules := ALL_RULES.(known := false, still := false);
    run := ReadyIdle(cfg);
    Weaken(cfg, run, ALL_RULES, rules);
    run := Extend(cfg, run, JobAdded(LOGIN), rules);
    run := Extend(cfg, run, Negotiated(UnknownProtocol), rules);
    run := LastStep(cfg, run, rules);
  }

  /** With TLS from the start the handshake does not look at the protocol. */
  lemma LoginAheadOfTls(cfg: Config) returns (run: seq<Event>)
    requires cfg.mode == TLS
    ensures RunUnder(cfg, run, ALL_RULES.(silent := false)) && After(cfg, run).crash == Some(LoginUnencrypted)
  {
    var rules := ALL_RULES.(silent := false);
    run := ReadyAheadOfTls(cfg);
    run := Extend(cfg, run, JobAdded(LOGIN), rules);
    run := LastStep(cfg, run, rules);
  }

  lemma ReadyAheadOfTls(cfg: Config) returns (run: seq<Event>)
    requires cfg.mode == TLS
    ensures RunUnder(cfg, run, ALL_RULES.(silent := false)) && Added(run) == []
    ensures var s := After(cfg, run);
      s.crash.None? && s.state == NotAuthenticated && !SslKnown(s) && !s.jobRunning && s.queue == []
  {
    var rules := ALL_RULES.(silent := false);
    run := Greeted(cfg);
    Weaken(cfg, run, ALL_RULES, rules);
    OffersPlain(cfg, After(cfg, run));
    run := Extend(cfg, run, Reply(ServerResponse(250, "AUTH PLAIN", false), NO_STEP), rules);
  }

  /** Its result, whatever it is, wakes the next job. */
  lemma LoginEnds(cfg: Config, s: Session, code: int)
    requires LoginWaits(s) && (code == 235 || code == 500)
    requires s.state == Ready || (s.state == Handshake && code == 235)
    ensures var next := ResponseReceived(cfg, s, ServerResponse(code, [], false), NO_STEP);
      && next.crash.None? && !next.jobRunning && next.currentJob.None? && next.queue == s.queue
      && next.startEvents == 1 && next.sslVersion == s.sslVersion
      && next.state == if code == 235 then Authenticated else Ready
  {
    var run, r := s.currentJob.value, ServerResponse(code, [], false);
    CodeRanges(code);
    assert ResponseReceived(cfg, s, r, NO_STEP) == Deliver(cfg, s, r, NO_STEP);
    LoginIsDecided(cfg, s, r);
  }

  lemma LoginIsDecided(cfg: Config, s: Session, r: ServerResponse)
    requires LoginWaits(s) && (r.code == 235 || r.code == 500)
    ensures var next := Deliver(cfg, s, r, NO_STEP);
      && next.crash.None? && !next.jobRunning && next.currentJob.None? && next.queue == s.queue
      && next.startEvents == 1 && next.sslVersion == s.sslVersion
      && next.state == if r.code == 235 then Authenticated else s.state
  {
    var run := s.currentJob.value;
    var (task, effects) := HandleTask(cfg, s, run.task, r, NO_STEP);
    LoginResult(cfg, run.task.login, r);
    var heard := run.heard + [Heard(r, s.caps.allowsDsn, NO_STEP)];
    PerformIs(s.(currentJob := Some(run.(heard := heard, task := task))), run.job.id, effects);
  }

  lemma LoginResult(cfg: Config, login: LD.LoginState, r: ServerResponse)
    requires r.code == 235 || r.code == 500
    ensures var effects := LD.Handle(login, r, NO_STEP, cfg.base64).1;
      WellFormed(effects) && |Results(effects)| == 1 && (Authenticate in effects <==> r.code == 235)
  {
    CodeRanges(r.code);
    LD.StepIsWellFormed(login, r, NO_STEP, cfg.base64);
    if r.code == 500 {
      LD.ErrorEndsStep(login, r, NO_STEP, cfg.base64);
      LD.OneResult(USER_DEFINED_ERROR);
    }
  }

  /** The end of the first login starts a second one on the connection that is not encrypted. */
  lemma LoginAfterSecondConnect(cfg: Config) returns (run: seq<Event>)
    requires cfg.mode != Unencrypted
    ensures RunUnder(cfg, run, ALL_RULES.(connects := false)) && After(cfg, run).crash == Some(LoginUnencrypted)
  {
    var rules := ALL_RULES.(connects := false);
    run := SecondWaits(cfg);
    LoginEnds(cfg, After(cfg, run), 500);
    run := Extend(cfg, run, Reply(ServerResponse(500, [], false), NO_STEP), rules);
    run := LastStep(cfg, run, rules);
  }

  lemma SecondWaits(cfg: Config) returns (run: seq<Event>)
    ensures RunUnder(cfg, run, ALL_RULES.(connects := false))
    ensures var s := After(cfg, run); LoginWaits(s) && s.queue == [SECOND] && s.state == Ready && !SslKnown(s)
  {
    run := ConnectedDuringLogin(cfg);
    assert Ids([LOGIN]) == [1];
    run := Extend(cfg, run, JobAdded(SECOND), ALL_RULES.(connects := false));
  }

  /** The rules that keep the qFatal away. */
  predicate Suffice(cfg: Config, rules: Rules) {
    && rules.opens && rules.connects && (rules.known || rules.still) && rules.drained && rules.refused
    && (cfg.mode == TLS ==> rules.silent)
  }

  /**
   * When encryption was asked for, the qFatal is unreachable in all runs that
   * follow the rules in force exactly when these rules are: each is needed even
   * with all others.
   */
  lemma QFatalUnreachableIff(cfg: Config, rules: Rules)
    requires cfg.mode != Unencrypted
    ensures (forall run :: RunUnder(cfg, run, rules) ==> After(cfg, run).crash.None?) <==> Suffice(cfg, rules)
  {
    if Suffice(cfg, rules) {
      forall run | RunUnder(cfg, run, rules) ensures After(cfg, run).crash.None? {
        AreGuarded(cfg, run, rules);
        NoUnencryptedLogin(cfg, run);
      }
    } else {
      var run, had := RunIntoQFatal(cfg, rules);
      Weaken(cfg, run, had, rules);
      assert RunUnder(cfg, run, rules) && After(cfg, run).crash.Some?;
    }
  }

  lemma AreGuarded(cfg: Config, run: seq<Event>, rules: Rules)
    requires RunUnder(cfg, run, rules) && Suffice(cfg, rules)
    ensures RunUnder(cfg, run, GUARDED)
  {
    Silent(cfg, run, rules);
    Weaken(cfg, run, rules.(silent := true), GUARDED);
  }

  /** Except with TLS from the start, `silent` asks for nothing. */
  lemma {:induction false} Silent(cfg: Config, run: seq<Event>, rules: Rules)
    requires RunUnder(cfg, run, rules) && (cfg.mode == TLS ==> rules.silent)
    ensures RunUnder(cfg, run, rules.(silent := true))
    decreases |run|
  {
    if run != [] {
      Silent(cfg, run[..|run| - 1], rules);
    }
  }

  /** A run that breaks only rules that are not in force. */
  lemma RunIntoQFatal(cfg: Config, rules: Rules) returns (run: seq<Event>, had: Rules)
    requires cfg.mode != Unencrypted && !Suffice(cfg, rules)
    ensures RunUnder(cfg, run, had) && Includes(had, rules) && After(cfg, run).crash == Some(LoginUnencrypted)
  {
    if !rules.opens {
      run := LoginAfterOpen(cfg);
      had := ALL_RULES.(opens := false);
    } else if !rules.connects {
      run := LoginAfterSecondConnect(cfg);
      had := ALL_RULES.(connects := false);
    } else if !rules.known && !rules.still {
      run := LoginAfterUnknownProtocol(cfg);
      had := ALL_RULES.(known := false, still := false);
    } else if !rules.drained {
      run := LoginAfterReconnect(cfg);
      had := ALL_RULES.(drained := false);
    } else if !rules.refused {
      run := LoginWhileQuitting(cfg);
      had := ALL_RULES.(refused := false);
    } else {
      run := LoginAheadOfTls(cfg);
      had := ALL_RULES.(silent := false);
    }
  }

  // ---------------------------------------------------------------------
  // Ready without encryption
  // ---------------------------------------------------------------------

  /** Ready for jobs while no negotiated protocol is known. */
  predicate ReadyUnencrypted(s: Session) {
    s.state in {NotAuthenticated, Authenticated} && !SslKnown(s)
  }

  /** A login hears 235 on a connection whose protocol is not known. */
  lemma AuthenticatedUnencrypted(cfg: Config, before: seq<Event>, rules: Rules) returns (run: seq<Event>)
    requires cfg.mode == STARTTLS && RunUnder(cfg, before, rules)
    requires var s := After(cfg, before); LoginWaits(s) && !SslKnown(s) && s.state in {Ready, Handshake}
    ensures RunUnder(cfg, run, rules) && ReadyUnencrypted(After(cfg, run))
  {
    LoginEnds(cfg, After(cfg, before), 235);
    run := Extend(cfg, before, Reply(ServerResponse(235, [], false), NO_STEP), rules);
  }

  lemma RunIntoReadyUnencrypted(cfg: Config, rules: Rules) returns (run: seq<Event>)
    requires cfg.mode == STARTTLS && !(rules.opens && rules.connects && (rules.known || rules.still))
    ensures RunUnder(cfg, run, rules) && ReadyUnencrypted(After(cfg, run))
  {
    if !rules.opens {
      run := ReadyIdle(cfg);
      Weaken(cfg, run, ALL_RULES, rules);
      run := Extend(cfg, run, OpenCalled, rules);
    } else if !rules.connects {
      run := ConnectedDuringLogin(cfg);
      Weaken(cfg, run, ALL_RULES.(connects := false), rules);
      run := AuthenticatedUnencrypted(cfg, run, rules);
    } else {
      run := LoginRuns(cfg);
      Weaken(cfg, run, ALL_RULES, rules);
      NegotiatedWhileWaiting(cfg, After(cfg, run));
      run := Extend(cfg, run, Negotiated(UnknownProtocol), rules);
      run := AuthenticatedUnencrypted(cfg, run, rules);
    }
  }

  lemma NegotiatedWhileWaiting(cfg: Config, s: Session)
    requires LoginWaits(s)
    ensures var next := NegotiationResult(cfg, s, true, UnknownProtocol);
      LoginWaits(next) && next.state == Handshake && !SslKnown(next)
  {
  }

  /** With STARTTLS the gate holds in all runs that follow the rules in force exactly when these are. */
  lemma ReadyOnlyWhenEncryptedIff(cfg: Config, rules: Rules)
    requires cfg.mode == STARTTLS
    ensures (forall run :: RunUnder(cfg, run, rules) ==> !ReadyUnencrypted(After(cfg, run)))
       <==> rules.opens && rules.connects && (rules.known || rules.still)
  {
    if rules.opens && rules.connects && (rules.known || rules.still) {
      forall run | RunUnder(cfg, run, rules) ensures !ReadyUnencrypted(After(cfg, run)) {
        Silent(cfg, run, rules);
        Weaken(cfg, run, rules.(silent := true), ORDERLY);
        ReadyOnlyWhenEncrypted(cfg, run);
      }
    } else {
      var run := RunIntoReadyUnencrypted(cfg, rules);
      assert exists r :: RunUnder(cfg, r, rules) && ReadyUnencrypted(After(cfg, r));
    }
  }
}
