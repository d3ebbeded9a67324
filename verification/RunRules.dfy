/**
 * Rules that the surroundings of a session may or may not keep, runs that keep
 * them, and some runs that do. Theorems elsewhere say which rules they need.
 */
module RunRules {
  import opened ByteArrays
  import opened ReplyCodes
  import opened JobEffects
  import opened SessionModel
  import opened Scheduling
  import Handshakes
  import SD = SendDialogue
  import LD = LoginDialogue

  predicate SslKnown(s: Session) { s.sslVersion != UnknownProtocol }

  /** No job runs, and none is about to be started. */
  predicate AtRest(s: Session) {
    s.currentJob.None? && s.startEvents == 0
  }

  /**
   * - `opens`: open() is called only while disconnected;
   * - `connects`: a connect comes only while disconnected;
   * - `known`: a negotiation that reports no known protocol comes only at rest;
   * - `still`: any negotiation comes only at rest (which implies `known`);
   * - `drained`: at a connect no start event is pending;
   * - `refused`: no job is added to a session that is quitting before it was encrypted;
   * - `silent`: in a session that uses TLS from the start, no reply comes in the
   *   handshake before the protocol is known.
   */
  datatype Rules = Rules(
    opens: bool, connects: bool, known: bool, still: bool, drained: bool, refused: bool, silent: bool)

  const ALL_RULES := Rules(true, true, true, true, true, true, true)

  predicate Follows(cfg: Config, s: Session, e: Event, rules: Rules) {
    && (rules.opens && e.OpenCalled? ==> s.state == Disconnected)
    && (rules.connects && e.Connected? ==> s.state == Disconnected)
    && (rules.known && e.Negotiated? && e.version == UnknownProtocol ==> AtRest(s))
    && (rules.still && e.Negotiated? ==> AtRest(s))
    && (rules.drained && e.Connected? ==> s.startEvents == 0)
    && (rules.refused && e.JobAdded? ==> s.state != Quitting || SslKnown(s))
    && (rules.silent && cfg.mode == TLS && e.Reply? && s.state == Handshake ==> SslKnown(s))
  }

  /** A run all of whose events follow the rules that are in force. */
  predicate RunUnder(cfg: Config, events: seq<Event>, rules: Rules) {
    IsRun(cfg, events)
    && (events == []
        || var before := events[..|events| - 1];
           RunUnder(cfg, before, rules) && Follows(cfg, After(cfg, before), events[|events| - 1], rules))
  }

  /** What keeps the rules `had` keeps the rules `rules`. */
  predicate Includes(had: Rules, rules: Rules) {
    && (rules.opens ==> had.opens) && (rules.connects ==> had.connects)
    && (rules.known ==> had.known || had.still) && (rules.still ==> had.still)
    && (rules.drained ==> had.drained) && (rules.refused ==> had.refused) && (rules.silent ==> had.silent)
  }

  /** Fewer rules admit more runs. */
  lemma {:induction false} Weaken(cfg: Config, run: seq<Event>, had: Rules, rules: Rules)
    requires RunUnder(cfg, run, had) && Includes(had, rules)
    ensures RunUnder(cfg, run, rules)
    decreases |run|
  {
    if run != [] {
      Weaken(cfg, run[..|run| - 1], had, rules);
    }
  }

  lemma Extend(cfg: Config, before: seq<Event>, e: Event, rules: Rules) returns (run: seq<Event>)
    requires RunUnder(cfg, before, rules)
    requires Enabled(After(cfg, before), Added(before), e) && Follows(cfg, After(cfg, before), e, rules)
    ensures run == before + [e] && RunUnder(cfg, run, rules)
    ensures After(cfg, run) == Step(cfg, After(cfg, before), e)
    ensures Added(run) == Added(before) + if e.JobAdded? then [e.job] else []
  {
    run := before + [e];
    OneMoreEvent(cfg, before, e);
    RunUnderMore(cfg, before, e, rules);
  }

  lemma RunUnderMore(cfg: Config, before: seq<Event>, e: Event, rules: Rules)
    requires RunUnder(cfg, before, rules) && IsRun(cfg, before + [e]) && Follows(cfg, After(cfg, before), e, rules)
    ensures RunUnder(cfg, before + [e], rules)
  {
    assert (before + [e])[..|before|] == before;
  }

  // ---------------------------------------------------------------------
  // Some runs
  // ---------------------------------------------------------------------

  const LOGIN := Job(1, LoginTask(LD.NEW_LOGIN_JOB))
  const SENDING := Job(2, SendTask(SD.NEW_SEND_JOB))

  /** Nothing runs, waits or is about to start, and HELO has not been needed. */
  predicate Idle(s: Session) {
    s.crash.None? && s.currentJob.None? && !s.jobRunning && s.queue == [] && s.startEvents == 0 && !s.ehloRejected
  }

  /** The server has greeted. */
  lemma Greeted(cfg: Config) returns (run: seq<Event>)
    ensures RunUnder(cfg, run, ALL_RULES) && Added(run) == []
    ensures var s := After(cfg, run);
      Idle(s) && s.state == Handshake && !SslKnown(s) && !s.starttlsSent && s.caps == NO_CAPABILITIES
  {
    run := Extend(cfg, [], Connected, ALL_RULES);
    var s := After(cfg, run);
    assert s == SocketConnected(NEW_SESSION);
    Greets(cfg, s, ServerResponse(220, [], false));
    run := Extend(cfg, run, Reply(ServerResponse(220, [], false), NO_STEP), ALL_RULES);
  }

  lemma Greets(cfg: Config, s: Session, r: ServerResponse)
    requires s.state == Ready && r.code == 220
    ensures ResponseReceived(cfg, s, r, NO_STEP) == StartHandshake(cfg, s)
  {
    CodeRanges(220);
  }

  lemma LoseOnlyJob(s: Session)
    requires s.crash.None? && s.state == Disconnected && s.currentJob.None? && !s.jobRunning
    requires s.queue == [SENDING] && s.startEvents == 0 && Scheduled(s)
    ensures var lost := SocketDisconnected(s);
      && lost.crash.None? && lost.state == Disconnected && lost.queue == [] && lost.currentJob.None?
      && !lost.jobRunning && lost.sslVersion == s.sslVersion && lost.startEvents == 1
      && lost.ehloRejected == s.ehloRejected && lost.caps == s.caps
  {
    Handshakes.LossFrame(s);
    LoseKeeps(HeadTaken(Post(s, CloseSocket)));
  }

  /** open() times out: the job that waits is failed, and a start event is left behind. */
  lemma LeftoverStartEvent(cfg: Config) returns (run: seq<Event>)
    ensures RunUnder(cfg, run, ALL_RULES) && Added(run) == [SENDING]
    ensures var s := After(cfg, run);
      && s.crash.None? && s.state == Disconnected && s.queue == [] && s.currentJob.None? && !s.jobRunning
      && s.startEvents == 1 && !s.ehloRejected && s.caps == NO_CAPABILITIES
  {
    run := JobAfterOpen(cfg);
    JobsAreDecidedInOrder(cfg, run);
    LoseOnlyJob(After(cfg, run));
    run := Extend(cfg, run, ConnectionLost, ALL_RULES);
  }

  lemma JobAfterOpen(cfg: Config) returns (run: seq<Event>)
    ensures RunUnder(cfg, run, ALL_RULES) && Added(run) == [SENDING]
    ensures var s := After(cfg, run);
      && s.crash.None? && s.state == Disconnected && s.queue == [SENDING] && s.currentJob.None? && !s.jobRunning
      && s.startEvents == 0 && !s.ehloRejected && s.caps == NO_CAPABILITIES
  {
    run := Extend(cfg, [], OpenCalled, ALL_RULES);
    run := Extend(cfg, run, JobAdded(SENDING), ALL_RULES);
  }

  lemma Offers(cfg: Config, s: Session)
    requires cfg.mode == STARTTLS && Idle(s) && s.state == Handshake && !SslKnown(s) && s.caps == NO_CAPABILITIES
    ensures ResponseReceived(cfg, s, ServerResponse(250, "STARTTLS", false), NO_STEP)
         == SendData(s.(caps := s.caps.(allowsTls := true), starttlsSent := true), FromSession, "STARTTLS")
  {
    CodeRanges(250);
    assert "SIZE "[1] == 'I' && "STARTTLS"[1] == 'T';
  }

  lemma Agrees(cfg: Config, s: Session)
    requires Idle(s) && s.state == Handshake && s.starttlsSent
    ensures ResponseReceived(cfg, s, ServerResponse(220, [], false), NO_STEP)
         == Post(s.(starttlsSent := false), StartSsl)
  {
    CodeRanges(220);
  }

  lemma OffersPlain(cfg: Config, s: Session)
    requires Idle(s) && s.state == Handshake && s.caps.authModes == [] && (cfg.mode == STARTTLS ==> SslKnown(s))
    ensures ResponseReceived(cfg, s, ServerResponse(250, "AUTH PLAIN", false), NO_STEP)
         == s.(caps := s.caps.(authModes := ["PLAIN"]), state := NotAuthenticated, startEvents := 1)
  {
    CodeRanges(250);
    NotesPlain(cfg, s.caps);
  }

  lemma NotesPlain(cfg: Config, caps: Capabilities)
    requires caps.authModes == []
    ensures Note(cfg, caps, "AUTH PLAIN") == caps.(authModes := ["PLAIN"])
  {
    var line: Bytes := "AUTH PLAIN";
    assert "SIZE "[0] == 'S' && line[0] == 'A' && line[..5] == "AUTH ";
    assert RemoveFirst(line, 5) == "PLAIN";
    OneWord("PLAIN");
    OneMethod("PLAIN");
  }

  lemma OneWord(word: Bytes)
    requires ' ' !in word
    ensures Split(word) == [word]
  {
    assert word[0..] == word;
  }

  lemma OneMethod(name: Bytes)
    ensures AddMethods([], [name]) == [name]
  {
    assert [name][..0] == [];
  }

  /** The server has greeted, offered STARTTLS and agreed to it. */
  lemma TlsAgreed(cfg: Config) returns (run: seq<Event>)
    requires cfg.mode == STARTTLS
    ensures RunUnder(cfg, run, ALL_RULES) && Added(run) == []
    ensures var s := After(cfg, run);
      Idle(s) && s.state == Handshake && s.caps == NO_CAPABILITIES.(allowsTls := true)
  {
    run := Greeted(cfg);
    Offers(cfg, After(cfg, run));
    run := Extend(cfg, run, Reply(ServerResponse(250, "STARTTLS", false), NO_STEP), ALL_RULES);
    Agrees(cfg, After(cfg, run));
    run := Extend(cfg, run, Reply(ServerResponse(220, [], false), NO_STEP), ALL_RULES);
  }

  /** The last greeting has been said: encrypted, if encryption was asked for. */
  lemma LastGreeting(cfg: Config) returns (run: seq<Event>)
    ensures RunUnder(cfg, run, ALL_RULES) && Added(run) == []
    ensures var s := After(cfg, run);
      && Idle(s) && s.state == Handshake && (SslKnown(s) <==> cfg.mode != Unencrypted)
      && s.caps.authModes == [] && s.caps.sizeLimit == 0
  {
    if cfg.mode == Unencrypted {
      run := Greeted(cfg);
    } else if cfg.mode == STARTTLS {
      run := TlsAgreed(cfg);
      run := Extend(cfg, run, Negotiated(KnownProtocol(0)), ALL_RULES);
    } else {
      run := Extend(cfg, [], Connected, ALL_RULES);
      run := Extend(cfg, run, Negotiated(KnownProtocol(0)), ALL_RULES);
    }
  }

  /** The session is ready for a login, and idle. */
  lemma ReadyIdle(cfg: Config) returns (run: seq<Event>)
    ensures RunUnder(cfg, run, ALL_RULES) && Added(run) == []
    ensures var s := After(cfg, run);
      && Idle(s) && s.state == NotAuthenticated && (SslKnown(s) <==> cfg.mode != Unencrypted)
      && s.caps.authModes == ["PLAIN"]
  {
    run := LastGreeting(cfg);
    OffersPlain(cfg, After(cfg, run));
    run := Extend(cfg, run, Reply(ServerResponse(250, "AUTH PLAIN", false), NO_STEP), ALL_RULES);
    run := Extend(cfg, run, StartEvent(LD.LibraryFailed), ALL_RULES);
  }

  /** The session while a login waits for the server's answer to AUTH. */
  predicate LoginWaits(s: Session) {
    && s.crash.None? && s.jobRunning && s.currentJob.Some?
    && s.currentJob.value.job == LOGIN && s.currentJob.value.task.LoginTask?
    && s.startEvents == 0 && !s.ehloRejected
  }

  lemma LoginStarts(cfg: Config, s: Session)
    requires Secured(cfg, s) && s.crash.None? && s.currentJob.None? && !s.jobRunning && s.state == NotAuthenticated
    requires s.queue == [LOGIN] && s.startEvents == 1 && !s.ehloRejected && s.caps.authModes == ["PLAIN"]
    ensures var next := Step(cfg, s, StartEvent(LD.Answer(true, None, [])));
      LoginWaits(next) && next.queue == [] && next.state == s.state && next.sslVersion == s.sslVersion
  {
    assert "LOGIN"[0] == 'L' && "PLAIN"[0] == 'P';
    var mode := LD.Selection(LD.Login, s.caps.authModes);
    assert mode == LD.Plain;
    var fired := s.(startEvents := 0);
    var (task, effects) := StartTask(cfg, fired, LOGIN.task, LD.Answer(true, None, []));
    assert effects == [Send(LD.AuthLine(mode, [], cfg.base64))] && effects[1..] == [] && s.queue[1..] == [];
    PerformIs(fired.(jobRunning := true, currentJob := Some(Begin(LOGIN, task)), queue := []),
              LOGIN.id, effects);
  }

  /** A login is running in a session that is ready for it. */
  lemma LoginRuns(cfg: Config) returns (run: seq<Event>)
    ensures RunUnder(cfg, run, ALL_RULES) && Added(run) == [LOGIN]
    ensures var s := After(cfg, run); LoginWaits(s) && s.queue == [] && s.state == NotAuthenticated
  {
    run := ReadyIdle(cfg);
    run := Extend(cfg, run, JobAdded(LOGIN), ALL_RULES);
    LoginStarts(cfg, After(cfg, run));
    run := Extend(cfg, run, StartEvent(LD.Answer(true, None, [])), ALL_RULES);
  }

  /** A connect that comes without the old connection having been lost, while a login is running. */
  lemma ConnectedDuringLogin(cfg: Config) returns (run: seq<Event>)
    ensures RunUnder(cfg, run, ALL_RULES.(connects := false)) && Added(run) == [LOGIN]
    ensures var s := After(cfg, run); LoginWaits(s) && s.queue == [] && s.state == Ready && !SslKnown(s)
  {
    var rules := ALL_RULES.(connects := false);
    run := LoginRuns(cfg);
    Weaken(cfg, run, ALL_RULES, rules);
    ConnectedWhileWaiting(After(cfg, run));
    run := Extend(cfg, run, Connected, rules);
  }

  lemma ConnectedWhileWaiting(s: Session)
    requires LoginWaits(s)
    ensures LoginWaits(SocketConnected(s)) && SocketConnected(s).queue == s.queue
    ensures SocketConnected(s).state == Ready && !SslKnown(SocketConnected(s))
  {
  }
}
