/**
 * What the session asks of its thread besides commands (to connect, to close, to
 * start TLS), and when it starts TLS in answer to a STARTTLS of its own.
 */
module Connections {
  import opened ByteArrays
  import opened ReplyCodes
  import opened JobEffects
  import opened SessionModel
  import opened RequestLog
  import opened Scheduling
  import opened Handshakes
  import opened RunRules
  import LD = LoginDialogue

  /** The requests that are not commands, in order. */
  function Controls(requests: seq<Request>): seq<Request> {
    if requests == [] then []
    else
      var last := requests[|requests| - 1];
      Controls(requests[..|requests| - 1]) + if last.Command? then [] else [last]
  }

  lemma ControlsMore(requests: seq<Request>, request: Request)
    ensures Controls(requests + [request]) == Controls(requests) + if request.Command? then [] else [request]
  {
    assert (requests + [request])[..|requests|] == requests;
  }

  lemma {:induction false} ControlsOfJob(requests: seq<Request>, id: nat, commands: seq<Bytes>)
    ensures Controls(requests + Commanded(id, commands)) == Controls(requests)
    decreases |commands|
  {
    if commands == [] {
      assert requests + Commanded(id, commands) == requests;
    } else {
      var before, last := commands[..|commands| - 1], commands[|commands| - 1];
      ControlsOfJob(requests, id, before);
      LastCommanded(requests, id, commands);
      ControlsMore(requests + Commanded(id, before), Command(FromJob(id), last));
    }
  }

  // ---------------------------------------------------------------------
  // What a step asks for
  // ---------------------------------------------------------------------

  /** The server agrees to STARTTLS. */
  predicate AgreesToTls(s: Session, r: ServerResponse) {
    s.state == Handshake && r.code == 220 && s.starttlsSent
  }

  predicate SendsStarttls(cfg: Config, s: Session, r: ServerResponse) {
    WantsTls(cfg, s, r) && Note(cfg, s.caps, r.text).allowsTls
  }

  function Asked(s: Session, e: Event): seq<Request> {
    match e
    case OpenCalled => [Reconnect]
    case JobAdded(_) => if s.state in {Disconnected, Ready, Handshake} then [ReconnectNow] else []
    case ConnectionLost => [CloseSocket]
    case Reply(r, _) => if s.state == Quitting then [CloseSocket] else if AgreesToTls(s, r) then [StartSsl] else []
    case _ => []
  }

  lemma PerformControls(s: Session, id: nat, effects: seq<Effect>)
    requires IsCurrent(s, id) && WellFormed(effects)
    ensures var next := Perform(s, id, effects);
      Controls(next.requests) == Controls(s.requests) && next.starttlsSent == s.starttlsSent
  {
    PerformIs(s, id, effects);
    PerformedFrame(s, id, effects);
    ControlsOfJob(s.requests, id, Commands(effects));
  }

  lemma StartControls(cfg: Config, s: Session, sasl: LD.SaslStart)
    requires s.crash.None? && Scheduled(s.(startEvents := s.startEvents + 1))
    ensures var next := DoStartNext(cfg, s, sasl);
      Controls(next.requests) == Controls(s.requests) && next.starttlsSent == s.starttlsSent
  {
    if s.queue != [] && !s.jobRunning && s.state != Disconnected {
      var job := s.queue[0];
      var (task, effects) := StartTask(cfg, s, job.task, sasl);
      StartShape(cfg, s, job.task, sasl);
      if effects == [Abort(LoginUnencrypted)] {
        assert effects[1..] == [];
      } else {
        PerformControls(s.(jobRunning := true, currentJob := Some(Begin(job, task)), queue := s.queue[1..]),
                        job.id, effects);
      }
    }
  }

  lemma DeliverControls(cfg: Config, s: Session, r: ServerResponse, sasl: SaslStep)
    requires s.crash.None? && Scheduled(s)
    ensures var next := Deliver(cfg, s, r, sasl);
      Controls(next.requests) == Controls(s.requests) && next.starttlsSent == s.starttlsSent
    ensures s.currentJob.None? ==> Deliver(cfg, s, r, sasl) == s
  {
    if s.currentJob.Some? {
      var run := s.currentJob.value;
      var (task, effects) := HandleTask(cfg, s, run.task, r, sasl);
      HandleShape(cfg, s, run.task, r, sasl);
      var heard := run.heard + [Heard(r, s.caps.allowsDsn, sasl)];
      PerformControls(s.(currentJob := Some(run.(heard := heard, task := task))), run.job.id, effects);
    }
  }

  lemma LossControls(s: Session)
    requires s.crash.None? && Scheduled(s)
    ensures var next := SocketDisconnected(s);
      Controls(next.requests) == Controls(s.requests) + [CloseSocket] && next.starttlsSent == s.starttlsSent
  {
    var closed := Post(s.(state := Disconnected), CloseSocket);
    ControlsMore(s.requests, CloseSocket);
    var effects := [EmitResult(USER_DEFINED_ERROR)];
    assert effects[1..] == [];
    if closed.currentJob.Some? || closed.queue != [] {
      var told := if closed.currentJob.Some? then closed else HeadTaken(closed);
      var run := told.currentJob.value;
      PerformControls(told.(currentJob := Some(run.(task := TaskFailed(run.task)))), run.job.id, effects);
    }
  }

  /** The end of a handshake, whatever is known about the server by then. */
  lemma EndControls(cfg: Config, s: Session, caps: Capabilities)
    requires s.state == Handshake
    ensures var next := HandshakeDone(cfg, s.(caps := caps));
      && Controls(next.requests) == Controls(s.requests)
      && next.starttlsSent
         == (s.starttlsSent || (cfg.mode == STARTTLS && s.sslVersion == UnknownProtocol && caps.allowsTls))
      && next.state != Ready
  {
    ControlsMore(s.requests, Command(FromSession, "STARTTLS"));
    ControlsMore(s.requests, Command(FromSession, "QUIT"));
  }

  lemma HandshakeControls(cfg: Config, s: Session, r: ServerResponse)
    requires s.state == Handshake
    ensures var next := HandshakeReply(cfg, s, r);
      && Controls(next.requests) == Controls(s.requests) + (if AgreesToTls(s, r) then [StartSsl] else [])
      && next.starttlsSent == ((s.starttlsSent || SendsStarttls(cfg, s, r)) && !AgreesToTls(s, r))
      && (next.state == Ready <==> Rejects(s, r))
  {
    CodeRanges(r.code);
    if Matches(r.code, 25) {
      EndControls(cfg, s, Note(cfg, s.caps, r.text));
    } else {
      ControlsMore(s.requests, StartSsl);
    }
  }

  lemma InHandshakeControls(cfg: Config, s: Session, r: ServerResponse, sasl: SaslStep)
    requires s.crash.None? && Scheduled(s) && s.state == Handshake && !HandshakeFails(s, r)
    ensures var next := ResponseReceived(cfg, s, r, sasl);
      && Controls(next.requests) == Controls(HandshakeReply(cfg, s, r).requests)
      && next.starttlsSent == HandshakeReply(cfg, s, r).starttlsSent
  {
    HandshakeControls(cfg, s, r);
    HandshakeReplyKeeps(cfg, s, r);
    AfterHandshakeReply(cfg, HandshakeReply(cfg, s, r), r, sasl);
  }

  /** The rest of responseReceived. */
  lemma AfterHandshakeReply(cfg: Config, s: Session, r: ServerResponse, sasl: SaslStep)
    requires s.crash.None? && Scheduled(s)
    ensures var next := if s.state == Ready && (Matches(r.code, 22) || s.ehloRejected) then StartHandshake(cfg, s)
                        else Deliver(cfg, s, r, sasl);
      Controls(next.requests) == Controls(s.requests) && next.starttlsSent == s.starttlsSent
  {
    ControlsMore(s.requests, Command(FromSession, Greeting(cfg, s.ehloRejected)));
    DeliverControls(cfg, s, r, sasl);
  }

  lemma ReplyControls(cfg: Config, s: Session, r: ServerResponse, sasl: SaslStep)
    requires s.crash.None? && Scheduled(s)
    ensures var next := ResponseReceived(cfg, s, r, sasl);
      && Controls(next.requests) == Controls(s.requests) + Asked(s, Reply(r, sasl))
      && next.starttlsSent == ((s.starttlsSent || SendsStarttls(cfg, s, r)) && !AgreesToTls(s, r))
  {
    if s.state == Quitting {
      ControlsMore(s.requests, CloseSocket);
    } else if HandshakeFails(s, r) {
      CodeRanges(r.code);
      ControlsMore(s.requests, Command(FromSession, "QUIT"));
    } else if s.state == Handshake {
      InHandshakeControls(cfg, s, r, sasl);
      HandshakeControls(cfg, s, r);
    } else {
      AfterHandshakeReply(cfg, s, r, sasl);
    }
  }

  lemma StepControls(cfg: Config, s: Session, added: seq<Job>, e: Event)
    requires Invariant(s) && Enabled(s, added, e)
    ensures var next := Step(cfg, s, e);
      && Controls(next.requests) == Controls(s.requests) + Asked(s, e)
      && next.starttlsSent == if e.Reply? then (s.starttlsSent || SendsStarttls(cfg, s, e.r)) && !AgreesToTls(s, e.r)
                              else s.starttlsSent
  {
    if Quiet(e) {
      QuietControls(cfg, s, e);
    } else {
      match e
      case ConnectionLost => LossControls(s);
      case Reply(r, step) => ReplyControls(cfg, s, r, step);
      case StartEvent(start) => StartControls(cfg, s.(startEvents := s.startEvents - 1), start);
    }
  }

  lemma QuietControls(cfg: Config, s: Session, e: Event)
    requires Quiet(e)
    ensures var next := Step(cfg, s, e);
      Controls(next.requests) == Controls(s.requests) + Asked(s, e) && next.starttlsSent == s.starttlsSent
  {
    match e
    case OpenCalled => ControlsMore(s.requests, Reconnect);
    case QuitCalled => ControlsMore(s.requests, Command(FromSession, "QUIT"));
    case JobAdded(job) => ControlsMore(s.requests, ReconnectNow);
    case Connected =>
    case Negotiated(version) =>
      ControlsMore(s.requests, Command(FromSession, Greeting(cfg, s.ehloRejected)));
  }

  // ---------------------------------------------------------------------
  // Starting TLS
  // ---------------------------------------------------------------------

  function Count<T(==)>(s: seq<T>, x: T): nat {
    if s == [] then 0 else Count(s[..|s| - 1], x) + if s[|s| - 1] == x then 1 else 0
  }

  lemma CountMore<T>(s: seq<T>, more: seq<T>, x: T)
    requires |more| <= 1
    ensures Count(s + more, x) == Count(s, x) + if more == [x] then 1 else 0
  {
    if more == [] {
      assert s + more == s;
    } else {
      assert (s + more)[..|s|] == s;
    }
  }

  /** TLS is started no more often than STARTTLS was sent; one that is still to be answered is kept in the flag. */
  predicate TlsIsAgreed(s: Session) {
    Count(Controls(s.requests), StartSsl) + (if s.starttlsSent then 1 else 0)
    <= Count(SessionCommands(s.requests), "STARTTLS")
  }

  lemma IssuesStarttls(cfg: Config, s: Session, e: Event)
    ensures |Issued(cfg, s, e)| <= 1
    ensures Issued(cfg, s, e) == ["STARTTLS"] <==> e.Reply? && SendsStarttls(cfg, s, e.r)
    ensures |Asked(s, e)| <= 1
    ensures Asked(s, e) == [StartSsl] <==> e.Reply? && AgreesToTls(s, e.r)
    ensures e.Reply? && SendsStarttls(cfg, s, e.r) ==> !AgreesToTls(s, e.r)
  {
    if e.Reply? {
      CodeRanges(e.r.code);
    }
    assert "STARTTLS"[0] == 'S' && "QUIT"[0] == 'Q' && Greeting(cfg, true)[0] == 'H' && Greeting(cfg, false)[0] == 'E';
  }

  /** How often the session has started TLS, and asked for it. */
  function Starts(s: Session): nat { Count(Controls(s.requests), StartSsl) }

  function Requests(s: Session): nat { Count(SessionCommands(s.requests), "STARTTLS") }

  lemma StepCounts(cfg: Config, s: Session, added: seq<Job>, e: Event)
    requires Invariant(s) && Enabled(s, added, e)
    ensures var next := Step(cfg, s, e);
      && Starts(next) == Starts(s) + (if e.Reply? && AgreesToTls(s, e.r) then 1 else 0)
      && Requests(next) == Requests(s) + (if e.Reply? && SendsStarttls(cfg, s, e.r) then 1 else 0)
      && next.starttlsSent == if Requests(next) > Requests(s) then true
                              else if Starts(next) > Starts(s) then false
                              else s.starttlsSent
  {
    StepControls(cfg, s, added, e);
    StepFrame(cfg, s, added, e);
    IssuesStarttls(cfg, s, e);
    CountMore(Controls(s.requests), Asked(s, e), StartSsl);
    CountMore(SessionCommands(s.requests), Issued(cfg, s, e), "STARTTLS");
  }

  /**
   * Over the whole life of a session TLS is started no more often than STARTTLS
   * was sent. (Not so over one connection: see below.)
   */
  lemma {:induction false} TlsStartsOnAgreement(cfg: Config, events: seq<Event>)
    requires IsRun(cfg, events)
    ensures TlsIsAgreed(After(cfg, events))
    ensures Starts(After(cfg, events)) == Agreements(cfg, events)
    decreases |events|
  {
    if events != [] {
      var before, last := events[..|events| - 1], events[|events| - 1];
      TlsStartsOnAgreement(cfg, before);
      JobsAreDecidedInOrder(cfg, before);
      StepCounts(cfg, After(cfg, before), Added(before), last);
    }
  }

  /** How often a 220 came in the handshake while the flag was set. */
  function Agreements(cfg: Config, events: seq<Event>): nat {
    if events == [] then 0
    else
      var before, last := events[..|events| - 1], events[|events| - 1];
      Agreements(cfg, before) + if last.Reply? && AgreesToTls(After(cfg, before), last.r) then 1 else 0
  }

  // ---------------------------------------------------------------------
  // Starting TLS, connection by connection
  // ---------------------------------------------------------------------

  /** Read off the log: STARTTLS was sent since the last connect, and TLS not started since. */
  predicate Unanswered(cfg: Config, events: seq<Event>) {
    events != []
    && var before, last := events[..|events| - 1], events[|events| - 1];
       var s, next := After(cfg, before), After(cfg, events);
       if last.Connected? then false
       else if Requests(next) > Requests(s) then true
       else if Starts(next) > Starts(s) then false
       else Unanswered(cfg, before)
  }

  /** Each time TLS was started there was an unanswered STARTTLS of the same connection. */
  predicate TlsInOrder(cfg: Config, events: seq<Event>) {
    events == []
    || var before := events[..|events| - 1];
       TlsInOrder(cfg, before)
       && (Starts(After(cfg, events)) > Starts(After(cfg, before)) ==> Unanswered(cfg, before))
  }

  /** No connect found the flag set. */
  predicate ConnectsAfresh(cfg: Config, events: seq<Event>) {
    events == []
    || var before := events[..|events| - 1];
       ConnectsAfresh(cfg, before) && (events[|events| - 1].Connected? ==> !After(cfg, before).starttlsSent)
  }

  /** Then the flag says what it is meant to say, and TLS is started in order. */
  lemma {:induction false} FlagIsUnanswered(cfg: Config, events: seq<Event>)
    requires IsRun(cfg, events) && ConnectsAfresh(cfg, events)
    ensures After(cfg, events).starttlsSent == Unanswered(cfg, events) && TlsInOrder(cfg, events)
    decreases |events|
  {
    if events != [] {
      var before, last := events[..|events| - 1], events[|events| - 1];
      FlagIsUnanswered(cfg, before);
      JobsAreDecidedInOrder(cfg, before);
      StepCounts(cfg, After(cfg, before), Added(before), last);
    }
  }

  /** The flag is used only with STARTTLS. */
  lemma {:induction false} NoFlagWithoutMode(cfg: Config, events: seq<Event>)
    requires IsRun(cfg, events) && cfg.mode != STARTTLS
    ensures !After(cfg, events).starttlsSent && ConnectsAfresh(cfg, events)
    decreases |events|
  {
    if events != [] {
      var before, last := events[..|events| - 1], events[|events| - 1];
      NoFlagWithoutMode(cfg, before);
      JobsAreDecidedInOrder(cfg, before);
      StepCounts(cfg, After(cfg, before), Added(before), last);
      assert last.Reply? ==> !SendsStarttls(cfg, After(cfg, before), last.r);
    }
  }

  /** What an event adds to the log decides whether TLS is in order after it. */
  lemma TlsStep(cfg: Config, before: seq<Event>, e: Event)
    requires IsRun(cfg, before) && Enabled(After(cfg, before), Added(before), e)
    ensures var s, run := After(cfg, before), before + [e];
      && (e.Connected? ==> !Unanswered(cfg, run))
      && (e.Reply? && !SendsStarttls(cfg, s, e.r) && !AgreesToTls(s, e.r) ==>
           Unanswered(cfg, run) == Unanswered(cfg, before))
      && (e.Reply? && AgreesToTls(s, e.r) && !Unanswered(cfg, before) ==> !TlsInOrder(cfg, run))
  {
    var run := before + [e];
    assert run[..|run| - 1] == before;
    OneMoreEvent(cfg, before, e);
    JobsAreDecidedInOrder(cfg, before);
    var s, next := After(cfg, before), After(cfg, run);
    StepCounts(cfg, s, Added(before), e);
    UnansweredIs(cfg, before, e, s, next);
  }

  lemma UnansweredIs(cfg: Config, before: seq<Event>, e: Event, s: Session, next: Session)
    requires s == After(cfg, before) && next == After(cfg, before + [e])
    ensures var run := before + [e];
      && Unanswered(cfg, run) == (if e.Connected? then false
                                  else if Requests(next) > Requests(s) then true
                                  else if Starts(next) > Starts(s) then false
                                  else Unanswered(cfg, before))
      && TlsInOrder(cfg, run) == (TlsInOrder(cfg, before) && (Starts(next) > Starts(s) ==> Unanswered(cfg, before)))
  {
    var run := before + [e];
    assert run[..|run| - 1] == before;
  }

  lemma GreetedAgain(cfg: Config, s: Session, r: ServerResponse)
    requires s.state == Ready && r.code == 220
    ensures ResponseReceived(cfg, s, r, NO_STEP) == StartHandshake(cfg, s)
    ensures !AgreesToTls(s, r) && !SendsStarttls(cfg, s, r)
  {
    Greets(cfg, s, r);
  }

  /**
   * Whenever a connect finds the flag set, a greeting of two lines on the new
   * connection starts TLS, with no STARTTLS sent there.
   */
  lemma TlsOnGreeting(cfg: Config, events: seq<Event>, rules: Rules) returns (run: seq<Event>)
    requires RunUnder(cfg, events, rules) && After(cfg, events).crash.None? && After(cfg, events).starttlsSent
    requires Follows(cfg, After(cfg, events), Connected, rules)
    ensures var more, line := ServerResponse(220, [], true), ServerResponse(220, [], false);
      run == events + [Connected] + [Reply(more, NO_STEP)] + [Reply(line, NO_STEP)]
    ensures RunUnder(cfg, run, rules) && !TlsInOrder(cfg, run)
  {
    var more, line := ServerResponse(220, [], true), ServerResponse(220, [], false);
    if cfg.mode != STARTTLS {
      NoFlagWithoutMode(cfg, events);
      assert false;
    }
    TlsStep(cfg, events, Connected);
    var connected := Extend(cfg, events, Connected, rules);
    var greeted := GreetingLine(cfg, connected, more, rules);
    TlsStep(cfg, greeted, Reply(line, NO_STEP));
    run := Extend(cfg, greeted, Reply(line, NO_STEP), rules);
  }

  /** The first line of the greeting. */
  lemma GreetingLine(cfg: Config, connected: seq<Event>, more: ServerResponse, rules: Rules) returns (run: seq<Event>)
    requires cfg.mode == STARTTLS && RunUnder(cfg, connected, rules)
    requires more.code == 220 && !Unanswered(cfg, connected)
    requires var s := After(cfg, connected); s.crash.None? && s.state == Ready && s.starttlsSent
    ensures run == connected + [Reply(more, NO_STEP)] && RunUnder(cfg, run, rules) && !Unanswered(cfg, run)
    ensures var s := After(cfg, run); s.crash.None? && s.state == Handshake && s.starttlsSent
  {
    GreetedAgain(cfg, After(cfg, connected), more);
    TlsStep(cfg, connected, Reply(more, NO_STEP));
    run := Extend(cfg, connected, Reply(more, NO_STEP), rules);
  }

  /** The connection is lost before the server answers STARTTLS. */
  lemma StarttlsUnanswered(cfg: Config) returns (run: seq<Event>)
    requires cfg.mode == STARTTLS
    ensures RunUnder(cfg, run, ALL_RULES)
    ensures var s := After(cfg, run); s.crash.None? && s.starttlsSent && s.state == Disconnected && s.startEvents == 0
  {
    run := Greeted(cfg);
    Offers(cfg, After(cfg, run));
    run := Extend(cfg, run, Reply(ServerResponse(250, "STARTTLS", false), NO_STEP), ALL_RULES);
    run := Extend(cfg, run, ConnectionLost, ALL_RULES);
  }

  /** A run that keeps all rules and yet starts TLS out of order. */
  lemma TlsOutOfOrder(cfg: Config) returns (run: seq<Event>)
    requires cfg.mode == STARTTLS
    ensures RunUnder(cfg, run, ALL_RULES) && !TlsInOrder(cfg, run)
  {
    run := StarttlsUnanswered(cfg);
    run := TlsOnGreeting(cfg, run, ALL_RULES);
  }

  /**
   * In all runs each start of TLS answers an unanswered STARTTLS of its own
   * connection exactly when it is ruled out (`afresh`) that a connect finds the
   * flag set, or the mode is not STARTTLS.
   */
  lemma TlsInOrderIff(cfg: Config, afresh: bool)
    ensures (forall run :: IsRun(cfg, run) && (afresh ==> ConnectsAfresh(cfg, run)) ==> TlsInOrder(cfg, run))
       <==> afresh || cfg.mode != STARTTLS
  {
    if afresh || cfg.mode != STARTTLS {
      forall run | IsRun(cfg, run) && (afresh ==> ConnectsAfresh(cfg, run)) ensures TlsInOrder(cfg, run) {
        if cfg.mode != STARTTLS {
          NoFlagWithoutMode(cfg, run);
        }
        FlagIsUnanswered(cfg, run);
      }
    } else {
      var run := TlsOutOfOrder(cfg);
      assert IsRun(cfg, run) && !TlsInOrder(cfg, run);
    }
  }
}
