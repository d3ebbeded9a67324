/**
 * The handshake over whole runs: the commands the session itself issues, the
 * fallback from EHLO to HELO, and what the session records about the server.
 */
module Handshakes {
  import opened ByteArrays
  import opened ReplyCodes
  import opened JobEffects
  import opened SessionModel
  import opened RequestLog
  import opened Scheduling
  import LD = LoginDialogue
  import R = CommandReader

  /** The commands the session issued itself, as opposed to its jobs. */
  function SessionCommands(requests: seq<Request>): seq<Bytes> {
    CommandsBy(requests, FromSession)
  }

  lemma SessionCommandsMore(requests: seq<Request>, request: Request)
    ensures SessionCommands(requests + [request])
         == SessionCommands(requests)
            + if request.Command? && request.origin == FromSession then [request.payload] else []
  {
    OneMore(requests, request, FromSession);
  }

  // ---------------------------------------------------------------------
  // What a step issues
  // ---------------------------------------------------------------------

  function Greet(cfg: Config, s: Session): seq<Bytes> { [Greeting(cfg, s.ehloRejected)] }

  /** A 25x reply that closes the reply to EHLO or HELO and leaves STARTTLS to be done. */
  predicate WantsTls(cfg: Config, s: Session, r: ServerResponse) {
    s.state == Handshake && Matches(r.code, 25) && !r.multiline
    && cfg.mode == STARTTLS && s.sslVersion == UnknownProtocol
  }

  predicate Rejects(s: Session, r: ServerResponse) {
    s.state == Handshake && (Matches(r.code, 500) || Matches(r.code, 502))
  }

  /** The session's own commands in one step. */
  function Issued(cfg: Config, s: Session, e: Event): seq<Bytes> {
    match e
    case QuitCalled => if s.state == Disconnected then [] else ["QUIT"]
    case Negotiated(_) => Greet(cfg, s)
    case Reply(r, _) =>
      if Rejects(s, r) then (if s.ehloRejected then ["QUIT"] else Greet(cfg, s.(ehloRejected := true)))
      else if WantsTls(cfg, s, r) then [if Note(cfg, s.caps, r.text).allowsTls then "STARTTLS" else "QUIT"]
      else if s.state == Ready && (Matches(r.code, 22) || s.ehloRejected) then Greet(cfg, s)
      else []
    case _ => []
  }

  lemma PerformFrame(s: Session, id: nat, effects: seq<Effect>)
    requires IsCurrent(s, id) && WellFormed(effects)
    ensures var next := Perform(s, id, effects);
      && SessionCommands(next.requests) == SessionCommands(s.requests)
      && next.ehloRejected == s.ehloRejected && next.caps == s.caps
      && next.state == (if Authenticate in effects then Authenticated else s.state)
  {
    PerformIs(s, id, effects);
    PerformedFrame(s, id, effects);
    JobSends(s.requests, id, Commands(effects), FromSession);
  }

  lemma PerformedFrame(s: Session, id: nat, effects: seq<Effect>)
    ensures var next := Performed(s, id, effects);
      && next.requests == s.requests + Commanded(id, Commands(effects))
      && next.ehloRejected == s.ehloRejected && next.caps == s.caps && next.starttlsSent == s.starttlsSent
      && next.state == (if Authenticate in effects then Authenticated else s.state)
  {
  }

  lemma StartFrame(cfg: Config, s: Session, sasl: LD.SaslStart)
    requires s.crash.None? && Scheduled(s.(startEvents := s.startEvents + 1))
    ensures var next := DoStartNext(cfg, s, sasl);
      && SessionCommands(next.requests) == SessionCommands(s.requests)
      && next.ehloRejected == s.ehloRejected && next.caps == s.caps && next.state == s.state
  {
    if s.queue != [] && !s.jobRunning && s.state != Disconnected {
      var job := s.queue[0];
      var (task, effects) := StartTask(cfg, s, job.task, sasl);
      StartShape(cfg, s, job.task, sasl);
      if effects == [Abort(LoginUnencrypted)] {
        assert effects[1..] == [];
      } else {
        PerformFrame(s.(jobRunning := true, currentJob := Some(Begin(job, task)), queue := s.queue[1..]),
                     job.id, effects);
      }
    }
  }

  lemma DeliverFrame(cfg: Config, s: Session, r: ServerResponse, sasl: SaslStep)
    requires s.crash.None? && Scheduled(s)
    ensures var next := Deliver(cfg, s, r, sasl);
      && SessionCommands(next.requests) == SessionCommands(s.requests)
      && next.ehloRejected == s.ehloRejected && next.caps == s.caps
      && (next.state == s.state || next.state == Authenticated)
    ensures s.currentJob.None? ==> Deliver(cfg, s, r, sasl) == s
  {
    if s.currentJob.Some? {
      var run := s.currentJob.value;
      var (task, effects) := HandleTask(cfg, s, run.task, r, sasl);
      HandleShape(cfg, s, run.task, r, sasl);
      var heard := run.heard + [Heard(r, s.caps.allowsDsn, sasl)];
      PerformFrame(s.(currentJob := Some(run.(heard := heard, task := task))), run.job.id, effects);
    }
  }

  lemma LossFrame(s: Session)
    requires s.crash.None? && Scheduled(s)
    ensures var next := SocketDisconnected(s);
      && SessionCommands(next.requests) == SessionCommands(s.requests)
      && next.ehloRejected == s.ehloRejected && next.caps == s.caps
  {
    var closed := Post(s.(state := Disconnected), CloseSocket);
    SessionCommandsMore(s.requests, CloseSocket);
    var effects := [EmitResult(USER_DEFINED_ERROR)];
    assert effects[1..] == [];
    if closed.currentJob.Some? || closed.queue != [] {
      var told := if closed.currentJob.Some? then closed else HeadTaken(closed);
      var run := told.currentJob.value;
      PerformFrame(told.(currentJob := Some(run.(task := TaskFailed(run.task)))), run.job.id, effects);
    }
  }

  /** A 25x line is recorded, and ends the handshake or not. */
  lemma NotedFrame(cfg: Config, s: Session, r: ServerResponse)
    requires s.state == Handshake && Matches(r.code, 25)
    ensures var next := HandshakeReply(cfg, s, r);
      && SessionCommands(next.requests) == SessionCommands(s.requests) +
           (if WantsTls(cfg, s, r) then [if Note(cfg, s.caps, r.text).allowsTls then "STARTTLS" else "QUIT"] else [])
      && next.ehloRejected == s.ehloRejected && next.caps == Note(cfg, s.caps, r.text)
      && next.state != Ready
  {
    CodeRanges(r.code);
    SessionCommandsMore(s.requests, Command(FromSession, "STARTTLS"));
    SessionCommandsMore(s.requests, Command(FromSession, "QUIT"));
  }

  /** The Handshake branch, when it does not return early. */
  lemma HandshakeFrame(cfg: Config, s: Session, r: ServerResponse)
    requires s.state == Handshake
    ensures var next := HandshakeReply(cfg, s, r);
      && next.ehloRejected == (s.ehloRejected || Rejects(s, r))
      && next.caps == (if Matches(r.code, 25) then Note(cfg, s.caps, r.text) else s.caps)
      && (next.state == Ready <==> Rejects(s, r))
      && SessionCommands(next.requests) == SessionCommands(s.requests) +
           (if WantsTls(cfg, s, r) then [if Note(cfg, s.caps, r.text).allowsTls then "STARTTLS" else "QUIT"] else [])
  {
    CodeRanges(r.code);
    if Matches(r.code, 25) {
      NotedFrame(cfg, s, r);
    } else {
      SessionCommandsMore(s.requests, StartSsl);
    }
  }

  /** A reply in the handshake, when the handshake does not fail on it. */
  lemma InHandshakeFrame(cfg: Config, s: Session, r: ServerResponse, sasl: SaslStep)
    requires s.crash.None? && Scheduled(s) && s.state == Handshake && !HandshakeFails(s, r)
    ensures var next := ResponseReceived(cfg, s, r, sasl);
      && SessionCommands(next.requests) == SessionCommands(s.requests) + Issued(cfg, s, Reply(r, sasl))
      && next.ehloRejected == (s.ehloRejected || Rejects(s, r))
      && next.caps == if Matches(r.code, 25) then Note(cfg, s.caps, r.text) else s.caps
  {
    HandshakeFrame(cfg, s, r);
    HandshakeReplyKeeps(cfg, s, r);
    var next := HandshakeReply(cfg, s, r);
    if Rejects(s, r) {
      CodeRanges(r.code);
      SessionCommandsMore(next.requests, Command(FromSession, Greeting(cfg, true)));
    } else {
      DeliverFrame(cfg, next, r, sasl);
    }
  }

  /** A reply in any other state. */
  lemma OutsideHandshakeFrame(cfg: Config, s: Session, r: ServerResponse, sasl: SaslStep)
    requires s.crash.None? && Scheduled(s) && s.state != Handshake
    ensures var next := ResponseReceived(cfg, s, r, sasl);
      && SessionCommands(next.requests) == SessionCommands(s.requests) + Issued(cfg, s, Reply(r, sasl))
      && next.ehloRejected == s.ehloRejected && next.caps == s.caps
  {
    if s.state == Quitting {
      SessionCommandsMore(s.requests, CloseSocket);
    } else if s.state == Ready && (Matches(r.code, 22) || s.ehloRejected) {
      SessionCommandsMore(s.requests, Command(FromSession, Greeting(cfg, s.ehloRejected)));
    } else {
      DeliverFrame(cfg, s, r, sasl);
    }
  }

  lemma ReplyFrame(cfg: Config, s: Session, r: ServerResponse, sasl: SaslStep)
    requires s.crash.None? && Scheduled(s)
    ensures var next := ResponseReceived(cfg, s, r, sasl);
      && SessionCommands(next.requests) == SessionCommands(s.requests) + Issued(cfg, s, Reply(r, sasl))
      && next.ehloRejected == (s.ehloRejected || Rejects(s, r))
      && next.caps == if s.state == Handshake && Matches(r.code, 25) then Note(cfg, s.caps, r.text) else s.caps
  {
    if s.state != Handshake {
      OutsideHandshakeFrame(cfg, s, r, sasl);
    } else if HandshakeFails(s, r) {
      CodeRanges(r.code);
      SessionCommandsMore(s.requests, Command(FromSession, "QUIT"));
    } else {
      InHandshakeFrame(cfg, s, r, sasl);
    }
  }

  lemma StepFrame(cfg: Config, s: Session, added: seq<Job>, e: Event)
    requires Invariant(s) && Enabled(s, added, e)
    ensures var next := Step(cfg, s, e);
      && SessionCommands(next.requests) == SessionCommands(s.requests) + Issued(cfg, s, e)
      && next.ehloRejected == (s.ehloRejected || (e.Reply? && Rejects(s, e.r)))
      && next.caps == if e.Reply? && s.state == Handshake && Matches(e.r.code, 25)
                      then Note(cfg, s.caps, e.r.text) else s.caps
  {
    if Quiet(e) {
      QuietFrame(cfg, s, e);
    } else {
      match e
      case ConnectionLost => LossFrame(s);
      case Reply(r, step) => ReplyFrame(cfg, s, r, step);
      case StartEvent(start) => StartEventFrame(cfg, s, start);
    }
  }

  lemma StartEventFrame(cfg: Config, s: Session, start: LD.SaslStart)
    requires s.crash.None? && Scheduled(s) && s.startEvents > 0
    ensures var next := Step(cfg, s, StartEvent(start));
      && SessionCommands(next.requests) == SessionCommands(s.requests)
      && next.ehloRejected == s.ehloRejected && next.caps == s.caps
  {
    StartFrame(cfg, s.(startEvents := s.startEvents - 1), start);
  }

  lemma QuietFrame(cfg: Config, s: Session, e: Event)
    requires Quiet(e)
    ensures var next := Step(cfg, s, e);
      && SessionCommands(next.requests) == SessionCommands(s.requests) + Issued(cfg, s, e)
      && next.ehloRejected == s.ehloRejected && next.caps == s.caps
  {
    match e
    case OpenCalled => SessionCommandsMore(s.requests, Reconnect);
    case QuitCalled => SessionCommandsMore(s.requests, Command(FromSession, "QUIT"));
    case JobAdded(job) => SessionCommandsMore(s.requests, ReconnectNow);
    case Connected =>
    case Negotiated(version) =>
      SessionCommandsMore(s.requests, Command(FromSession, Greeting(cfg, s.ehloRejected)));
  }

  // ---------------------------------------------------------------------
  // The fallback
  // ---------------------------------------------------------------------

  predicate IsEhlo(command: Bytes) { "EHLO " <= command }

  predicate IsHelo(command: Bytes) { "HELO " <= command }

  /** How often a run fell back from EHLO to HELO. */
  function Fallbacks(cfg: Config, events: seq<Event>): nat {
    if events == [] then 0
    else
      var before, last := events[..|events| - 1], events[|events| - 1];
      var s := After(cfg, before);
      Fallbacks(cfg, before) + if last.Reply? && Rejects(s, last.r) && !s.ehloRejected then 1 else 0
  }

  /** No EHLO after a HELO. */
  predicate HeloIsFinal(commands: seq<Bytes>) {
    forall i, j :: 0 <= i < j < |commands| && IsHelo(commands[i]) ==> !IsEhlo(commands[j])
  }

  predicate NoHelo(commands: seq<Bytes>) {
    forall i :: 0 <= i < |commands| ==> !IsHelo(commands[i])
  }

  lemma IssuedKind(cfg: Config, s: Session, e: Event)
    ensures var issued := Issued(cfg, s, e);
      && |issued| <= 1
      && (issued != [] && IsHelo(issued[0]) ==> s.ehloRejected || (e.Reply? && Rejects(s, e.r)))
      && (issued != [] && IsEhlo(issued[0]) ==> !s.ehloRejected && !(e.Reply? && Rejects(s, e.r)))
  {
    assert "HELO "[0] == 'H' && "EHLO "[0] == 'E' && "QUIT"[0] == 'Q' && "STARTTLS"[0] == 'S';
    assert IsHelo(Greeting(cfg, true)) && Greeting(cfg, true)[0] == 'H';
    assert IsEhlo(Greeting(cfg, false)) && Greeting(cfg, false)[0] == 'E';
    var issued := Issued(cfg, s, e);
    if issued != [] {
      assert IsHelo(issued[0]) ==> issued[0][0] == 'H';
      assert IsEhlo(issued[0]) ==> issued[0][0] == 'E';
    }
  }

  /**
   * In every run, over any number of connections, the session falls back at most
   * once, and once it has sent HELO it never sends EHLO again.
   */
  lemma {:induction false} FallbackIsFinal(cfg: Config, events: seq<Event>)
    requires IsRun(cfg, events)
    ensures var s := After(cfg, events);
      && Fallbacks(cfg, events) == (if s.ehloRejected then 1 else 0)
      && HeloIsFinal(SessionCommands(s.requests))
      && (!s.ehloRejected ==> NoHelo(SessionCommands(s.requests)))
    decreases |events|
  {
    if events != [] {
      var before, last := events[..|events| - 1], events[|events| - 1];
      FallbackIsFinal(cfg, before);
      JobsAreDecidedInOrder(cfg, before);
      StepFrame(cfg, After(cfg, before), Added(before), last);
      IssuedKind(cfg, After(cfg, before), last);
      var s := After(cfg, before);
      OneMoreCommand(SessionCommands(s.requests), Issued(cfg, s, last), s.ehloRejected,
                     s.ehloRejected || (last.Reply? && Rejects(s, last.r)));
    }
  }

  /** HELO comes with or after a rejection, EHLO only before it. */
  lemma OneMoreCommand(said: seq<Bytes>, issued: seq<Bytes>, before: bool, after: bool)
    requires HeloIsFinal(said) && (!before ==> NoHelo(said))
    requires |issued| <= 1
    requires issued != [] && IsHelo(issued[0]) ==> after
    requires issued != [] && IsEhlo(issued[0]) ==> !before && !after
    requires before ==> after
    ensures HeloIsFinal(said + issued) && (!after ==> NoHelo(said + issued))
  {
  }

  /** A second rejection, of HELO, makes the session quit. */
  lemma SecondRejectionQuits(cfg: Config, s: Session, r: ServerResponse, sasl: SaslStep)
    requires s.crash.None? && Scheduled(s) && Rejects(s, r) && s.ehloRejected
    ensures var next := ResponseReceived(cfg, s, r, sasl);
      && next.state == Quitting && next.currentJob == s.currentJob
      && SessionCommands(next.requests) == SessionCommands(s.requests) + ["QUIT"]
  {
    ReplyFrame(cfg, s, r, sasl);
  }

  // ---------------------------------------------------------------------
  // What a server reads
  // ---------------------------------------------------------------------

  lemma GreetingIsRead(cfg: Config, ehloRejected: bool)
    ensures R.ReadCommand(Greeting(cfg, ehloRejected))
         == if ehloRejected then R.Helo(cfg.hostname) else R.Ehlo(cfg.hostname)
  {
    R.GreetingLine(cfg.hostname);
  }

  /** All that the session itself has to say to a server. */
  predicate SessionWord(cfg: Config, command: R.ClientCommand) {
    command == R.Ehlo(cfg.hostname) || command == R.Helo(cfg.hostname) || command == R.Quit || command == R.StartTls
  }

  lemma IssuedIsRead(cfg: Config, s: Session, e: Event)
    ensures forall i :: 0 <= i < |Issued(cfg, s, e)| ==> SessionWord(cfg, R.ReadCommand(Issued(cfg, s, e)[i]))
  {
    GreetingIsRead(cfg, true);
    GreetingIsRead(cfg, false);
    R.SessionLines();
  }

  /**
   * In every run, a server reads each command that the session itself sends as EHLO
   * or HELO with the client's host name, as QUIT, or as STARTTLS.
   */
  lemma {:induction false} SessionSays(cfg: Config, events: seq<Event>)
    requires IsRun(cfg, events)
    ensures var said := SessionCommands(After(cfg, events).requests);
      forall i :: 0 <= i < |said| ==> SessionWord(cfg, R.ReadCommand(said[i]))
    decreases |events|
  {
    if events != [] {
      var before, last := events[..|events| - 1], events[|events| - 1];
      SessionSays(cfg, before);
      JobsAreDecidedInOrder(cfg, before);
      StepFrame(cfg, After(cfg, before), Added(before), last);
      IssuedIsRead(cfg, After(cfg, before), last);
    }
  }

  // ---------------------------------------------------------------------
  // One connection
  // ---------------------------------------------------------------------

  /** The server replies, jobs are added and started, the connection is asked for; nothing else happens. */
  predicate Talk(e: Event) {
    e.Reply? || e.JobAdded? || e.StartEvent? || e.OpenCalled?
  }

  /** All the session may say, in this order. */
  function Ladder(cfg: Config): seq<Bytes> {
    [Greeting(cfg, false), Greeting(cfg, true), "QUIT"]
  }

  /**
   * How much of it has been said, by the state (from which only `Authenticated`,
   * reached by a login that was started early, does not tell it).
   */
  predicate OnRung(s: Session, rung: nat) {
    match rung
    case 0 => !s.ehloRejected && s.state in {Ready, Authenticated}
    case 1 => if s.ehloRejected then s.state in {Ready, Authenticated}
              else s.state in {Handshake, NotAuthenticated, Authenticated}
    case 2 => s.ehloRejected && s.state in {Handshake, NotAuthenticated, Authenticated}
    case 3 => s.state == Quitting
    case _ => false
  }

  /** Where a reply leads, unless a job makes of it that the session is authenticated. */
  function Leads(s: Session, r: ServerResponse): State {
    if Rejects(s, r) then (if s.ehloRejected then Quitting else Handshake)
    else if s.state == Handshake && Matches(r.code, 25) && !r.multiline then NotAuthenticated
    else if s.state == Ready && (Matches(r.code, 22) || s.ehloRejected) then Handshake
    else s.state
  }

  lemma HandshakeLeads(cfg: Config, s: Session, r: ServerResponse)
    requires cfg.mode == Unencrypted && s.state == Handshake && !HandshakeFails(s, r)
    ensures HandshakeReply(cfg, s, r).state == if Rejects(s, r) then Ready else Leads(s, r)
  {
    CodeRanges(r.code);
    if Matches(r.code, 25) {
      assert s.(caps := Note(cfg, s.caps, r.text)).state == Handshake;
    }
  }

  lemma LadderState(cfg: Config, s: Session, r: ServerResponse, sasl: SaslStep)
    requires cfg.mode == Unencrypted && s.crash.None? && Scheduled(s)
    ensures var next := ResponseReceived(cfg, s, r, sasl);
      && (next.state == Leads(s, r) || next.state == Authenticated)
      && (Leads(s, r) == Quitting ==> next.state == Quitting)
  {
    if s.state == Handshake && !HandshakeFails(s, r) {
      HandshakeLeads(cfg, s, r);
      HandshakeFrame(cfg, s, r);
      HandshakeReplyKeeps(cfg, s, r);
      DeliverFrame(cfg, HandshakeReply(cfg, s, r), r, sasl);
    } else if s.state != Quitting && s.state != Handshake {
      DeliverFrame(cfg, s, r, sasl);
    }
  }

  lemma LadderStep(cfg: Config, s: Session, added: seq<Job>, e: Event, rung: nat) returns (up: nat)
    requires cfg.mode == Unencrypted && Invariant(s) && Enabled(s, added, e) && Talk(e) && OnRung(s, rung)
    ensures rung <= up <= 3 && OnRung(Step(cfg, s, e), up)
    ensures SessionCommands(Step(cfg, s, e).requests) == SessionCommands(s.requests) + Ladder(cfg)[rung..up]
  {
    StepFrame(cfg, s, added, e);
    var issued := Issued(cfg, s, e);
    up := rung;
    if e.Reply? {
      CodeRanges(e.r.code);
      LadderState(cfg, s, e.r, e.step);
      up := if issued == [] then rung else rung + 1;
      RungIs(cfg, s, e, rung);
    } else if e.StartEvent? {
      StartFrame(cfg, s.(startEvents := s.startEvents - 1), e.start);
    }
    OneRung(Ladder(cfg), rung, up, issued);
  }

  /** What a reply makes the session say is what stands on the next rung. */
  lemma RungIs(cfg: Config, s: Session, e: Event, rung: nat)
    requires cfg.mode == Unencrypted && e.Reply? && OnRung(s, rung)
    ensures var issued := Issued(cfg, s, e);
      issued == [] || (rung < 3 && issued == [Ladder(cfg)[rung]])
    ensures Issued(cfg, s, e) != []
       <==> Rejects(s, e.r) || (Leads(s, e.r) != s.state && Leads(s, e.r) != NotAuthenticated)
  {
    CodeRanges(e.r.code);
  }

  lemma OneRung(ladder: seq<Bytes>, a: nat, b: nat, issued: seq<Bytes>)
    requires a <= b <= |ladder|
    requires (a == b && issued == []) || (a + 1 == b && issued == [ladder[a]])
    ensures ladder[a..b] == issued
  {
  }

  /** From the connect on the session climbs the ladder. */
  lemma {:induction false} LadderClimbed(cfg: Config, events: seq<Event>, k: nat) returns (rung: nat)
    requires cfg.mode == Unencrypted && IsRun(cfg, events) && k <= |events|
    requires After(cfg, events[..k]).state == Ready
    requires forall i :: k <= i < |events| ==> Talk(events[i])
    ensures var start, end := After(cfg, events[..k]), After(cfg, events);
      var first := if start.ehloRejected then 1 else 0;
      && first <= rung <= 3 && OnRung(end, rung)
      && SessionCommands(end.requests) == SessionCommands(start.requests) + Ladder(cfg)[first..rung]
    decreases |events|
  {
    if |events| == k {
      assert events[..k] == events;
      var s := After(cfg, events);
      rung := if s.ehloRejected then 1 else 0;
      assert SessionCommands(s.requests) + [] == SessionCommands(s.requests);
    } else {
      var before, last := events[..|events| - 1], events[|events| - 1];
      assert before[..k] == events[..k];
      var start, middle := After(cfg, events[..k]), After(cfg, before);
      var below := LadderClimbed(cfg, before, k);
      JobsAreDecidedInOrder(cfg, before);
      rung := LadderStep(cfg, middle, Added(before), last, below);
      Climb(SessionCommands(start.requests), Ladder(cfg), if start.ehloRejected then 1 else 0, below, rung);
    }
  }

  lemma Climb(said: seq<Bytes>, ladder: seq<Bytes>, a: nat, b: nat, c: nat)
    requires a <= b <= c <= |ladder|
    ensures said + ladder[a..b] + ladder[b..c] == said + ladder[a..c]
  {
    assert ladder[a..b] + ladder[b..c] == ladder[a..c];
  }

  /** The ladder as a server reads it. */
  function LadderWords(cfg: Config): seq<R.ClientCommand> {
    [R.Ehlo(cfg.hostname), R.Helo(cfg.hostname), R.Quit]
  }

  lemma LadderIsRead(cfg: Config, said: seq<Bytes>, a: nat, b: nat)
    requires a <= b <= 3
    ensures R.ReadAll(said + Ladder(cfg)[a..b]) == R.ReadAll(said) + LadderWords(cfg)[a..b]
  {
    GreetingIsRead(cfg, false);
    GreetingIsRead(cfg, true);
    R.SessionLines();
    var all, words := said + Ladder(cfg)[a..b], R.ReadAll(said) + LadderWords(cfg)[a..b];
    forall i | 0 <= i < |all| ensures R.ReadAll(all)[i] == words[i] {
      if i >= |said| {
        assert all[i] == Ladder(cfg)[a + (i - |said|)];
        assert words[i] == LadderWords(cfg)[a + (i - |said|)];
      }
    }
  }

  /**
   * On a connection without encryption, whatever the server replies and whatever
   * jobs are added and started meanwhile: from the connect on a server reads EHLO
   * with the client's host name, HELO with it, and QUIT, in this order, each at most
   * once, and how far it has got can be read off the session's state; EHLO is left
   * out when it was rejected before.
   */
  lemma HandshakeLadder(cfg: Config, events: seq<Event>, k: nat) returns (rung: nat)
    requires cfg.mode == Unencrypted && IsRun(cfg, events) && k <= |events|
    requires After(cfg, events[..k]).state == Ready
    requires forall i :: k <= i < |events| ==> Talk(events[i])
    ensures var start, end := After(cfg, events[..k]), After(cfg, events);
      var first := if start.ehloRejected then 1 else 0;
      && first <= rung <= 3 && OnRung(end, rung)
      && SessionCommands(end.requests) == SessionCommands(start.requests) + Ladder(cfg)[first..rung]
      && R.ReadAll(SessionCommands(end.requests))
         == R.ReadAll(SessionCommands(start.requests))
            + [R.Ehlo(cfg.hostname), R.Helo(cfg.hostname), R.Quit][first..rung]
  {
    rung := LadderClimbed(cfg, events, k);
    var start := After(cfg, events[..k]);
    LadderIsRead(cfg, SessionCommands(start.requests), if start.ehloRejected then 1 else 0, rung);
  }
}
