/**
 * The session and the calls that its thread still has to run: when a job that
 * waits in a disconnected session has a connection coming.
 *
 * Closing the socket is posted to the thread, and so is the reconnect of open(),
 * but addJob calls reconnect at once, ahead of a close that is still pending.
 */
module Links {
  import opened ByteArrays
  import opened ReplyCodes
  import opened JobEffects
  import opened SessionModel
  import opened Scheduling
  import opened Handshakes
  import opened Connections
  import SD = SendDialogue

  datatype Call = CallReconnect | CallClose

  /** The socket, as reconnect tests it (connected or connecting), and the calls posted to the thread. */
  datatype Link = Link(open: bool, calls: seq<Call>)

  const NEW_LINK := Link(false, [])

  function RunCall(link: Link): Link {
    if link.calls == [] then link else Link(link.calls[0] == CallReconnect, link.calls[1..])
  }

  function Take(link: Link, request: Request): Link {
    match request
    case Reconnect => link.(calls := link.calls + [CallReconnect])
    case ReconnectNow => link.(open := true)
    case CloseSocket => link.(calls := link.calls + [CallClose])
    case _ => link
  }

  /** What the session asks in one step, at most one request that is not a command. */
  function TakeAsked(link: Link, s: Session, e: Event): Link {
    if Asked(s, e) == [] then link else Take(link, Asked(s, e)[0])
  }

  /** An event of the session, a posted call that runs, or the network closing the socket. */
  datatype LinkEvent = OfSession(e: Event) | CallRuns | Broken

  function SessionEvents(events: seq<LinkEvent>): seq<Event> {
    if events == [] then []
    else
      var last := events[|events| - 1];
      SessionEvents(events[..|events| - 1]) + if last.OfSession? then [last.e] else []
  }

  function SessionAfter(cfg: Config, events: seq<LinkEvent>): Session {
    After(cfg, SessionEvents(events))
  }

  function LinkAfter(cfg: Config, events: seq<LinkEvent>): Link {
    if events == [] then NEW_LINK
    else
      var before, last := events[..|events| - 1], events[|events| - 1];
      var link := LinkAfter(cfg, before);
      match last
      case OfSession(e) => TakeAsked(link, SessionAfter(cfg, before), e)
      case CallRuns => RunCall(link)
      case Broken => link.(open := false)
  }

  // ---------------------------------------------------------------------
  // Is a connection coming?
  // ---------------------------------------------------------------------

  /** The pending calls run one after the other. */
  function AllRun(link: Link): Link
    decreases |link.calls|
  {
    if link.calls == [] then link else AllRun(RunCall(link))
  }

  /** When they have, the socket is connected or connecting. */
  predicate Comes(link: Link) { AllRun(link).open }

  /** A close is pending, and no reconnect after it. */
  predicate ClosePending(link: Link) {
    link.calls != [] && link.calls[|link.calls| - 1] == CallClose
  }

  lemma {:induction false} ComesIs(link: Link)
    ensures Comes(link) <==> if link.calls == [] then link.open else !ClosePending(link)
    decreases |link.calls|
  {
    if link.calls != [] {
      ComesIs(RunCall(link));
    }
  }

  /** Jobs wait, and there is no connection. */
  predicate Waiting(s: Session) {
    s.crash.None? && s.state == Disconnected && s.queue != []
  }

  /** A job added to a session that is not ready for it gets a connection exactly when no close is pending. */
  lemma AddedJobIsConnectedIff(s: Session, link: Link, job: Job)
    requires !AtLeastNotAuthenticated(s.state)
    ensures Comes(TakeAsked(link, s, JobAdded(job))) <==> !ClosePending(link)
  {
    ComesIs(TakeAsked(link, s, JobAdded(job)));
  }

  // ---------------------------------------------------------------------
  // Runs
  // ---------------------------------------------------------------------

  /**
   * Rules: no job is added to a disconnected session while a close is pending
   * (`settled`), and the network does not break off while jobs wait in one (`holds`).
   */
  predicate Keeps(s: Session, link: Link, e: LinkEvent, settled: bool, holds: bool) {
    && (settled && e.OfSession? && e.e.JobAdded? && s.state == Disconnected ==> !ClosePending(link))
    && (holds && e.Broken? ==> !Waiting(s))
  }

  predicate LinkRun(cfg: Config, events: seq<LinkEvent>, settled: bool, holds: bool) {
    IsRun(cfg, SessionEvents(events))
    && (events == []
        || var before := events[..|events| - 1];
           LinkRun(cfg, before, settled, holds)
           && Keeps(SessionAfter(cfg, before), LinkAfter(cfg, before), events[|events| - 1], settled, holds))
  }

  /** A reply does not close a connection by itself, and does nothing while there is none. */
  lemma ReplyLeavesConnection(cfg: Config, s: Session, r: ServerResponse, sasl: SaslStep)
    requires s.crash.None? && Scheduled(s)
    ensures s.state == Disconnected ==> ResponseReceived(cfg, s, r, sasl) == s
    ensures s.state != Disconnected ==> ResponseReceived(cfg, s, r, sasl).state != Disconnected
  {
    if s.state == Handshake && !HandshakeFails(s, r) {
      HandshakeStaysOpen(cfg, s, r);
      HandshakeReplyKeeps(cfg, s, r);
      DeliverStaysOpen(cfg, HandshakeReply(cfg, s, r), r, sasl);
    } else if s.state != Disconnected {
      DeliverStaysOpen(cfg, s, r, sasl);
    }
  }

  lemma HandshakeStaysOpen(cfg: Config, s: Session, r: ServerResponse)
    requires s.state == Handshake
    ensures HandshakeReply(cfg, s, r).state != Disconnected
  {
    if Matches(r.code, 25) {
      assert s.(caps := Note(cfg, s.caps, r.text)).state == Handshake;
    }
  }

  lemma DeliverStaysOpen(cfg: Config, s: Session, r: ServerResponse, sasl: SaslStep)
    requires s.crash.None? && Scheduled(s) && s.state != Disconnected
    ensures Deliver(cfg, s, r, sasl).state != Disconnected
  {
    if s.currentJob.Some? {
      var run := s.currentJob.value;
      var (task, effects) := HandleTask(cfg, s, run.task, r, sasl);
      HandleShape(cfg, s, run.task, r, sasl);
      var heard := run.heard + [Heard(r, s.caps.allowsDsn, sasl)];
      PerformFrame(s.(currentJob := Some(run.(heard := heard, task := task))), run.job.id, effects);
    }
  }

  lemma WaitingStep(cfg: Config, s: Session, added: seq<Job>, link: Link, e: Event)
    requires Invariant(s) && Enabled(s, added, e) && Keeps(s, link, OfSession(e), true, true)
    requires Waiting(s) ==> Comes(link)
    ensures Waiting(Step(cfg, s, e)) ==> Comes(TakeAsked(link, s, e))
  {
    match e
    case OpenCalled => ComesIs(TakeAsked(link, s, e));
    case QuitCalled =>
    case JobAdded(job) => AddedWhileClosed(s, link, job);
    case Connected =>
    case ConnectionLost => LostKeeps(s);
    case Reply(r, step) => ReplyLeavesConnection(cfg, s, r, step);
    case Negotiated(version) =>
    case StartEvent(start) => StartFrame(cfg, s.(startEvents := s.startEvents - 1), start);
  }

  lemma AddedWhileClosed(s: Session, link: Link, job: Job)
    requires s.state == Disconnected ==> !ClosePending(link)
    ensures Waiting(AddJob(s, job)) ==> Comes(TakeAsked(link, s, JobAdded(job)))
  {
    if s.state == Disconnected {
      AddedJobIsConnectedIff(s, link, job);
    }
  }

  /** Under both rules a job that waits in a disconnected session has a connection coming. */
  lemma {:induction false} WaitingJobsAreConnected(cfg: Config, events: seq<LinkEvent>)
    requires LinkRun(cfg, events, true, true)
    ensures Waiting(SessionAfter(cfg, events)) ==> Comes(LinkAfter(cfg, events))
    decreases |events|
  {
    if events != [] {
      var before, last := events[..|events| - 1], events[|events| - 1];
      var s, link, known := SessionAfter(cfg, before), LinkAfter(cfg, before), SessionEvents(before);
      WaitingJobsAreConnected(cfg, before);
      match last
      case OfSession(e) =>
        assert (known + [e])[..|known|] == known;
        JobsAreDecidedInOrder(cfg, known);
        WaitingStep(cfg, s, Added(known), link, e);
      case CallRuns =>
        assert SessionEvents(events) == known;
      case Broken =>
        assert SessionEvents(events) == known;
    }
  }

  // Without either rule there is a run that leaves a job without a connection.

  /** A run goes on with an event of the session. */
  lemma Go(cfg: Config, before: seq<LinkEvent>, e: Event, settled: bool, holds: bool) returns (run: seq<LinkEvent>)
    requires LinkRun(cfg, before, settled, holds)
    requires Keeps(SessionAfter(cfg, before), LinkAfter(cfg, before), OfSession(e), settled, holds)
    requires Enabled(SessionAfter(cfg, before), Added(SessionEvents(before)), e)
    ensures run == before + [OfSession(e)] && LinkRun(cfg, run, settled, holds)
    ensures SessionAfter(cfg, run) == Step(cfg, SessionAfter(cfg, before), e)
    ensures LinkAfter(cfg, run) == TakeAsked(LinkAfter(cfg, before), SessionAfter(cfg, before), e)
    ensures Added(SessionEvents(run)) == Added(SessionEvents(before)) + if e.JobAdded? then [e.job] else []
  {
    run := before + [OfSession(e)];
    EventsMore(before, OfSession(e));
    OneMoreEvent(cfg, SessionEvents(before), e);
    LinkMore(cfg, before, OfSession(e));
    LinkRunMore(cfg, before, OfSession(e), settled, holds);
  }

  /** It goes on with an event that the session does not see. */
  lemma GoUnseen(cfg: Config, before: seq<LinkEvent>, e: LinkEvent, settled: bool, holds: bool)
    returns (run: seq<LinkEvent>)
    requires LinkRun(cfg, before, settled, holds) && !e.OfSession?
    requires Keeps(SessionAfter(cfg, before), LinkAfter(cfg, before), e, settled, holds)
    ensures run == before + [e] && LinkRun(cfg, run, settled, holds)
    ensures SessionEvents(run) == SessionEvents(before)
    ensures LinkAfter(cfg, run)
         == if e.CallRuns? then RunCall(LinkAfter(cfg, before)) else LinkAfter(cfg, before).(open := false)
  {
    run := before + [e];
    EventsMore(before, e);
    LinkMore(cfg, before, e);
    LinkRunMore(cfg, before, e, settled, holds);
  }

  lemma EventsMore(before: seq<LinkEvent>, e: LinkEvent)
    ensures SessionEvents(before + [e]) == SessionEvents(before) + if e.OfSession? then [e.e] else []
    ensures !e.OfSession? ==> SessionEvents(before + [e]) == SessionEvents(before)
  {
    assert (before + [e])[..|before|] == before;
  }

  lemma LinkMore(cfg: Config, before: seq<LinkEvent>, e: LinkEvent)
    ensures LinkAfter(cfg, before + [e]) == match e
      case OfSession(event) => TakeAsked(LinkAfter(cfg, before), SessionAfter(cfg, before), event)
      case CallRuns => RunCall(LinkAfter(cfg, before))
      case Broken => LinkAfter(cfg, before).(open := false)
  {
    assert (before + [e])[..|before|] == before;
  }

  lemma LinkRunMore(cfg: Config, before: seq<LinkEvent>, e: LinkEvent, settled: bool, holds: bool)
    requires LinkRun(cfg, before, settled, holds) && IsRun(cfg, SessionEvents(before + [e]))
    requires Keeps(SessionAfter(cfg, before), LinkAfter(cfg, before), e, settled, holds)
    ensures LinkRun(cfg, before + [e], settled, holds)
  {
    assert (before + [e])[..|before|] == before;
  }

  /** open() is still connecting when the session gives up on a timeout: the close is pending. */
  lemma TimedOut(cfg: Config) returns (run: seq<LinkEvent>)
    ensures LinkRun(cfg, run, false, true) && Added(SessionEvents(run)) == []
    ensures LinkAfter(cfg, run) == Link(true, [CallClose])
    ensures var s := SessionAfter(cfg, run); s.crash.None? && s.state == Disconnected && s.queue == []
  {
    run := OpenRuns(cfg);
    LossWithoutJobs(SessionAfter(cfg, run));
    run := Go(cfg, run, ConnectionLost, false, true);
  }

  lemma OpenRuns(cfg: Config) returns (run: seq<LinkEvent>)
    ensures LinkRun(cfg, run, false, true) && Added(SessionEvents(run)) == []
    ensures LinkAfter(cfg, run) == Link(true, [])
    ensures var s := SessionAfter(cfg, run); s.crash.None? && s.queue == [] && s.currentJob.None?
  {
    run := OpenAsked(cfg);
    run := GoUnseen(cfg, run, CallRuns, false, true);
  }

  lemma OpenAsked(cfg: Config) returns (run: seq<LinkEvent>)
    ensures LinkRun(cfg, run, false, true) && Added(SessionEvents(run)) == []
    ensures LinkAfter(cfg, run) == Link(false, [CallReconnect])
    ensures var s := SessionAfter(cfg, run); s.crash.None? && s.queue == [] && s.currentJob.None?
  {
    run := Go(cfg, [], OpenCalled, false, true);
  }

  lemma LossWithoutJobs(s: Session)
    requires s.currentJob.None? && s.queue == []
    ensures SocketDisconnected(s) == Post(s.(state := Disconnected), CloseSocket)
  {
    assert s.fates + AllDropped([]) == s.fates;
  }

  /**
   * After a timeout of open() the socket is still connecting when the job is added,
   * so reconnect does nothing, and then the pending close runs.
   */
  lemma AddedBeforeClose(cfg: Config, job: Job) returns (run: seq<LinkEvent>)
    requires Fresh(job.task)
    ensures LinkRun(cfg, run, false, true)
    ensures Waiting(SessionAfter(cfg, run)) && !Comes(LinkAfter(cfg, run))
  {
    run := TimedOut(cfg);
    var s, link := SessionAfter(cfg, run), LinkAfter(cfg, run);
    FirstJob(s, link, job);
    run := Go(cfg, run, JobAdded(job), false, true);
  }

  lemma FirstJob(s: Session, link: Link, job: Job)
    requires s.crash.None? && s.state == Disconnected && Fresh(job.task) && link == Link(true, [CallClose])
    ensures Enabled(s, [], JobAdded(job)) && Keeps(s, link, OfSession(JobAdded(job)), false, true)
    ensures Waiting(AddJob(s, job)) && !Comes(TakeAsked(link, s, JobAdded(job)))
  {
    AddedJobIsConnectedIff(s, link, job);
  }

  lemma BrokenWhileWaiting(cfg: Config, job: Job) returns (run: seq<LinkEvent>)
    requires Fresh(job.task)
    ensures LinkRun(cfg, run, true, false)
    ensures Waiting(SessionAfter(cfg, run)) && !Comes(LinkAfter(cfg, run))
  {
    OnNewSession(job);
    run := Go(cfg, [], JobAdded(job), true, false);
    run := GoUnseen(cfg, run, Broken, true, false);
  }

  lemma OnNewSession(job: Job)
    requires Fresh(job.task)
    ensures Enabled(NEW_SESSION, [], JobAdded(job)) && Waiting(AddJob(NEW_SESSION, job))
    ensures Keeps(NEW_SESSION, NEW_LINK, OfSession(JobAdded(job)), true, false)
    ensures TakeAsked(NEW_LINK, NEW_SESSION, JobAdded(job)) == Link(true, [])
  {
  }

  lemma {:induction false} FewerRules(cfg: Config, run: seq<LinkEvent>, a: bool, b: bool, settled: bool, holds: bool)
    requires LinkRun(cfg, run, a, b) && (settled ==> a) && (holds ==> b)
    ensures LinkRun(cfg, run, settled, holds)
    decreases |run|
  {
    if run != [] {
      FewerRules(cfg, run[..|run| - 1], a, b, settled, holds);
    }
  }

  /** Every job that waits in a disconnected session has a connection coming, in all runs, exactly under both rules. */
  lemma WaitingJobsAreConnectedIff(cfg: Config, settled: bool, holds: bool)
    ensures (forall run :: LinkRun(cfg, run, settled, holds) && Waiting(SessionAfter(cfg, run)) ==>
               Comes(LinkAfter(cfg, run)))
       <==> settled && holds
  {
    if settled && holds {
      forall run | LinkRun(cfg, run, true, true) && Waiting(SessionAfter(cfg, run)) ensures Comes(LinkAfter(cfg, run)) {
        WaitingJobsAreConnected(cfg, run);
      }
    } else {
      var job, run := Job(0, SendTask(SD.NEW_SEND_JOB)), [];
      if settled {
        run := BrokenWhileWaiting(cfg, job);
      } else {
        run := AddedBeforeClose(cfg, job);
      }
      FewerRules(cfg, run, settled, !settled, settled, holds);
      assert LinkRun(cfg, run, settled, holds) && !Comes(LinkAfter(cfg, run));
    }
  }
}
