/**
 * What every run of the session keeps: one job at a time, jobs decided in the
 * order they were added, none lost or decided twice, no lost wake-up.
 */
module Scheduling {
  import opened ByteArrays
  import opened ReplyCodes
  import opened JobEffects
  import opened SessionModel
  import opened RequestLog
  import SD = SendDialogue
  import LD = LoginDialogue

  function CurrentJob(s: Session): seq<Job> {
    if s.currentJob.Some? then [s.currentJob.value.job] else []
  }

  function JobOf(fate: Fate): Job {
    match fate
    case Finished(run, _) => run.job
    case Dropped(job) => job
  }

  function Decided(fates: seq<Fate>): seq<Job> {
    seq(|fates|, (i: nat) requires i < |fates| => JobOf(fates[i]))
  }

  /** Every job the session knows: decided, current, waiting. */
  function Jobs(s: Session): seq<Job> {
    Decided(s.fates) + CurrentJob(s) + s.queue
  }

  predicate LiveTask(task: Task) {
    match task
    case SendTask(send) => SD.Live(send)
    case LoginTask(login) => login.error == 0
  }

  predicate WakeUpPending(s: Session) {
    (s.state == NotAuthenticated || s.state == Authenticated) && s.queue != [] && !s.jobRunning ==> s.startEvents > 0
  }

  predicate Scheduled(s: Session) {
    && (s.jobRunning <==> s.currentJob.Some?)
    && (s.state == Disconnected ==> s.currentJob.None?)
    && WakeUpPending(s)
    && (s.currentJob.Some? ==> LiveTask(s.currentJob.value.task))
    && (forall i :: 0 <= i < |s.queue| ==> Fresh(s.queue[i].task))
  }

  /** The only crash is the qFatal of a login without the encryption that was asked for. */
  predicate Invariant(s: Session) {
    if s.crash.Some? then s.crash == Some(LoginUnencrypted) else Scheduled(s)
  }

  // ---------------------------------------------------------------------
  // The calls of one step of a job
  // ---------------------------------------------------------------------

  /** After the commands and the change of state that a step asks for. */
  function AfterCalls(s: Session, id: nat, effects: seq<Effect>): Session {
    s.(requests := s.requests + Commanded(id, Commands(effects)),
       state := if Authenticate in effects then Authenticated else s.state)
  }

  /** What Perform comes to. */
  function Performed(s: Session, id: nat, effects: seq<Effect>): Session {
    var called := AfterCalls(s, id, effects);
    if Results(effects) == [] then called else JobDone(called, id, Results(effects)[0])
  }

  predicate IsCurrent(s: Session, id: nat) {
    s.crash.None? && s.currentJob.Some? && s.currentJob.value.job.id == id
  }

  lemma {:induction false} PerformIs(s: Session, id: nat, effects: seq<Effect>)
    requires IsCurrent(s, id) && WellFormed(effects)
    ensures Perform(s, id, effects) == Performed(s, id, effects)
    decreases |effects|
  {
    if effects == [] {
      assert s.requests + Commanded(id, []) == s.requests;
    } else if effects[0].EmitResult? {
      ResultIsLast(effects);
      assert s.requests + Commanded(id, []) == s.requests;
    } else {
      WellFormedRest(effects);
      PerformIs(PerformOne(s, id, effects[0]), id, effects[1..]);
      PerformedInTurn(s, id, effects);
    }
  }

  lemma ResultIsLast(effects: seq<Effect>)
    requires WellFormed(effects) && effects != [] && effects[0].EmitResult?
    ensures effects[1..] == [] && Commands(effects) == [] && Results(effects) == [effects[0].error]
    ensures Authenticate !in effects
  {
    assert Results(effects) == [effects[0].error] + Results([]);
    assert Commands(effects) == Commands([]);
  }

  lemma WellFormedRest(effects: seq<Effect>)
    requires WellFormed(effects) && effects != []
    ensures WellFormed(effects[1..])
  {
    var rest := effects[1..];
    forall i | 0 <= i < |rest| - 1 ensures !rest[i].EmitResult? {
      assert rest[i] == effects[i + 1];
    }
    forall i | 0 <= i < |rest| ensures !rest[i].Abort? {
      assert rest[i] == effects[i + 1];
    }
  }

  lemma PerformedInTurn(s: Session, id: nat, effects: seq<Effect>)
    requires IsCurrent(s, id) && effects != [] && (effects[0].Send? || effects[0].Authenticate?)
    ensures Performed(PerformOne(s, id, effects[0]), id, effects[1..]) == Performed(s, id, effects)
  {
    CallsInTurn(s, id, effects);
    assert Results(effects) == Results(effects[1..]);
  }

  lemma CallsInTurn(s: Session, id: nat, effects: seq<Effect>)
    requires effects != [] && (effects[0].Send? || effects[0].Authenticate?)
    ensures AfterCalls(PerformOne(s, id, effects[0]), id, effects[1..]) == AfterCalls(s, id, effects)
  {
    var first, rest := effects[0], effects[1..];
    assert Authenticate in effects <==> first == Authenticate || Authenticate in rest;
    if first.Send? {
      FirstCommanded(s.requests, id, first.command, Commands(rest));
    } else {
      assert Commands(effects) == Commands(rest);
    }
  }

  lemma FirstCommanded(requests: seq<Request>, id: nat, command: Bytes, commands: seq<Bytes>)
    ensures requests + [Command(FromJob(id), command)] + Commanded(id, commands)
         == requests + Commanded(id, [command] + commands)
  {
  }

  lemma DecidedMore(fates: seq<Fate>, more: seq<Fate>)
    ensures Decided(fates + more) == Decided(fates) + Decided(more)
  {
  }

  /** However the step ends, the job stays current or is decided, and its successor is woken. */
  lemma PerformKeeps(s: Session, id: nat, effects: seq<Effect>)
    requires IsCurrent(s, id) && WellFormed(effects)
    requires Results(effects) == [] ==> LiveTask(s.currentJob.value.task)
    requires s.jobRunning || Results(effects) != []
    requires s.state == Disconnected ==> Results(effects) != [] && Authenticate !in effects
    requires forall i :: 0 <= i < |s.queue| ==> Fresh(s.queue[i].task)
    ensures var next := Perform(s, id, effects);
      && next.crash.None? && Scheduled(next)
      && Jobs(next) == Jobs(s) && next.queue == s.queue
  {
    PerformIs(s, id, effects);
    if Results(effects) != [] {
      DecidedMore(s.fates, [Finished(s.currentJob.value, Results(effects)[0])]);
      assert Jobs(Perform(s, id, effects)) == Decided(s.fates) + [s.currentJob.value.job] + [] + s.queue;
    }
  }

  // ---------------------------------------------------------------------
  // Each event
  // ---------------------------------------------------------------------

  lemma StartShape(cfg: Config, s: Session, task: Task, sasl: LD.SaslStart)
    requires Fresh(task)
    ensures var (next, effects) := StartTask(cfg, s, task, sasl);
      && (task.LoginTask? && !Secured(cfg, s) <==> effects == [Abort(LoginUnencrypted)])
      && (effects != [Abort(LoginUnencrypted)] ==> WellFormed(effects) && Authenticate !in effects)
      && (Results(effects) == [] ==> LiveTask(next))
      && (Results(effects) != [] ==> Results(effects)[0] == USER_DEFINED_ERROR)
      && (next.LoginTask? <==> task.LoginTask?)
  {
    var effects := StartTask(cfg, s, task, sasl).1;
    assert |effects| == 1 && effects[1..] == [];
  }

  lemma StartKeeps(cfg: Config, s: Session, sasl: LD.SaslStart)
    requires s.crash.None? && Scheduled(s.(startEvents := s.startEvents + 1))
    ensures Invariant(DoStartNext(cfg, s, sasl))
    ensures Jobs(DoStartNext(cfg, s, sasl)) == Jobs(s)
  {
    if s.queue != [] && !s.jobRunning && s.state != Disconnected {
      var job := s.queue[0];
      var (task, effects) := StartTask(cfg, s, job.task, sasl);
      var started := s.(jobRunning := true, currentJob := Some(Begin(job, task)), queue := s.queue[1..]);
      StartShape(cfg, s, job.task, sasl);
      assert Decided(s.fates) + [] + s.queue == Decided(s.fates) + [job] + s.queue[1..];
      if effects == [Abort(LoginUnencrypted)] {
        assert effects[1..] == [];
      } else {
        PerformKeeps(started, job.id, effects);
      }
    }
  }

  lemma HandleShape(cfg: Config, s: Session, task: Task, r: ServerResponse, sasl: SaslStep)
    requires LiveTask(task)
    ensures var (next, effects) := HandleTask(cfg, s, task, r, sasl);
      WellFormed(effects) && (Results(effects) == [] ==> LiveTask(next))
  {
    match task
    case SendTask(send) => SD.StepIsWellFormed(send, r, s.caps.allowsDsn, cfg.ace);
    case LoginTask(login) =>
      LD.StepIsWellFormed(login, r, sasl, cfg.base64);
  }

  lemma DeliverKeeps(cfg: Config, s: Session, r: ServerResponse, sasl: SaslStep)
    requires s.crash.None? && Scheduled(s)
    ensures Deliver(cfg, s, r, sasl).crash.None? && Scheduled(Deliver(cfg, s, r, sasl))
    ensures Jobs(Deliver(cfg, s, r, sasl)) == Jobs(s)
  {
    if s.currentJob.Some? {
      var run := s.currentJob.value;
      var (task, effects) := HandleTask(cfg, s, run.task, r, sasl);
      HandleShape(cfg, s, run.task, r, sasl);
      var heard := run.heard + [Heard(r, s.caps.allowsDsn, sasl)];
      PerformKeeps(s.(currentJob := Some(run.(heard := heard, task := task))), run.job.id, effects);
    }
  }

  lemma HandshakeReplyKeeps(cfg: Config, s: Session, r: ServerResponse)
    requires s.crash.None? && Scheduled(s) && s.state == Handshake
    ensures var next := HandshakeReply(cfg, s, r);
      next.crash.None? && Scheduled(next) && Jobs(next) == Jobs(s)
  {
    if !Matches(r.code, 500) && !Matches(r.code, 502) && Matches(r.code, 25) {
      NotedKeeps(cfg, s, Note(cfg, s.caps, r.text));
    }
  }

  lemma NotedKeeps(cfg: Config, s: Session, caps: Capabilities)
    requires s.crash.None? && Scheduled(s)
    ensures var noted := s.(caps := caps);
      && noted.crash.None? && Scheduled(noted) && Jobs(noted) == Jobs(s)
      && HandshakeDone(cfg, noted).crash.None? && Scheduled(HandshakeDone(cfg, noted))
      && Jobs(HandshakeDone(cfg, noted)) == Jobs(s)
  {
  }

  lemma ReplyKeeps(cfg: Config, s: Session, r: ServerResponse, sasl: SaslStep)
    requires s.crash.None? && Scheduled(s)
    ensures ResponseReceived(cfg, s, r, sasl).crash.None? && Scheduled(ResponseReceived(cfg, s, r, sasl))
    ensures Jobs(ResponseReceived(cfg, s, r, sasl)) == Jobs(s)
  {
    if s.state != Quitting && !HandshakeFails(s, r) {
      var next := s;
      if s.state == Handshake {
        HandshakeReplyKeeps(cfg, s, r);
        next := HandshakeReply(cfg, s, r);
      }
      if !(next.state == Ready && (Matches(r.code, 22) || next.ehloRejected)) {
        DeliverKeeps(cfg, next, r, sasl);
      }
    }
  }

  lemma LoseKeeps(s: Session)
    requires s.crash.None? && s.state == Disconnected && s.currentJob.Some?
    requires forall i :: 0 <= i < |s.queue| ==> Fresh(s.queue[i].task)
    ensures var lost := LoseCurrentJob(s);
      && lost.crash.None? && Scheduled(lost) && lost.queue == s.queue
      && Jobs(lost) == Jobs(s) && lost.state == Disconnected
      && lost.startEvents == s.startEvents + 1 && lost.sslVersion == s.sslVersion
      && |lost.fates| == |s.fates| + 1 && lost.fates[..|s.fates|] == s.fates
      && lost.fates[|s.fates|].Finished? && lost.fates[|s.fates|].error == USER_DEFINED_ERROR
  {
    var effects := [EmitResult(USER_DEFINED_ERROR)];
    assert effects[1..] == [];
    assert Results(effects) == [USER_DEFINED_ERROR];
    var run := s.currentJob.value;
    var failed := s.(currentJob := Some(run.(task := TaskFailed(run.task))));
    PerformKeeps(failed, run.job.id, effects);
    PerformIs(failed, run.job.id, effects);
  }

  /** The session once the job that is told of the loss has been decided. */
  function AfterLoss(s: Session): Session {
    var closed := Post(s.(state := Disconnected), CloseSocket);
    if closed.currentJob.Some? then LoseCurrentJob(closed)
    else if closed.queue != [] then LoseCurrentJob(HeadTaken(closed))
    else closed
  }

  lemma LossKeeps(s: Session)
    requires s.crash.None? && Scheduled(s)
    ensures var lost, open := AfterLoss(s), CurrentJob(s) + s.queue;
      && lost.crash.None? && Scheduled(lost) && lost.state == Disconnected && lost.currentJob.None?
      && Jobs(lost) == Jobs(s)
      && |lost.fates| == |s.fates| + (if open == [] then 0 else 1) && lost.fates[..|s.fates|] == s.fates
      && (open != [] ==> lost.fates[|s.fates|].Finished? && lost.fates[|s.fates|].error == USER_DEFINED_ERROR)
  {
    var closed := Post(s.(state := Disconnected), CloseSocket);
    assert Jobs(closed) == Jobs(s);
    if closed.currentJob.Some? {
      LoseKeeps(closed);
    } else if closed.queue != [] {
      TakeKeeps(closed);
      LoseKeeps(HeadTaken(closed));
    }
  }

  lemma TakeKeeps(s: Session)
    requires s.currentJob.None? && s.queue != []
    ensures Jobs(HeadTaken(s)) == Jobs(s)
  {
    assert [] + s.queue == [s.queue[0]] + s.queue[1..];
    assert Jobs(s) == Decided(s.fates) + ([] + s.queue);
  }

  lemma DropKeeps(lost: Session)
    requires lost.crash.None? && Scheduled(lost) && lost.currentJob.None? && lost.state == Disconnected
    ensures var dropped := lost.(fates := lost.fates + AllDropped(lost.queue), queue := []);
      dropped.crash.None? && Scheduled(dropped) && Jobs(dropped) == Jobs(lost)
  {
    DecidedMore(lost.fates, AllDropped(lost.queue));
    assert Decided(AllDropped(lost.queue)) == lost.queue;
  }

  lemma LostKeeps(s: Session)
    requires s.crash.None? && Scheduled(s)
    ensures var lost := SocketDisconnected(s);
      && lost.crash.None? && Scheduled(lost) && Jobs(lost) == Jobs(s)
      && lost.state == Disconnected && lost.queue == [] && lost.currentJob.None?
  {
    LossKeeps(s);
    DropKeeps(AfterLoss(s));
  }

  /** The events in which no job acts. */
  predicate Quiet(e: Event) {
    !e.ConnectionLost? && !e.Reply? && !e.StartEvent?
  }

  lemma QuietKeeps(cfg: Config, s: Session, added: seq<Job>, e: Event)
    requires s.crash.None? && Scheduled(s) && Enabled(s, added, e) && Quiet(e)
    ensures Step(cfg, s, e).crash.None? && Scheduled(Step(cfg, s, e))
    ensures Jobs(Step(cfg, s, e)) == Jobs(s) + if e.JobAdded? then [e.job] else []
  {
    if e.JobAdded? {
      AddKeeps(s, e.job);
    } else {
      assert Jobs(s) + [] == Jobs(s);
    }
  }

  lemma AddKeeps(s: Session, job: Job)
    requires s.crash.None? && Scheduled(s) && Fresh(job.task)
    ensures AddJob(s, job).crash.None? && Scheduled(AddJob(s, job))
    ensures Jobs(AddJob(s, job)) == Jobs(s) + [job]
  {
  }

  lemma StepKeeps(cfg: Config, s: Session, added: seq<Job>, e: Event)
    requires Invariant(s) && Enabled(s, added, e)
    ensures Invariant(Step(cfg, s, e))
    ensures Jobs(Step(cfg, s, e)) == Jobs(s) + if e.JobAdded? then [e.job] else []
  {
    if Quiet(e) {
      QuietKeeps(cfg, s, added, e);
    } else {
      assert Jobs(s) + [] == Jobs(s);
      match e
      case ConnectionLost => LostKeeps(s);
      case Reply(r, step) => ReplyKeeps(cfg, s, r, step);
      case StartEvent(start) => StartKeeps(cfg, s.(startEvents := s.startEvents - 1), start);
    }
  }

  // ---------------------------------------------------------------------
  // Every run
  // ---------------------------------------------------------------------

  /**
   * In every run, whatever the server, the user and the library do: the jobs
   * decided so far, in the order they were decided, then the current one, then
   * the queue, are exactly the jobs added, in the order they were added.
   * Between events a job is running exactly when there is a current one, there
   * is none while disconnected, no assertion fails, and a job waiting in a
   * session that is ready for it has a start event coming.
   */
  lemma {:induction false} JobsAreDecidedInOrder(cfg: Config, events: seq<Event>)
    requires IsRun(cfg, events)
    ensures Jobs(After(cfg, events)) == Added(events)
    ensures Invariant(After(cfg, events))
    decreases |events|
  {
    if events != [] {
      var before, last := events[..|events| - 1], events[|events| - 1];
      JobsAreDecidedInOrder(cfg, before);
      StepKeeps(cfg, After(cfg, before), Added(before), last);
    }
  }

  lemma IdsMore(jobs: seq<Job>, job: Job)
    ensures Ids(jobs + [job]) == Ids(jobs) + [job.id]
  {
  }

  predicate Distinct<T(==)>(s: seq<T>) {
    forall i, j :: 0 <= i < j < |s| ==> s[i] != s[j]
  }

  lemma {:induction false} AddedOnce(cfg: Config, events: seq<Event>)
    requires IsRun(cfg, events)
    ensures Distinct(Ids(Added(events)))
    decreases |events|
  {
    if events != [] {
      var before, last := events[..|events| - 1], events[|events| - 1];
      AddedOnce(cfg, before);
      if last.JobAdded? {
        IdsMore(Added(before), last.job);
        assert last.job.id !in Ids(Added(before));
      } else {
        assert Added(events) == Added(before);
      }
    }
  }

  /** No job is decided twice, and none is decided while it is current or waiting. */
  lemma OneFatePerJob(cfg: Config, events: seq<Event>)
    requires IsRun(cfg, events)
    ensures Distinct(Ids(Decided(After(cfg, events).fates)))
    ensures var s := After(cfg, events);
      && (forall i, j :: 0 <= i < |s.fates| && 0 <= j < |s.queue| ==> JobOf(s.fates[i]).id != s.queue[j].id)
      && (s.currentJob.Some? ==>
           (forall i :: 0 <= i < |s.fates| ==> JobOf(s.fates[i]).id != s.currentJob.value.job.id)
           && (forall j :: 0 <= j < |s.queue| ==> s.queue[j].id != s.currentJob.value.job.id))
  {
    var s := After(cfg, events);
    JobsAreDecidedInOrder(cfg, events);
    AddedOnce(cfg, events);
    var ids := Ids(Added(events));
    var n, m := |s.fates|, |s.fates| + |CurrentJob(s)|;
    forall i | 0 <= i < n ensures ids[i] == JobOf(s.fates[i]).id {
      assert Jobs(s)[i] == Decided(s.fates)[i];
    }
    forall j | 0 <= j < |s.queue| ensures ids[m + j] == s.queue[j].id {
      assert Jobs(s)[m + j] == s.queue[j];
    }
    if s.currentJob.Some? {
      assert Jobs(s)[n] == s.currentJob.value.job;
      assert ids[n] == s.currentJob.value.job.id;
    }
  }

  /** An error for the first, the others dropped. */
  predicate OneErrorRestDropped(fates: seq<Fate>) {
    forall i :: 0 <= i < |fates| ==>
      if i == 0 then fates[i].Finished? && fates[i].error == USER_DEFINED_ERROR else fates[i].Dropped?
  }

  /**
   * Losing the connection decides every job: exactly one gets a result, an
   * error, namely the current one, or else the first in the queue; the others
   * are dropped, in order.
   */
  lemma DisconnectDecidesAll(s: Session)
    requires s.crash.None? && Scheduled(s)
    ensures var lost := SocketDisconnected(s);
      && lost.queue == [] && lost.currentJob.None? && !lost.jobRunning
      && s.fates <= lost.fates
      && Decided(lost.fates[|s.fates|..]) == CurrentJob(s) + s.queue
      && OneErrorRestDropped(lost.fates[|s.fates|..])
  {
    LostKeeps(s);
    LossFates(s);
    var lost := SocketDisconnected(s);
    var more := lost.fates[|s.fates|..];
    assert lost.fates == s.fates + more;
    DecidedMore(s.fates, more);
    SameRest(Decided(s.fates), Decided(more), CurrentJob(s) + s.queue, Jobs(s));
  }

  lemma LossFates(s: Session)
    requires s.crash.None? && Scheduled(s)
    ensures s.fates <= SocketDisconnected(s).fates
    ensures OneErrorRestDropped(SocketDisconnected(s).fates[|s.fates|..])
  {
    LossKeeps(s);
    var lost := AfterLoss(s);
    assert SocketDisconnected(s).fates == lost.fates + AllDropped(lost.queue);
    assert lost.fates == s.fates + lost.fates[|s.fates|..];
  }

  lemma SameRest(a: seq<Job>, b: seq<Job>, c: seq<Job>, all: seq<Job>)
    requires a + b == all && all == a + c
    ensures b == c
  {
    assert all[|a|..] == b && all[|a|..] == c;
  }

  // ---------------------------------------------------------------------
  // The queue is drained
  // ---------------------------------------------------------------------

  /** Let pending start events fire, and nothing else happen. */
  function Fire(cfg: Config, s: Session, starts: seq<LD.SaslStart>): Session
    decreases |starts|
  {
    if starts == [] || s.startEvents == 0 || s.crash.Some? then s
    else Fire(cfg, Step(cfg, s, StartEvent(starts[0])), starts[1..])
  }

  lemma FireOnce(cfg: Config, s: Session, start: LD.SaslStart)
    requires s.crash.None? && Scheduled(s) && s.startEvents > 0
    ensures var next := Step(cfg, s, StartEvent(start));
      && Invariant(next) && next.state == s.state
      && next.startEvents + |next.queue| < s.startEvents + |s.queue|
  {
    var fired := s.(startEvents := s.startEvents - 1);
    StartKeeps(cfg, fired, start);
    if s.queue != [] && !s.jobRunning && s.state != Disconnected {
      StartTakesOne(cfg, fired, start);
    }
  }

  /** Starting a job takes it from the queue and posts at most one start event. */
  lemma StartTakesOne(cfg: Config, s: Session, start: LD.SaslStart)
    requires s.crash.None? && s.queue != [] && !s.jobRunning && s.state != Disconnected
    requires Fresh(s.queue[0].task)
    ensures var next := DoStartNext(cfg, s, start);
      next.state == s.state && next.queue == s.queue[1..] && next.startEvents <= s.startEvents + 1
  {
    var job := s.queue[0];
    var (task, effects) := StartTask(cfg, s, job.task, start);
    StartShape(cfg, s, job.task, start);
    if effects == [Abort(LoginUnencrypted)] {
      assert effects[1..] == [];
    } else {
      FirstStepWakes(s.(jobRunning := true, currentJob := Some(Begin(job, task)), queue := s.queue[1..]),
                     job.id, effects);
    }
  }

  /** A job's first step takes no job from the queue and posts at most one start event. */
  lemma FirstStepWakes(started: Session, id: nat, effects: seq<Effect>)
    requires IsCurrent(started, id) && WellFormed(effects) && Authenticate !in effects
    ensures var next := Perform(started, id, effects);
      next.state == started.state && next.queue == started.queue && next.startEvents <= started.startEvents + 1
  {
    PerformIs(started, id, effects);
  }

  /**
   * In a session that is ready for its jobs, letting the start events fire works
   * through the queue however many jobs fail on the spot: in the end the queue
   * is empty or a job is running (or a login without encryption ended it all).
   */
  lemma {:induction false} QueueDrains(cfg: Config, s: Session, starts: seq<LD.SaslStart>)
    requires Invariant(s) && (s.state == NotAuthenticated || s.state == Authenticated)
    requires |starts| >= s.startEvents + |s.queue|
    ensures var end := Fire(cfg, s, starts);
      end.crash.Some? || (end.startEvents == 0 && (end.queue == [] || end.jobRunning))
    decreases |starts|
  {
    if starts != [] && s.startEvents > 0 && s.crash.None? {
      FireOnce(cfg, s, starts[0]);
      QueueDrains(cfg, Step(cfg, s, StartEvent(starts[0])), starts[1..]);
    }
  }
}
