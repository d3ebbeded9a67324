/**
 * What a job has heard is what the server replied while the job was current; and,
 * when no job is early, only what it replied after the handshake.
 */
module Hearings {
  import opened ByteArrays
  import opened ReplyCodes
  import opened JobEffects
  import opened SessionModel
  import opened Scheduling
  import opened Handshakes
  import opened ServerRecord
  import opened RunRules
  import opened EarlyJobs
  import LD = LoginDialogue

  /** The states in which replies are passed on to the current job. */
  const ANY_STATE: set<State> := {Disconnected, Ready, Handshake, NotAuthenticated, Authenticated}

  const AFTER_HANDSHAKE: set<State> := {NotAuthenticated, Authenticated}

  predicate IsCurrentJob(s: Session, id: nat) {
    s.currentJob.Some? && s.currentJob.value.job.id == id
  }

  /** The reply goes to the current job: the session does not answer it with QUIT, a greeting or the end. */
  predicate PassedOn(s: Session, r: ServerResponse) {
    && s.state != Quitting && !Rejects(s, r)
    && !(s.state == Ready && (Matches(r.code, 22) || s.ehloRejected))
  }

  /**
   * The replies of a run that came, in one of these states, while job `id` was
   * current, each with whether the server had offered DSN by then.
   */
  function RepliesTo(cfg: Config, events: seq<Event>, id: nat, states: set<State>): seq<Heard> {
    if events == [] then []
    else
      var before, last := events[..|events| - 1], events[|events| - 1];
      var s := After(cfg, before);
      RepliesTo(cfg, before, id, states)
      + if last.Reply? && IsCurrentJob(s, id) && PassedOn(s, last.r) && s.state in states
        then [Heard(last.r, "DSN" in Lines(cfg, events), last.step)] else []
  }

  /** What one event lets the current job hear. */
  function News(s: Session, next: Session, e: Event): seq<Heard> {
    if e.Reply? && s.currentJob.Some? && PassedOn(s, e.r) then [Heard(e.r, next.caps.allowsDsn, e.step)] else []
  }

  /** The current job and the jobs decided have heard what is in `told`; a job not known yet, nothing. */
  ghost predicate HasHeard(s: Session, told: nat -> seq<Heard>) {
    && (s.crash.None? && s.currentJob.Some? ==> s.currentJob.value.heard == told(s.currentJob.value.job.id))
    && (forall i :: 0 <= i < |s.fates| && s.fates[i].Finished? ==> s.fates[i].run.heard == told(s.fates[i].run.job.id))
    && (forall j :: 0 <= j < |s.queue| ==> told(s.queue[j].id) == [])
    && (forall i :: 0 <= i < |s.fates| && s.fates[i].Dropped? ==> told(s.fates[i].dropped.id) == [])
  }

  /** The current job, with one more reply heard, goes on or is decided; or the session passes nothing on. */
  predicate Goes(s: Session, next: Session, news: seq<Heard>) {
    && next.queue == s.queue
    && if s.currentJob.None? then next.fates == s.fates && next.currentJob.None?
       else
         var run := s.currentJob.value;
         || (next.fates == s.fates && next.currentJob.Some?
             && next.currentJob.value.job == run.job && next.currentJob.value.begun == run.begun
             && next.currentJob.value.started == run.started
             && next.currentJob.value.heard == run.heard + news)
         || (next.currentJob.None? && |next.fates| == |s.fates| + 1 && next.fates[..|s.fates|] == s.fates
             && var fate := next.fates[|s.fates|];
                fate.Finished? && fate.run.job == run.job && fate.run.begun == run.begun
                && fate.run.started == run.started && fate.run.heard == run.heard + news)
  }

  lemma PerformGoes(s: Session, id: nat, effects: seq<Effect>)
    requires IsCurrent(s, id) && WellFormed(effects)
    ensures Goes(s, Perform(s, id, effects), [])
  {
    PerformIs(s, id, effects);
    assert s.currentJob.value.heard + [] == s.currentJob.value.heard;
  }

  lemma DeliverGoes(cfg: Config, s: Session, r: ServerResponse, sasl: SaslStep)
    requires s.crash.None? && Scheduled(s)
    ensures Goes(s, Deliver(cfg, s, r, sasl),
                 if s.currentJob.Some? then [Heard(r, s.caps.allowsDsn, sasl)] else [])
    ensures Deliver(cfg, s, r, sasl).caps == s.caps
  {
    DeliverFrame(cfg, s, r, sasl);
    if s.currentJob.Some? {
      var run := s.currentJob.value;
      var (task, effects) := HandleTask(cfg, s, run.task, r, sasl);
      HandleShape(cfg, s, run.task, r, sasl);
      var heard := run.heard + [Heard(r, s.caps.allowsDsn, sasl)];
      PerformGoes(s.(currentJob := Some(run.(heard := heard, task := task))), run.job.id, effects);
      assert heard + [] == heard;
    }
  }

  /** The branch for Handshake leaves the jobs alone. */
  lemma HandshakeLeavesJobs(cfg: Config, s: Session, r: ServerResponse)
    requires s.state == Handshake
    ensures var next := HandshakeReply(cfg, s, r);
      next.queue == s.queue && next.fates == s.fates && next.currentJob == s.currentJob
    ensures HandshakeReply(cfg, s, r).state == Ready <==> Rejects(s, r)
  {
    HandshakeFrame(cfg, s, r);
    if !Rejects(s, r) && Matches(r.code, 25) {
      EndLeavesJobs(cfg, s, Note(cfg, s.caps, r.text));
    }
  }

  lemma EndLeavesJobs(cfg: Config, s: Session, caps: Capabilities)
    requires s.state == Handshake
    ensures var next := HandshakeDone(cfg, s.(caps := caps));
      next.queue == s.queue && next.fates == s.fates && next.currentJob == s.currentJob
  {
  }

  lemma ReplyGoes(cfg: Config, s: Session, r: ServerResponse, sasl: SaslStep)
    requires s.crash.None? && Scheduled(s)
    ensures var next := ResponseReceived(cfg, s, r, sasl); Goes(s, next, News(s, next, Reply(r, sasl)))
  {
    assert s.currentJob.Some? ==> s.currentJob.value.heard + [] == s.currentJob.value.heard;
    if s.state == Handshake && !HandshakeFails(s, r) {
      var next := HandshakeReply(cfg, s, r);
      HandshakeReplyKeeps(cfg, s, r);
      HandshakeLeavesJobs(cfg, s, r);
      if !Rejects(s, r) {
        DeliverGoes(cfg, next, r, sasl);
      } else {
        HandshakeFrame(cfg, s, r);
      }
    } else if s.state != Handshake && PassedOn(s, r) {
      DeliverGoes(cfg, s, r, sasl);
    }
  }

  lemma Told(s: Session, next: Session, news: seq<Heard>, told: nat -> seq<Heard>, more: nat -> seq<Heard>)
    requires s.crash.None? && Goes(s, next, news) && HasHeard(s, told) && Distinct(Ids(Jobs(s)))
    requires forall id: nat :: more(id) == told(id) + if IsCurrentJob(s, id) then news else []
    ensures HasHeard(next, more)
  {
    forall i | 0 <= i < |s.fates| ensures more(JobOf(s.fates[i]).id) == told(JobOf(s.fates[i]).id) {
      OtherIds(s, i);
    }
    forall j | 0 <= j < |s.queue| ensures more(s.queue[j].id) == told(s.queue[j].id) {
      QueueIds(s, j);
    }
  }

  lemma OtherIds(s: Session, i: nat)
    requires i < |s.fates| && Distinct(Ids(Jobs(s)))
    ensures !IsCurrentJob(s, JobOf(s.fates[i]).id)
  {
    if s.currentJob.Some? {
      assert Jobs(s)[|s.fates|] == s.currentJob.value.job && Jobs(s)[i] == JobOf(s.fates[i]);
      assert Ids(Jobs(s))[|s.fates|] != Ids(Jobs(s))[i];
    }
  }

  lemma QueueIds(s: Session, j: nat)
    requires j < |s.queue| && Distinct(Ids(Jobs(s)))
    ensures !IsCurrentJob(s, s.queue[j].id)
  {
    if s.currentJob.Some? {
      assert Jobs(s)[|s.fates|] == s.currentJob.value.job && Jobs(s)[|s.fates| + 1 + j] == s.queue[j];
      assert Ids(Jobs(s))[|s.fates|] != Ids(Jobs(s))[|s.fates| + 1 + j];
    }
  }

  /** The first job of the queue has become current, as `begun`, and has gone on or been decided. */
  predicate Takes(s: Session, next: Session, begun: Task, started: bool) {
    && s.currentJob.None? && s.queue != [] && next.queue == s.queue[1..]
    && (|| (next.fates == s.fates && next.currentJob.Some?
            && next.currentJob.value.job == s.queue[0] && next.currentJob.value.begun == begun
            && next.currentJob.value.started == started && next.currentJob.value.heard == [])
        || (next.currentJob.None? && |next.fates| == |s.fates| + 1 && next.fates[..|s.fates|] == s.fates
            && var fate := next.fates[|s.fates|];
               fate.Finished? && fate.run.job == s.queue[0] && fate.run.begun == begun
               && fate.run.started == started && fate.run.heard == []))
  }

  /** What the first job of the queue is begun as. */
  function BegunAs(cfg: Config, s: Session, sasl: LD.SaslStart): Task
    requires s.queue != []
  {
    StartTask(cfg, s, s.queue[0].task, sasl).0
  }

  lemma TakesTold(s: Session, next: Session, begun: Task, started: bool, told: nat -> seq<Heard>)
    requires Takes(s, next, begun, started) && HasHeard(s, told)
    ensures HasHeard(next, told)
  {
    forall j | 0 <= j < |next.queue| ensures told(next.queue[j].id) == [] {
      assert next.queue[j] == s.queue[j + 1];
    }
    forall i | 0 <= i < |s.fates| ensures next.fates[i] == s.fates[i] {
      assert next.fates[..|s.fates|][i] == next.fates[i] || next.fates == s.fates;
    }
  }

  lemma StartTakes(cfg: Config, s: Session, sasl: LD.SaslStart)
    requires s.crash.None? && Scheduled(s.(startEvents := s.startEvents + 1))
    ensures var next := DoStartNext(cfg, s, sasl);
      next == s || (s.queue != [] && Takes(s, next, BegunAs(cfg, s, sasl), true)) || next.crash.Some?
    ensures var next := DoStartNext(cfg, s, sasl);
      next.crash.Some? ==> next.fates == s.fates && s.queue != [] && next.queue == s.queue[1..]
  {
    if s.queue != [] && !s.jobRunning && s.state != Disconnected {
      var job := s.queue[0];
      var (task, effects) := StartTask(cfg, s, job.task, sasl);
      StartShape(cfg, s, job.task, sasl);
      if effects == [Abort(LoginUnencrypted)] {
        assert effects[1..] == [];
      } else {
        var started := s.(jobRunning := true, currentJob := Some(Begin(job, task)), queue := s.queue[1..]);
        PerformGoes(started, job.id, effects);
        PerformIs(started, job.id, effects);
      }
    }
  }

  /** A lost connection decides every job, with what it had heard. */
  lemma LossTold(s: Session, told: nat -> seq<Heard>)
    requires s.crash.None? && Scheduled(s) && HasHeard(s, told) && Distinct(Ids(Jobs(s)))
    ensures HasHeard(SocketDisconnected(s), told)
  {
    var closed := Post(s.(state := Disconnected), CloseSocket);
    var lost := AfterLoss(s);
    if closed.currentJob.Some? {
      LoseGoes(closed);
      assert forall id: nat :: told(id) + [] == told(id);
      Told(closed, lost, [], told, told);
    } else if closed.queue != [] {
      LoseGoes(HeadTaken(closed));
      TakesTold(closed, lost, closed.queue[0].task, false, told);
    }
    LossKeeps(s);
    DropTold(lost, told);
  }

  lemma LoseGoes(s: Session)
    requires s.crash.None? && s.currentJob.Some?
    ensures var lost := LoseCurrentJob(s); Goes(s, lost, []) && lost.currentJob.None?
  {
    var run, effects := s.currentJob.value, [EmitResult(USER_DEFINED_ERROR)];
    assert effects[1..] == [] && Results(effects) == [USER_DEFINED_ERROR] + Results([]);
    var failed := s.(currentJob := Some(run.(task := TaskFailed(run.task))));
    PerformGoes(failed, run.job.id, effects);
    PerformIs(failed, run.job.id, effects);
  }

  lemma DropTold(s: Session, told: nat -> seq<Heard>)
    requires HasHeard(s, told)
    ensures HasHeard(s.(fates := s.fates + AllDropped(s.queue), queue := []), told)
  {
  }

  lemma QuietTold(cfg: Config, s: Session, e: Event, told: nat -> seq<Heard>)
    requires Quiet(e) && s.crash.None? && HasHeard(s, told)
    requires e.JobAdded? ==> told(e.job.id) == []
    ensures HasHeard(Step(cfg, s, e), told)
  {
  }

  /** The id of a job that has not been added has heard nothing. */
  lemma {:induction false} UnknownHearsNothing(cfg: Config, events: seq<Event>, id: nat, states: set<State>)
    requires IsRun(cfg, events) && id !in Ids(Added(events))
    ensures RepliesTo(cfg, events, id, states) == []
    decreases |events|
  {
    if events != [] {
      var before, last := events[..|events| - 1], events[|events| - 1];
      var s := After(cfg, before);
      JobsAreDecidedInOrder(cfg, before);
      AddedBefore(before, last, id);
      UnknownHearsNothing(cfg, before, id, states);
      CurrentIsKnown(s, id);
    }
  }

  lemma CurrentIsKnown(s: Session, id: nat)
    ensures IsCurrentJob(s, id) ==> id in Ids(Jobs(s))
  {
    if IsCurrentJob(s, id) {
      assert Jobs(s)[|s.fates|] == s.currentJob.value.job;
      assert Ids(Jobs(s))[|s.fates|] == id;
    }
  }

  lemma AddedBefore(before: seq<Event>, last: Event, id: nat)
    requires id !in Ids(Added(before) + if last.JobAdded? then [last.job] else [])
    ensures id !in Ids(Added(before))
  {
    var all := Added(before) + if last.JobAdded? then [last.job] else [];
    forall i | 0 <= i < |Added(before)| ensures Ids(Added(before))[i] != id {
      assert Ids(all)[i] == Ids(Added(before))[i];
    }
  }

  /**
   * In every run: what the current job has heard, and what each decided job had
   * heard, are exactly the replies that came while it was current and were passed
   * on, in order; a job that waits or was dropped has heard nothing.
   */
  lemma {:induction false} HeardIsWhatCame(cfg: Config, events: seq<Event>)
    requires IsRun(cfg, events)
    ensures HasHeard(After(cfg, events), (id: nat) => RepliesTo(cfg, events, id, ANY_STATE))
    decreases |events|
  {
    if events != [] {
      var before, last := events[..|events| - 1], events[|events| - 1];
      assert events == before + [last];
      HeardIsWhatCame(cfg, before);
      StepHears(cfg, before, last, events);
    }
  }

  lemma StepHears(cfg: Config, before: seq<Event>, e: Event, events: seq<Event>)
    requires events == before + [e] && IsRun(cfg, events)
    requires HasHeard(After(cfg, before), (id: nat) => RepliesTo(cfg, before, id, ANY_STATE))
    ensures HasHeard(After(cfg, events), (id: nat) => RepliesTo(cfg, events, id, ANY_STATE))
  {
    assert events[..|events| - 1] == before;
    var s, next := After(cfg, before), After(cfg, events);
    var told := (id: nat) => RepliesTo(cfg, before, id, ANY_STATE);
    var more := (id: nat) => RepliesTo(cfg, events, id, ANY_STATE);
    JobsAreDecidedInOrder(cfg, before);
    AddedOnce(cfg, before);
    MoreReplies(cfg, before, e, events);
    if e.Reply? {
      ReplyGoes(cfg, s, e.r, e.step);
      Told(s, next, News(s, next, e), told, more);
    } else {
      SameTold(next, told, more);
      OtherHears(cfg, before, e, told);
    }
  }

  lemma MoreReplies(cfg: Config, before: seq<Event>, e: Event, events: seq<Event>)
    requires events == before + [e] && IsRun(cfg, events)
    ensures var s, next := After(cfg, before), After(cfg, events);
      forall id: nat :: RepliesTo(cfg, events, id, ANY_STATE)
        == RepliesTo(cfg, before, id, ANY_STATE) + if IsCurrentJob(s, id) then News(s, next, e) else []
  {
    assert events[..|events| - 1] == before;
    CapabilitiesAreWhatWasSaid(cfg, events);
  }

  lemma SameTold(s: Session, told: nat -> seq<Heard>, more: nat -> seq<Heard>)
    requires forall id: nat :: more(id) == told(id)
    ensures HasHeard(s, told) ==> HasHeard(s, more)
  {
  }

  lemma OtherHears(cfg: Config, before: seq<Event>, e: Event, told: nat -> seq<Heard>)
    requires IsRun(cfg, before) && Enabled(After(cfg, before), Added(before), e) && !e.Reply?
    requires forall id: nat :: told(id) == RepliesTo(cfg, before, id, ANY_STATE)
    requires HasHeard(After(cfg, before), told)
    ensures HasHeard(Step(cfg, After(cfg, before), e), told)
  {
    var s := After(cfg, before);
    JobsAreDecidedInOrder(cfg, before);
    AddedOnce(cfg, before);
    if Quiet(e) {
      if e.JobAdded? {
        UnknownHearsNothing(cfg, before, e.job.id, ANY_STATE);
      }
      QuietTold(cfg, s, e, told);
    } else if e.ConnectionLost? {
      LossTold(s, told);
    } else {
      StartTold(cfg, s, e.start, told);
    }
  }

  lemma StartTold(cfg: Config, s: Session, start: LD.SaslStart, told: nat -> seq<Heard>)
    requires s.crash.None? && Scheduled(s) && s.startEvents > 0 && HasHeard(s, told)
    ensures HasHeard(Step(cfg, s, StartEvent(start)), told)
  {
    var fired := s.(startEvents := s.startEvents - 1);
    var next := DoStartNext(cfg, fired, start);
    StartTakes(cfg, fired, start);
    if next.crash.None? && next != fired {
      TakesTold(fired, next, BegunAs(cfg, fired, start), true, told);
    } else if next.crash.Some? {
      forall j | 0 <= j < |next.queue| ensures told(next.queue[j].id) == [] {
        assert next.queue[j] == s.queue[j + 1];
      }
    }
  }

  // ---------------------------------------------------------------------
  // Only after the handshake
  // ---------------------------------------------------------------------

  /** Where no job is early, a reply that is passed on to a job comes after the handshake. */
  lemma {:induction false} RepliesComeAfterHandshake(cfg: Config, events: seq<Event>, id: nat)
    requires RunUnder(cfg, events, LATE)
    ensures RepliesTo(cfg, events, id, ANY_STATE) == RepliesTo(cfg, events, id, AFTER_HANDSHAKE)
    decreases |events|
  {
    if events != [] {
      var before := events[..|events| - 1];
      RepliesComeAfterHandshake(cfg, before, id);
      NothingIsEarly(cfg, before);
      JobsAreDecidedInOrder(cfg, before);
    }
  }

  /**
   * In every run that keeps `connects`, `drained` and `still`, all that the current
   * job and the decided jobs have heard came while they were current and the
   * session was ready: after the handshake of the connection, and none of it before.
   */
  lemma HeardAfterHandshake(cfg: Config, events: seq<Event>)
    requires RunUnder(cfg, events, LATE)
    ensures HasHeard(After(cfg, events), (id: nat) => RepliesTo(cfg, events, id, AFTER_HANDSHAKE))
  {
    HeardIsWhatCame(cfg, events);
    forall id: nat ensures RepliesTo(cfg, events, id, ANY_STATE) == RepliesTo(cfg, events, id, AFTER_HANDSHAKE) {
      RepliesComeAfterHandshake(cfg, events, id);
    }
    SameTold(After(cfg, events), (id: nat) => RepliesTo(cfg, events, id, ANY_STATE),
             (id: nat) => RepliesTo(cfg, events, id, AFTER_HANDSHAKE));
  }
}
