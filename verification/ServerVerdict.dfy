/**
 * From the server to the user: the lines the server prints, through the thread and
 * the session, to the result of the send job they are meant for.
 */
module ServerVerdict {
  import opened ByteArrays
  import opened ReplyCodes
  import opened JobEffects
  import opened SessionModel
  import opened Scheduling
  import opened Handshakes
  import opened RunRules
  import opened EarlyJobs
  import opened Hearings
  import SentMail
  import P = ReplyParser
  import SD = SendDialogue
  import LD = LoginDialogue
  import TM = ThreadModel

  // ---------------------------------------------------------------------
  // Counting lines
  // ---------------------------------------------------------------------

  function Acceptances(lines: seq<ServerResponse>): nat {
    if lines == [] then 0
    else Acceptances(lines[..|lines| - 1]) + if Matches(lines[|lines| - 1].code, 25) then 1 else 0
  }

  predicate NoErrorLine(lines: seq<ServerResponse>) {
    forall i :: 0 <= i < |lines| ==> !IsError(lines[i])
  }

  /** Line k is acceptance number n + 2, and no error line comes before it. */
  predicate AcceptsAt(lines: seq<ServerResponse>, n: nat, k: nat) {
    k < |lines| && NoErrorLine(lines[..k]) && Matches(lines[k].code, 25) && Acceptances(lines[..k]) == n + 1
  }

  /** Line k is the first error line, before acceptance number n + 2. */
  predicate RefusesAt(lines: seq<ServerResponse>, n: nat, k: nat) {
    k < |lines| && NoErrorLine(lines[..k]) && IsError(lines[k]) && Acceptances(lines[..k]) <= n + 1
  }

  function RepliesOf(heard: seq<Heard>): (lines: seq<ServerResponse>)
    ensures |lines| == |heard|
    ensures forall i :: 0 <= i < |heard| ==> lines[i] == heard[i].reply
  {
    if heard == [] then [] else RepliesOf(heard[..|heard| - 1]) + [heard[|heard| - 1].reply]
  }

  lemma RepliesOfPrefix(heard: seq<Heard>, k: nat)
    requires k <= |heard|
    ensures RepliesOf(heard[..k]) == RepliesOf(heard)[..k]
  {
  }

  lemma {:induction false} AcceptedCount(heard: seq<Heard>)
    ensures |SD.Accepted(heard)| == Acceptances(RepliesOf(heard))
    ensures SD.NoErrors(heard) <==> NoErrorLine(RepliesOf(heard))
    decreases |heard|
  {
    if heard != [] {
      var before := heard[..|heard| - 1];
      AcceptedCount(before);
      RepliesOfPrefix(heard, |heard| - 1);
    }
    assert SD.NoErrors(heard) <==> NoErrorLine(RepliesOf(heard)) by {
      forall i | 0 <= i < |heard| ensures RepliesOf(heard)[i] == heard[i].reply {
      }
    }
  }

  lemma LinesDecide(job: SD.SendState, heard: seq<Heard>, k: nat)
    ensures SD.SucceedsAt(job, heard, k) <==> AcceptsAt(RepliesOf(heard), |job.recipients|, k)
    ensures SD.FailsAt(job, heard, k) <==> RefusesAt(RepliesOf(heard), |job.recipients|, k)
  {
    if k < |heard| {
      AcceptedCount(heard[..k]);
      RepliesOfPrefix(heard, k);
    }
  }

  // ---------------------------------------------------------------------
  // The job and the replies
  // ---------------------------------------------------------------------

  /** The server replies, jobs are added, start events fire; nothing else happens. */
  predicate Calm(events: seq<Event>) {
    forall i :: 0 <= i < |events| ==> events[i].Reply? || events[i].JobAdded? || events[i].StartEvent?
  }

  /** What the session is told in these events. */
  function Responses(events: seq<Event>): seq<ServerResponse> {
    if events == [] then []
    else
      var last := events[|events| - 1];
      Responses(events[..|events| - 1]) + if last.Reply? then [last.r] else []
  }

  function HeardIn(cfg: Config, before: seq<Event>, events: seq<Event>): seq<Heard> {
    if events == [] then []
    else
      var last := events[|events| - 1];
      HeardIn(cfg, before, events[..|events| - 1])
      + if last.Reply? then [Heard(last.r, After(cfg, before + events).caps.allowsDsn, last.step)] else []
  }

  lemma {:induction false} HeardResponses(cfg: Config, before: seq<Event>, events: seq<Event>)
    ensures RepliesOf(HeardIn(cfg, before, events)) == Responses(events)
    decreases |events|
  {
    if events != [] {
      HeardResponses(cfg, before, events[..|events| - 1]);
      var heard := HeardIn(cfg, before, events);
      if events[|events| - 1].Reply? {
        assert heard[..|heard| - 1] == HeardIn(cfg, before, events[..|events| - 1]);
      }
    }
  }

  /** A send job has just been started, and the session is past the handshake. */
  predicate JustStarted(s: Session) {
    && s.crash.None? && s.state in AFTER_HANDSHAKE && s.currentJob.Some?
    && s.currentJob.value.job.task.SendTask? && s.currentJob.value.begun.SendTask?
    && s.currentJob.value.heard == []
  }

  /** The job is still running and has heard all of it, or it has been decided by it. */
  predicate GoesOn(cfg: Config, start: Session, s: Session, heard: seq<Heard>)
    requires JustStarted(start)
  {
    && s.state in AFTER_HANDSHAKE
    && var run := start.currentJob.value;
       var results := SD.Dialogue(run.begun.send, heard, cfg.ace).results;
       if results == [] then
         && s.fates == start.fates && s.currentJob.Some?
         && s.currentJob.value.job == run.job && s.currentJob.value.begun == run.begun
         && s.currentJob.value.heard == heard
       else
         && |s.fates| > |start.fates|
         && var fate := s.fates[|start.fates|];
            fate.Finished? && fate.run.job == run.job && fate.error == results[0]
  }

  lemma ReplyGoesOn(cfg: Config, start: Session, s: Session, r: ServerResponse, sasl: SaslStep, heard: seq<Heard>)
    requires JustStarted(start) && GoesOn(cfg, start, s, heard)
    requires s.crash.None? && Scheduled(s) && SentMail.CurrentFollows(cfg, s)
    ensures var next := ResponseReceived(cfg, s, r, sasl);
      GoesOn(cfg, start, next, heard + [Heard(r, next.caps.allowsDsn, sasl)])
  {
    var run := start.currentJob.value;
    DeliverState(cfg, s, r, sasl);
    DeliverGoes(cfg, s, r, sasl);
    if SD.Dialogue(run.begun.send, heard, cfg.ace).results == [] {
      DecidedByReply(cfg, s, r, sasl);
    } else {
      DialogueStands(run.begun.send, heard, Heard(r, s.caps.allowsDsn, sasl), cfg.ace);
      FatesStand(s, Deliver(cfg, s, r, sasl), if s.currentJob.Some? then [Heard(r, s.caps.allowsDsn, sasl)] else []);
    }
  }

  lemma DialogueStands(job: SD.SendState, heard: seq<Heard>, h: Heard, ace: string -> Bytes)
    requires SD.Dialogue(job, heard, ace).results != []
    ensures SD.Dialogue(job, heard + [h], ace) == SD.Dialogue(job, heard, ace)
  {
    assert (heard + [h])[..|heard|] == heard;
  }

  lemma FatesStand(s: Session, next: Session, news: seq<Heard>)
    requires Goes(s, next, news)
    ensures |s.fates| <= |next.fates| && forall i :: 0 <= i < |s.fates| ==> next.fates[i] == s.fates[i]
  {
    if next.fates != s.fates {
      forall i | 0 <= i < |s.fates| ensures next.fates[i] == s.fates[i] {
        assert next.fates[..|s.fates|][i] == next.fates[i];
      }
    }
  }

  /** One more reply to a send job that is running. */
  lemma DecidedByReply(cfg: Config, s: Session, r: ServerResponse, sasl: SaslStep)
    requires s.crash.None? && Scheduled(s) && s.currentJob.Some? && s.currentJob.value.job.task.SendTask?
    requires SentMail.CurrentFollows(cfg, s)
    ensures var run, next := s.currentJob.value, Deliver(cfg, s, r, sasl);
      var heard := run.heard + [Heard(r, s.caps.allowsDsn, sasl)];
      && run.begun.SendTask?
      && var results := SD.Dialogue(run.begun.send, heard, cfg.ace).results;
         if results == [] then
           && next.fates == s.fates && next.currentJob.Some? && next.currentJob.value.job == run.job
           && next.currentJob.value.begun == run.begun && next.currentJob.value.heard == heard
         else
           && |next.fates| == |s.fates| + 1
           && var fate := next.fates[|s.fates|];
              fate.Finished? && fate.run.job == run.job && fate.error == results[0]
  {
    var run, h := s.currentJob.value, Heard(r, s.caps.allowsDsn, sasl);
    assert SentMail.SendFollows(cfg, SentMail.CommandsOf(s, run.job), run, [], false);
    var (task, effects) := HandleTask(cfg, s, run.task, r, sasl);
    HandleShape(cfg, s, run.task, r, sasl);
    SD.HeardOneMore(run.begun.send, run.heard, h, cfg.ace);
    PerformIs(s.(currentJob := Some(run.(heard := run.heard + [h], task := task))), run.job.id, effects);
  }

  lemma OtherGoesOn(cfg: Config, start: Session, s: Session, added: seq<Job>, e: Event, heard: seq<Heard>)
    requires JustStarted(start) && GoesOn(cfg, start, s, heard)
    requires Invariant(s) && Enabled(s, added, e) && (e.JobAdded? || e.StartEvent?)
    ensures GoesOn(cfg, start, Step(cfg, s, e), heard)
  {
    if e.StartEvent? {
      StartGoesOn(cfg, start, s, e.start, heard);
    }
  }

  lemma StartGoesOn(cfg: Config, start: Session, s: Session, sasl: LD.SaslStart, heard: seq<Heard>)
    requires JustStarted(start) && GoesOn(cfg, start, s, heard)
    requires s.crash.None? && Scheduled(s) && s.startEvents > 0
    ensures GoesOn(cfg, start, Step(cfg, s, StartEvent(sasl)), heard)
  {
    StartStaysOut(cfg, s, sasl);
    StartTakes(cfg, s.(startEvents := s.startEvents - 1), sasl);
  }

  lemma {:induction false} JobGoesOn(cfg: Config, before: seq<Event>, events: seq<Event>)
    requires IsRun(cfg, before + events) && Calm(events) && JustStarted(After(cfg, before))
    ensures GoesOn(cfg, After(cfg, before), After(cfg, before + events), HeardIn(cfg, before, events))
    decreases |events|
  {
    var start := After(cfg, before);
    if events == [] {
      assert before + events == before;
    } else {
      var most, last := events[..|events| - 1], events[|events| - 1];
      assert (before + events)[..|before + events| - 1] == before + most;
      JobGoesOn(cfg, before, most);
      JobsAreDecidedInOrder(cfg, before + most);
      SentMail.RunsAreConsistent(cfg, before + most);
      StepGoesOn(cfg, start, After(cfg, before + most), Added(before + most), last, HeardIn(cfg, before, most));
    }
  }

  lemma StepGoesOn(cfg: Config, start: Session, s: Session, added: seq<Job>, e: Event, heard: seq<Heard>)
    requires JustStarted(start) && GoesOn(cfg, start, s, heard)
    requires Invariant(s) && Enabled(s, added, e) && SentMail.CurrentFollows(cfg, s)
    requires e.Reply? || e.JobAdded? || e.StartEvent?
    ensures var next := Step(cfg, s, e);
      GoesOn(cfg, start, next, heard + if e.Reply? then [Heard(e.r, next.caps.allowsDsn, e.step)] else [])
  {
    if e.Reply? {
      ReplyGoesOn(cfg, start, s, e.r, e.step, heard);
    } else {
      OtherGoesOn(cfg, start, s, added, e, heard);
      assert heard + [] == heard;
    }
  }

  // ---------------------------------------------------------------------
  // From the server to the result
  // ---------------------------------------------------------------------

  predicate AllPrintable(replies: seq<P.Reply>) {
    forall i :: 0 <= i < |replies| ==> P.Printable(replies[i])
  }

  lemma {:induction false} ResponsesOfAppend(a: seq<P.Reply>, b: seq<P.Reply>)
    ensures P.ResponsesOf(a + b) == P.ResponsesOf(a) + P.ResponsesOf(b)
  {
    if a == [] {
      assert a + b == b;
    } else {
      assert (a + b)[1..] == a[1..] + b;
      ResponsesOfAppend(a[1..], b);
      SameConcat(P.ResponsesFrom(a[0], 0), P.ResponsesOf(a[1..]), P.ResponsesOf(b));
    }
  }

  lemma SameConcat(a: seq<ServerResponse>, b: seq<ServerResponse>, c: seq<ServerResponse>)
    ensures a + (b + c) == a + b + c
  {
  }

  /** The session has been given, in `events`, the lines of the replies that were printed after `earlier`. */
  ghost predicate GivenAfter(cfg: Config, events: seq<Event>, threadEvents: seq<TM.Event>,
                             earlier: seq<P.Reply>, replies: seq<P.Reply>)
  {
    && TM.WholeChunks(threadEvents) && P.ReadsDigits(cfg.toInt) && AllPrintable(earlier + replies)
    && TM.Arrived(threadEvents) == Concat(P.PrintAll(earlier + replies))
    && var t := TM.After(threadEvents, cfg.toInt);
       && t.readTimers == 0
       && |P.ResponsesOf(earlier)| <= |t.emitted|
       && Responses(events) == t.emitted[|P.ResponsesOf(earlier)|..]
  }

  lemma GivenLines(cfg: Config, events: seq<Event>, threadEvents: seq<TM.Event>,
                   earlier: seq<P.Reply>, replies: seq<P.Reply>)
    requires GivenAfter(cfg, events, threadEvents, earlier, replies)
    ensures Responses(events) == P.ResponsesOf(replies)
  {
    TM.RepliesArrive(threadEvents, earlier + replies, cfg.toInt);
    ResponsesOfAppend(earlier, replies);
  }

  predicate HasResult(s: Session, i: nat, job: Job, error: nat) {
    i < |s.fates| && s.fates[i].Finished? && s.fates[i].run.job == job && s.fates[i].error == error
  }

  /**
   * End to end, from the server. Take a run of a session in which a send job with n
   * recipients has just been started, past the handshake, and after which only
   * replies come, jobs are added and start events fire; and a run of its thread in
   * which the server's replies, of one line or many, arrive as whole lines in any
   * batches and are all read. Counting the lines the server printed from then on:
   * the job is reported as successful exactly when line n + 2 that accepts comes
   * before any that refuses, as failed exactly when one that refuses comes first,
   * and is still running otherwise.
   */
  lemma ServerDecides(cfg: Config, before: seq<Event>, events: seq<Event>, threadEvents: seq<TM.Event>,
                      earlier: seq<P.Reply>, replies: seq<P.Reply>)
    requires IsRun(cfg, before + events) && Calm(events) && JustStarted(After(cfg, before))
    requires IsRun(cfg, before)
    requires GivenAfter(cfg, events, threadEvents, earlier, replies)
    ensures var start, s, lines := After(cfg, before), After(cfg, before + events), P.ResponsesOf(replies);
      var job, i := start.currentJob.value.job, |start.fates|;
      var n := |job.task.send.recipients|;
      && (HasResult(s, i, job, 0) <==> exists k :: AcceptsAt(lines, n, k))
      && (HasResult(s, i, job, USER_DEFINED_ERROR) <==> exists k :: RefusesAt(lines, n, k))
      && (s.fates == start.fates <==> NoErrorLine(lines) && Acceptances(lines) <= n + 1)
  {
    var start, lines, heard := After(cfg, before), P.ResponsesOf(replies), HeardIn(cfg, before, events);
    var run := start.currentJob.value;
    GivenLines(cfg, events, threadEvents, earlier, replies);
    HeardResponses(cfg, before, events);
    JobGoesOn(cfg, before, events);
    SentMail.RunsAreConsistent(cfg, before);
    StartedJob(cfg, start);
    VerdictByLines(run.begun.send, heard, cfg.ace);
  }

  lemma StartedJob(cfg: Config, s: Session)
    requires JustStarted(s) && SentMail.CurrentFollows(cfg, s)
    ensures SD.Started(s.currentJob.value.begun.send)
    ensures s.currentJob.value.begun.send.recipients == s.currentJob.value.job.task.send.recipients
  {
    var run := s.currentJob.value;
    assert SentMail.SendFollows(cfg, SentMail.CommandsOf(s, run.job), run, [], false);
  }

  lemma VerdictByLines(job: SD.SendState, heard: seq<Heard>, ace: string -> Bytes)
    requires SD.Started(job)
    ensures var results, lines, n := SD.Dialogue(job, heard, ace).results, RepliesOf(heard), |job.recipients|;
      && (results == [0] <==> exists k :: AcceptsAt(lines, n, k))
      && (results == [USER_DEFINED_ERROR] <==> exists k :: RefusesAt(lines, n, k))
      && (results == [] <==> NoErrorLine(lines) && Acceptances(lines) <= n + 1)
      && (results == [] || results == [0] || results == [USER_DEFINED_ERROR])
  {
    SD.Verdict(job, heard, ace);
    AcceptedCount(heard);
    forall k: nat
      ensures SD.SucceedsAt(job, heard, k) <==> AcceptsAt(RepliesOf(heard), |job.recipients|, k)
      ensures SD.FailsAt(job, heard, k) <==> RefusesAt(RepliesOf(heard), |job.recipients|, k)
    {
      LinesDecide(job, heard, k);
    }
  }
}
