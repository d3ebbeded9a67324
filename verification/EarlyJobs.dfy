/**
 * Jobs that act before the session is ready for them. doStartNext refuses only a
 * disconnected session, so a start event that is pending when a connection is made
 * starts a job in the middle of the handshake; and a job that runs then is given
 * the lines that answer the session's own EHLO.
 */
module EarlyJobs {
  import opened ByteArrays
  import opened ReplyCodes
  import opened JobEffects
  import opened SessionModel
  import opened RequestLog
  import opened Scheduling
  import opened RunRules
  import opened SentMail
  import opened Addresses
  import SD = SendDialogue
  import LD = LoginDialogue

  /** While a connection is being set up no job runs, and none is about to start. */
  predicate NothingEarly(s: Session) {
    s.state in {Ready, Handshake} ==> AtRest(s)
  }

  const LATE := Rules(false, true, false, true, true, false, false)

  lemma QuietNothingEarly(cfg: Config, s: Session, e: Event)
    requires Quiet(e) && Scheduled(s) && NothingEarly(s) && RunRules.Follows(cfg, s, e, LATE)
    ensures NothingEarly(Step(cfg, s, e))
  {
  }

  lemma DoneNothingEarly(cfg: Config, s: Session, caps: Capabilities)
    requires s.state == Handshake && AtRest(s)
    ensures NothingEarly(s.(caps := caps)) && NothingEarly(HandshakeDone(cfg, s.(caps := caps)))
    ensures HandshakeDone(cfg, s.(caps := caps)).currentJob.None?
  {
  }

  lemma HandshakeNothingEarly(cfg: Config, s: Session, r: ServerResponse)
    requires s.state == Handshake && AtRest(s)
    ensures NothingEarly(HandshakeReply(cfg, s, r)) && HandshakeReply(cfg, s, r).currentJob.None?
  {
    if !Matches(r.code, 500) && !Matches(r.code, 502) && Matches(r.code, 25) {
      DoneNothingEarly(cfg, s, Note(cfg, s.caps, r.text));
    }
  }

  /** Without a current job a reply goes no further. */
  lemma ReplyAtRest(cfg: Config, s: Session, r: ServerResponse, sasl: SaslStep)
    requires s.state in {Ready, Handshake} && AtRest(s)
    ensures NothingEarly(ResponseReceived(cfg, s, r, sasl))
  {
    if s.state == Handshake && !HandshakeFails(s, r) {
      HandshakeNothingEarly(cfg, s, r);
    }
  }

  /** In any other state a reply does not lead back to the handshake. */
  lemma ReplyStaysOut(cfg: Config, s: Session, r: ServerResponse, sasl: SaslStep)
    requires s.crash.None? && Scheduled(s) && s.state !in {Ready, Handshake}
    ensures ResponseReceived(cfg, s, r, sasl).state !in {Ready, Handshake}
  {
    if s.state != Quitting && s.currentJob.Some? {
      DeliverState(cfg, s, r, sasl);
    }
  }

  lemma DeliverState(cfg: Config, s: Session, r: ServerResponse, sasl: SaslStep)
    requires s.crash.None? && Scheduled(s)
    ensures var next := Deliver(cfg, s, r, sasl);
      next.state == s.state || next.state == Authenticated
  {
    if s.currentJob.Some? {
      var run := s.currentJob.value;
      var (task, effects) := HandleTask(cfg, s, run.task, r, sasl);
      HandleShape(cfg, s, run.task, r, sasl);
      var heard := run.heard + [Heard(r, s.caps.allowsDsn, sasl)];
      PerformIs(s.(currentJob := Some(run.(heard := heard, task := task))), run.job.id, effects);
    }
  }

  lemma StepNothingEarly(cfg: Config, s: Session, added: seq<Job>, e: Event)
    requires Invariant(s) && Enabled(s, added, e) && NothingEarly(s) && RunRules.Follows(cfg, s, e, LATE)
    ensures NothingEarly(Step(cfg, s, e))
  {
    if Quiet(e) {
      QuietNothingEarly(cfg, s, e);
    } else {
      match e
      case ConnectionLost => LostKeeps(s);
      case Reply(r, step) =>
        if s.state in {Ready, Handshake} {
          ReplyAtRest(cfg, s, r, step);
        } else {
          ReplyStaysOut(cfg, s, r, step);
        }
      case StartEvent(start) => StartStaysOut(cfg, s, start);
    }
  }

  lemma StartStaysOut(cfg: Config, s: Session, start: LD.SaslStart)
    requires s.crash.None? && Scheduled(s) && s.startEvents > 0
    ensures Step(cfg, s, StartEvent(start)).state == s.state
  {
    var fired := s.(startEvents := s.startEvents - 1);
    if s.queue != [] && !s.jobRunning && s.state != Disconnected {
      StartTakesOne(cfg, fired, start);
    }
  }

  lemma {:induction false} NothingIsEarly(cfg: Config, events: seq<Event>)
    requires RunUnder(cfg, events, LATE)
    ensures NothingEarly(After(cfg, events))
    decreases |events|
  {
    if events != [] {
      var before, last := events[..|events| - 1], events[|events| - 1];
      NothingIsEarly(cfg, before);
      JobsAreDecidedInOrder(cfg, before);
      StepNothingEarly(cfg, After(cfg, before), Added(before), last);
    }
  }

  // A run for each rule.

  lemma StartEventAtConnect(cfg: Config) returns (run: seq<Event>)
    ensures RunUnder(cfg, run, ALL_RULES.(drained := false)) && !NothingEarly(After(cfg, run))
  {
    run := LeftoverStartEvent(cfg);
    Weaken(cfg, run, ALL_RULES, ALL_RULES.(drained := false));
    run := Extend(cfg, run, Connected, ALL_RULES.(drained := false));
  }

  lemma NegotiatedBeforeStart(cfg: Config) returns (run: seq<Event>)
    ensures RunUnder(cfg, run, ALL_RULES.(still := false)) && !NothingEarly(After(cfg, run))
  {
    var rules := ALL_RULES.(still := false);
    run := ReadyIdle(cfg);
    Weaken(cfg, run, ALL_RULES, rules);
    run := Extend(cfg, run, JobAdded(LOGIN), rules);
    run := Extend(cfg, run, Negotiated(KnownProtocol(0)), rules);
  }

  /**
   * In every encryption mode: no job runs or is about to start while a connection
   * is being set up, in all runs that follow the rules in force, exactly when
   * `connects`, `drained` and `still` are.
   */
  lemma NothingEarlyIff(cfg: Config, rules: Rules)
    ensures (forall run :: RunUnder(cfg, run, rules) ==> NothingEarly(After(cfg, run)))
       <==> rules.connects && rules.drained && rules.still
  {
    if rules.connects && rules.drained && rules.still {
      forall run | RunUnder(cfg, run, rules) ensures NothingEarly(After(cfg, run)) {
        Weaken(cfg, run, rules, LATE);
        NothingIsEarly(cfg, run);
      }
    } else {
      var run := RunWithEarlyJob(cfg, rules);
      assert exists r :: RunUnder(cfg, r, rules) && !NothingEarly(After(cfg, r));
    }
  }

  lemma RunWithEarlyJob(cfg: Config, rules: Rules) returns (run: seq<Event>)
    requires !(rules.connects && rules.drained && rules.still)
    ensures RunUnder(cfg, run, rules) && !NothingEarly(After(cfg, run))
  {
    if !rules.connects {
      run := ConnectedDuringLogin(cfg);
      Weaken(cfg, run, ALL_RULES.(connects := false), rules);
    } else if !rules.drained {
      run := StartEventAtConnect(cfg);
      Weaken(cfg, run, ALL_RULES.(drained := false), rules);
    } else {
      run := NegotiatedBeforeStart(cfg);
      Weaken(cfg, run, ALL_RULES.(still := false), rules);
    }
  }

  // ---------------------------------------------------------------------
  // A message that was never sent
  // ---------------------------------------------------------------------

  /** A message to one recipient. */
  const MAILING := Job(4, SendTask(SD.NEW_SEND_JOB.(recipients := ["a"], data := "x")))

  /** A line of the server's answer to EHLO. */
  const LINE := ServerResponse(250, "x", true)

  /** The job runs in the handshake, and has been given c lines of it. */
  predicate Early(s: Session, c: nat) {
    && s.crash.None? && s.state == Handshake && s.currentJob.Some? && s.caps == NO_CAPABILITIES
    && var run := s.currentJob.value;
       && run.job == MAILING && run.begun.SendTask? && SD.Started(run.begun.send)
       && |run.begun.send.recipients| == 1
       && run.task == SendTask(SD.AfterAcceptances(run.begun.send, c))
       && forall i :: 0 <= i < |run.heard| ==> run.heard[i].reply == LINE
  }

  lemma LineIsDelivered(cfg: Config, s: Session)
    requires s.state == Handshake
    ensures ResponseReceived(cfg, s, LINE, NO_STEP) == Deliver(cfg, s, LINE, NO_STEP)
  {
    CodeRanges(250);
    assert "SIZE "[0] == 'S' && "AUTH "[0] == 'A';
    assert Note(cfg, s.caps, "x") == s.caps;
  }

  /** The first two lines are taken for the answers to MAIL and RCPT. */
  lemma LineMovesOn(cfg: Config, s: Session, c: nat)
    requires Early(s, c) && c < 2
    ensures Early(ResponseReceived(cfg, s, LINE, NO_STEP), c + 1)
    ensures ResponseReceived(cfg, s, LINE, NO_STEP).startEvents == s.startEvents
  {
    LineIsDelivered(cfg, s);
    var run, h := s.currentJob.value, Heard(LINE, false, NO_STEP);
    CodeRanges(250);
    SD.AcceptedStep(run.begun.send, run.task.send, c, h, cfg.ace);
    SD.StepIsWellFormed(run.task.send, LINE, false, cfg.ace);
    var (task, effects) := HandleTask(cfg, s, run.task, LINE, NO_STEP);
    PerformIs(s.(currentJob := Some(run.(heard := run.heard + [h], task := task))), run.job.id, effects);
  }

  /** The third for the answer to DATA. */
  lemma LineEnds(cfg: Config, s: Session)
    requires Early(s, 2)
    ensures var next := ResponseReceived(cfg, s, LINE, NO_STEP);
      && next.state == Handshake && |next.fates| == |s.fates| + 1
      && var fate := next.fates[|s.fates|];
         && fate.Finished? && fate.error == 0 && fate.run.job == MAILING
         && forall i :: 0 <= i < |fate.run.heard| ==> fate.run.heard[i].reply == LINE
  {
    LineIsDelivered(cfg, s);
    var run, h := s.currentJob.value, Heard(LINE, false, NO_STEP);
    CodeRanges(250);
    SD.LastAcceptance(run.begun.send, run.task.send, h, cfg.ace);
    SD.StepIsWellFormed(run.task.send, LINE, false, cfg.ace);
    var (task, effects) := HandleTask(cfg, s, run.task, LINE, NO_STEP);
    PerformIs(s.(currentJob := Some(run.(heard := run.heard + [h], task := task))), run.job.id, effects);
  }

  lemma MailingStarts(cfg: Config, s: Session, start: LD.SaslStart)
    requires s.crash.None? && s.state == Ready && s.queue == [MAILING] && !s.jobRunning && s.currentJob.None?
    requires s.caps == NO_CAPABILITIES && !s.ehloRejected
    ensures var next := DoStartNext(cfg, s, start);
      next.state == Ready && !next.ehloRejected && Early(next.(state := Handshake), 0)
  {
    var send := MAILING.task.send;
    assert AtSign("a") == -1;
    assert !NonAsciiLocalPart("a");
    SD.NeedsUtf8(send);
    assert SD.AllAddresses(send) == ["a"];
    SD.StartsWhen(send, s.caps, cfg.ace, false);
    StartsMail(send, s.caps, cfg.ace);
    var (task, effects) := StartTask(cfg, s, MAILING.task, start);
    assert effects[1..] == [] && s.queue[1..] == [];
    assert task.send == SD.AfterAcceptances(task.send, 0);
    PerformIs(s.(jobRunning := true, currentJob := Some(Begin(MAILING, task)), queue := []),
              MAILING.id, effects);
  }

  /** A start event that was left over starts the job as soon as there is a connection. */
  lemma MailingIsEarly(cfg: Config) returns (run: seq<Event>)
    requires cfg.mode != TLS
    ensures RunUnder(cfg, run, ALL_RULES.(drained := false)) && Early(After(cfg, run), 0)
  {
    var rules, greeting := ALL_RULES.(drained := false), ServerResponse(220, [], false);
    run := MailingWaits(cfg);
    MailingStarts(cfg, After(cfg, run).(startEvents := 0), LD.LibraryFailed);
    run := Extend(cfg, run, StartEvent(LD.LibraryFailed), rules);
    Greets(cfg, After(cfg, run), greeting);
    run := Extend(cfg, run, Reply(greeting, NO_STEP), rules);
  }

  lemma MailingWaits(cfg: Config) returns (run: seq<Event>)
    ensures RunUnder(cfg, run, ALL_RULES.(drained := false))
    ensures var s := After(cfg, run);
      && s.crash.None? && s.state == Ready && s.queue == [MAILING] && !s.jobRunning && s.currentJob.None?
      && s.caps == NO_CAPABILITIES && !s.ehloRejected && s.startEvents == 1
  {
    var rules := ALL_RULES.(drained := false);
    run := LeftoverStartEvent(cfg);
    Weaken(cfg, run, ALL_RULES, rules);
    assert Ids([SENDING]) == [2];
    run := Extend(cfg, run, JobAdded(MAILING), rules);
    run := Extend(cfg, run, Connected, rules);
  }

  /** A line of the greeting's answer, under the rules. */
  lemma HearLine(cfg: Config, before: seq<Event>, c: nat) returns (run: seq<Event>)
    requires cfg.mode != TLS && c < 2
    requires RunUnder(cfg, before, ALL_RULES.(drained := false)) && Early(After(cfg, before), c)
    ensures RunUnder(cfg, run, ALL_RULES.(drained := false)) && Early(After(cfg, run), c + 1)
  {
    LineMovesOn(cfg, After(cfg, before), c);
    run := Extend(cfg, before, Reply(LINE, NO_STEP), ALL_RULES.(drained := false));
  }

  /**
   * With all rules but `drained` kept, without encryption or with STARTTLS: a run in
   * which a send job is reported as successful on three lines of the server's answer
   * to EHLO, still in the handshake, and has sent MAIL, RCPT and DATA but not its text.
   */
  lemma SuccessOnEhlo(cfg: Config) returns (run: seq<Event>, i: nat)
    requires cfg.mode != TLS
    ensures RunUnder(cfg, run, ALL_RULES.(drained := false))
    ensures var s := After(cfg, run);
      && s.state == Handshake && i < |s.fates|
      && var fate, job := s.fates[i], Prepared(MAILING.task.send);
         && fate.Finished? && fate.error == 0 && fate.run.job == MAILING
         && (forall k :: 0 <= k < |fate.run.heard| ==> fate.run.heard[k].reply == LINE)
         && |CommandsOf(s, MAILING)| == 3
         && CommandsOf(s, MAILING)[0] == SD.MailFrom(job, cfg.ace) && CommandsOf(s, MAILING)[2] == "DATA"
  {
    run := MailingIsEarly(cfg);
    run := HearLine(cfg, run, 0);
    run := HearLine(cfg, run, 1);
    LineEnds(cfg, After(cfg, run));
    i := |After(cfg, run).fates|;
    run := Extend(cfg, run, Reply(LINE, NO_STEP), ALL_RULES.(drained := false));
    var k := SuccessfulSendJob(cfg, run, i);
    NoText(cfg, After(cfg, run), i, k);
  }

  lemma NoText(cfg: Config, s: Session, i: nat, k: nat)
    requires i < |s.fates| && s.fates[i].Finished? && s.fates[i].run.job == MAILING
    requires var heard, job := s.fates[i].run.heard, Prepared(MAILING.task.send);
      && (forall j :: 0 <= j < |heard| ==> heard[j].reply == LINE)
      && SD.SucceedsAt(job, heard, k)
      && CommandsOf(s, MAILING)
         == [SD.MailFrom(job, cfg.ace)]
            + (SD.RcptCommands(job, SD.Accepted(heard[..k]), |job.recipients|, cfg.ace) + ["DATA"]
               + SD.Bodies(job, SD.GoAheads(heard[..k], |job.recipients| + 1)))
    ensures var commands := CommandsOf(s, MAILING);
      |commands| == 3 && commands[0] == SD.MailFrom(Prepared(MAILING.task.send), cfg.ace) && commands[2] == "DATA"
  {
    var heard, job := s.fates[i].run.heard, Prepared(MAILING.task.send);
    CodeRanges(250);
    SD.NoGoAheadsIff(heard[..k], 2);
    OneRecipient(job, SD.Accepted(heard[..k]), cfg.ace);
  }

  lemma OneRecipient(job: SD.SendState, accepted: seq<Heard>, ace: string -> Bytes)
    requires |job.recipients| == 1 && |accepted| >= 1
    ensures |SD.RcptCommands(job, accepted, 1, ace)| == 1
  {
    assert |SD.RcptCommands(job, accepted, 0, ace)| == 0;
  }
}
