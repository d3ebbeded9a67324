/**
 * What a start event makes of the first job of the queue, by what the server has
 * said up to then: when a job begins to speak, what it says, and when it fails.
 */
module JobStarts {
  import opened ByteArrays
  import opened JobEffects
  import opened SessionModel
  import opened Scheduling
  import opened ServerRecord
  import opened Addresses
  import opened Transparency
  import opened SentMail
  import SD = SendDialogue
  import LD = LoginDialogue
  import R = CommandReader

  /** A pending start event that finds a job to start. */
  predicate AtHead(cfg: Config, before: seq<Event>, start: LD.SaslStart) {
    && IsRun(cfg, before) && Enabled(After(cfg, before), Added(before), StartEvent(start))
    && var s := After(cfg, before);
       s.queue != [] && !s.jobRunning && s.state != Disconnected
  }

  /** The job is current now, as `begun`, and has sent this one line. */
  predicate Speaks(s: Session, next: Session, job: Job, begun: Task, line: Bytes) {
    && next.requests == s.requests + [Command(FromJob(job.id), line)]
    && next.fates == s.fates && next.currentJob == Some(Begin(job, begun))
    && next.crash.None?
  }

  /** The job has been decided with an error, and nothing has been sent. */
  predicate Fails(s: Session, next: Session, job: Job) {
    && next.requests == s.requests && next.currentJob.None? && next.crash.None?
    && |next.fates| == |s.fates| + 1 && next.fates[..|s.fates|] == s.fates
    && var fate := next.fates[|s.fates|];
       fate.Finished? && fate.run.job == job && fate.run.heard == [] && fate.error == USER_DEFINED_ERROR
  }

  /** What one call of a job comes to, when the job has just become current. */
  predicate OneCallMade(s: Session, next: Session, job: Job, begun: Task, effect: Effect) {
    match effect
    case Send(line) => Speaks(s, next, job, begun, line)
    case EmitResult(error) => error == USER_DEFINED_ERROR ==> Fails(s, next, job)
    case Abort(crash) => next.crash == Some(crash) && next.requests == s.requests && next.fates == s.fates
    case Authenticate => true
  }

  lemma OneCall(s: Session, current: Session, job: Job, begun: Task, effect: Effect)
    requires current.crash.None? && current.currentJob == Some(Begin(job, begun))
    requires current.requests == s.requests && current.fates == s.fates
    ensures OneCallMade(s, Perform(current, job.id, [effect]), job, begun, effect)
  {
    assert [effect][1..] == [];
    assert Perform(current, job.id, [effect]) == PerformOne(current, job.id, effect);
  }

  lemma HeadCalls(cfg: Config, before: seq<Event>, start: LD.SaslStart, effect: Effect)
    requires AtHead(cfg, before, start)
    requires var s := After(cfg, before); StartTask(cfg, s, s.queue[0].task, start).1 == [effect]
    ensures var s, next := After(cfg, before), After(cfg, before + [StartEvent(start)]);
      OneCallMade(s, next, s.queue[0], StartTask(cfg, s, s.queue[0].task, start).0, effect)
  {
    var s := After(cfg, before);
    var job, task := s.queue[0], StartTask(cfg, s, s.queue[0].task, start).0;
    var fired := s.(startEvents := s.startEvents - 1);
    var current := fired.(jobRunning := true, currentJob := Some(Begin(job, task)), queue := s.queue[1..]);
    OneMoreEvent(cfg, before, StartEvent(start));
    assert StartTask(cfg, fired, job.task, start) == StartTask(cfg, s, job.task, start);
    assert After(cfg, before + [StartEvent(start)]) == Perform(current, job.id, [effect]);
    OneCall(s, current, job, task, effect);
  }

  // ---------------------------------------------------------------------
  // Send jobs
  // ---------------------------------------------------------------------

  /** A job with this text can be sent to a server that has said these lines. */
  ghost predicate CanBeSent(cfg: Config, send: SD.SendState, text: Bytes, lines: seq<Bytes>) {
    && text != [] && send.recipients != []
    && (LastSize(cfg, lines) > 0 ==> |text| + |DotPositions(text)| <= LastSize(cfg, lines))
    && (SomeLocal(SD.AllAddresses(send)) ==> "SMTPUTF8" in lines)
  }

  /** The line is read as MAIL from the sender, with SMTPUTF8 exactly when some local part needs it. */
  ghost predicate IsMailOf(cfg: Config, send: SD.SendState, line: Bytes) {
    var sent := AddressForSmtp(SD.BareFrom(send), Analysis(SD.AllAddresses(send)), cfg.ace);
    R.ReadCommand(line) == R.Mail(sent, if SomeLocal(SD.AllAddresses(send)) then ["SMTPUTF8"] else [])
    <==> R.FitsBrackets(sent)
  }

  lemma SendStarts(cfg: Config, s: Session, send: SD.SendState, text: Bytes, lines: seq<Bytes>)
    requires Fresh(SendTask(send)) && send.data == Encode(text)
    requires s.caps.sizeLimit == LastSize(cfg, lines) && (s.caps.allowsSmtpUtf8 <==> "SMTPUTF8" in lines)
    ensures var (next, effects) := SD.Start(send, s.caps, cfg.ace);
      if CanBeSent(cfg, send, text, lines) then
        effects == [Send(SD.MailFrom(Prepared(send), cfg.ace))] && next == Prepared(send)
      else effects == [EmitResult(USER_DEFINED_ERROR)]
  {
    var (next, effects) := SD.Start(send, s.caps, cfg.ace);
    SD.MailIsSentWhen(send, text, s.caps, cfg.ace);
    EncodedSize(text);
    SomeLocalIs(SD.AllAddresses(send));
    SD.NeedsUtf8(send);
    StartsMail(send, s.caps, cfg.ace);
    if CanBeSent(cfg, send, text, lines) {
      assert effects[1..] == [] && Results(effects) == [];
    }
  }

  lemma PreparedMail(cfg: Config, send: SD.SendState)
    ensures IsMailOf(cfg, send, SD.MailFrom(Prepared(send), cfg.ace))
  {
    SD.MailIsRead(Prepared(send), cfg.ace);
    SomeLocalIs(SD.AllAddresses(send));
  }

  /**
   * In every run, when the turn of a send job comes: it sends MAIL, if it has a text
   * and a recipient, the last size limit the server has stated is not below the text
   * and one byte for each dot after a line end, and the server has said SMTPUTF8 if
   * the message needs that; otherwise it is decided with an error, having sent nothing.
   */
  lemma SendStart(cfg: Config, before: seq<Event>, start: LD.SaslStart, text: Bytes)
    requires AtHead(cfg, before, start)
    requires var task := After(cfg, before).queue[0].task; task.SendTask? && task.send.data == Encode(text)
    ensures var s, next := After(cfg, before), After(cfg, before + [StartEvent(start)]);
      var job := s.queue[0];
      var send, line := job.task.send, SD.MailFrom(Prepared(job.task.send), cfg.ace);
      if CanBeSent(cfg, send, text, Lines(cfg, before)) then
        Speaks(s, next, job, SendTask(Prepared(send)), line) && IsMailOf(cfg, send, line)
      else Fails(s, next, job)
  {
    var s := After(cfg, before);
    JobsAreDecidedInOrder(cfg, before);
    CapabilitiesAreWhatWasSaid(cfg, before);
    SendStarts(cfg, s, s.queue[0].task.send, text, Lines(cfg, before));
    PreparedMail(cfg, s.queue[0].task.send);
    HeadCalls(cfg, before, start, SD.Start(s.queue[0].task.send, s.caps, cfg.ace).1[0]);
  }

  // ---------------------------------------------------------------------
  // Logins
  // ---------------------------------------------------------------------

  lemma SameOffer(preferred: LD.AuthMode, modes: seq<Bytes>, offered: seq<Bytes>, out: Bytes,
                  base64: Bytes -> Bytes, line: Bytes)
    requires forall x :: x in modes <==> x in offered
    ensures LD.CanTake(preferred, modes) <==> LD.CanTake(preferred, offered)
    ensures LD.IsAuthOf(preferred, modes, out, base64, line) ==> LD.IsAuthOf(preferred, offered, out, base64, line)
  {
    if LD.IsAuthOf(preferred, modes, out, base64, line) {
      var name :| LD.Takes(preferred, modes, name)
        && R.ReadCommand(line) == R.Auth(name, if out == [] then None else Some(base64(out)));
      assert LD.Takes(preferred, offered, name);
    }
  }

  /** A login that has begun to speak: its AUTH line, and the mechanism it goes by. */
  ghost predicate SpeaksAuth(cfg: Config, s: Session, next: Session, job: Job, start: LD.SaslStart, offered: seq<Bytes>)
    requires job.task.LoginTask? && start.Answer?
  {
    var login := job.task.login;
    exists line ::
      && LD.IsAuthOf(login.preferred, offered, start.out, cfg.base64, line)
      && Speaks(s, next, job, LoginTask(login.(actual := LD.AuthModeFromCommand(start.mech))), line)
  }

  /**
   * In every run, when the turn of a login comes on a session that is encrypted as it
   * should be: it sends AUTH, if the server has listed its preference, LOGIN or PLAIN
   * and the library goes along, with the first of these that was listed; otherwise it
   * is decided with an error, having sent nothing. On a session that is not, it ends
   * the process.
   */
  lemma LoginStart(cfg: Config, before: seq<Event>, start: LD.SaslStart)
    requires AtHead(cfg, before, start) && After(cfg, before).queue[0].task.LoginTask?
    ensures var s, next := After(cfg, before), After(cfg, before + [StartEvent(start)]);
      var job, offered := s.queue[0], Mechanisms(Lines(cfg, before));
      if !Secured(cfg, s) then
        next.crash == Some(LoginUnencrypted) && next.requests == s.requests && next.fates == s.fates
      else if LD.CanTake(job.task.login.preferred, offered) && start.Answer? && start.ok then
        SpeaksAuth(cfg, s, next, job, start, offered)
      else Fails(s, next, job)
  {
    var s := After(cfg, before);
    var job, offered := s.queue[0], Mechanisms(Lines(cfg, before));
    var login := job.task.login;
    JobsAreDecidedInOrder(cfg, before);
    CapabilitiesAreWhatWasSaid(cfg, before);
    var effects := LD.Start(login, s.caps, Secured(cfg, s), start, cfg.base64).1;
    assert effects == [effects[0]];
    HeadCalls(cfg, before, start, effects[0]);
    if Secured(cfg, s) {
      LD.Begins(login, s.caps, start, cfg.base64);
      SameOffer(login.preferred, s.caps.authModes, offered, [], cfg.base64, []);
      if LD.CanTake(login.preferred, offered) && start.Answer? && start.ok {
        SameOffer(login.preferred, s.caps.authModes, offered, start.out, cfg.base64, effects[0].command);
      }
    }
  }
}
