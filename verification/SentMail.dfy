/**
 * The session and its jobs together: what a run of the session has sent in the
 * name of each of its jobs, and what that has to do with the job's result.
 */
module SentMail {
  import opened ByteArrays
  import opened ReplyCodes
  import opened JobEffects
  import opened SessionModel
  import opened RequestLog
  import opened Scheduling
  import opened Handshakes
  import opened Addresses
  import opened SD = SendDialogue
  import LD = LoginDialogue
  import R = CommandReader

  /** A successful doStart only prepares the recipients and decides the encoding. */
  function Prepared(job: SendState): SendState {
    job.(recipientsCopy := job.recipients, encoding := Analysis(AllAddresses(job)), status := SendingReturnPath)
  }

  /** A send job that has been started: `results` and the commands sent in its name are those of its dialogue. */
  predicate SendFollows(cfg: Config, commands: seq<Bytes>, run: Running, results: seq<nat>, lost: bool)
    requires run.job.task.SendTask?
  {
    && run.started && run.begun == SendTask(Prepared(run.job.task.send)) && Started(run.begun.send)
    && var outcome := Dialogue(run.begun.send, run.heard, cfg.ace);
       && outcome.results == results
       && run.task == Told(SendTask(outcome.job), lost)
       && commands == [MailFrom(run.begun.send, cfg.ace)] + outcome.commands
  }

  /** The AUTH line of a login, whatever the library has put into it. */
  ghost predicate IsAuthLine(cfg: Config, login: LD.LoginState, line: Bytes) {
    exists mode, out :: mode in {login.preferred, LD.Login, LD.Plain} && line == LD.AuthLine(mode, out, cfg.base64)
  }

  /** The same of a login: an AUTH line, then the commands of its dialogue. */
  ghost predicate LoginFollows(cfg: Config, commands: seq<Bytes>, run: Running, results: seq<nat>, lost: bool)
    requires run.job.task.LoginTask?
  {
    var login := run.job.task.login;
    && run.started && run.begun.LoginTask? && login.error == 0
    && run.begun.login == login.(actual := run.begun.login.actual)
    && commands != [] && IsAuthLine(cfg, login, commands[0])
    && var outcome := LD.Dialogue(run.begun.login, run.heard, cfg.base64);
       && outcome.results == results
       && run.task == Told(LoginTask(outcome.job), lost)
       && commands[1..] == outcome.commands
  }

  /** A job that is told of a lost connection notes the error. */
  function Told(task: Task, lost: bool): Task {
    if lost then TaskFailed(task) else task
  }

  ghost predicate Follows(cfg: Config, commands: seq<Bytes>, run: Running, results: seq<nat>, lost: bool) {
    match run.job.task
    case SendTask(_) => SendFollows(cfg, commands, run, results, lost)
    case LoginTask(_) => LoginFollows(cfg, commands, run, results, lost)
  }

  /** A job whose turn never came, or whose doStart failed: it has sent nothing and heard nothing. */
  predicate NeverBegan(commands: seq<Bytes>, run: Running) {
    && commands == [] && run.heard == []
    && match run.job.task
       case SendTask(_) => run.begun.SendTask? && run.begun.send.status == Idle
       case LoginTask(_) => run.begun == run.job.task || (run.begun.LoginTask? && run.begun.login.error != 0)
  }

  /**
   * What was sent in a decided job's name, and its result: a dialogue that came to
   * that result, one that was cut short by a lost connection, or nothing.
   */
  ghost predicate FateFollows(cfg: Config, commands: seq<Bytes>, fate: Fate) {
    match fate
    case Dropped(_) => commands == []
    case Finished(run, error) =>
      || Follows(cfg, commands, run, [error], false)
      || (error == USER_DEFINED_ERROR && Follows(cfg, commands, run, [], true))
      || (error == USER_DEFINED_ERROR && NeverBegan(commands, run))
  }

  function CommandsOf(s: Session, job: Job): seq<Bytes> {
    CommandsBy(s.requests, FromJob(job.id))
  }

  ghost predicate CurrentFollows(cfg: Config, s: Session) {
    s.currentJob.Some? ==> Follows(cfg, CommandsOf(s, s.currentJob.value.job), s.currentJob.value, [], false)
  }

  ghost predicate FatesFollow(cfg: Config, s: Session) {
    forall i :: 0 <= i < |s.fates| ==> FateFollows(cfg, CommandsOf(s, JobOf(s.fates[i])), s.fates[i])
  }

  /** Nothing has been sent in the name of a job that has not been started. */
  ghost predicate OnlyStartedJobsSend(s: Session) {
    forall id: nat :: CommandsBy(s.requests, FromJob(id)) != [] ==> id in Ids(Decided(s.fates) + CurrentJob(s))
  }

  ghost predicate Consistent(cfg: Config, s: Session) {
    && (s.crash.None? ==> CurrentFollows(cfg, s))
    && FatesFollow(cfg, s)
    && OnlyStartedJobsSend(s)
  }

  // ---------------------------------------------------------------------
  // Steps that send nothing for any job
  // ---------------------------------------------------------------------

  /** The jobs see no difference. */
  ghost predicate SameForJobs(s: Session, next: Session) {
    && next.fates == s.fates && next.currentJob == s.currentJob
    && (forall id: nat :: CommandsBy(next.requests, FromJob(id)) == CommandsBy(s.requests, FromJob(id)))
  }

  lemma SameKeeps(cfg: Config, s: Session, next: Session)
    requires Consistent(cfg, s) && SameForJobs(s, next) && s.crash.None?
    ensures Consistent(cfg, next)
  {
    forall i | 0 <= i < |next.fates| ensures FateFollows(cfg, CommandsOf(next, JobOf(next.fates[i])), next.fates[i]) {
      assert FateFollows(cfg, CommandsOf(s, JobOf(s.fates[i])), s.fates[i]);
    }
  }

  lemma PostIsSame(s: Session, request: Request)
    requires request.Command? ==> request.origin == FromSession
    ensures SameForJobs(s, Post(s, request))
  {
    forall id: nat ensures CommandsBy(Post(s, request).requests, FromJob(id)) == CommandsBy(s.requests, FromJob(id)) {
      OneMore(s.requests, request, FromJob(id));
    }
  }

  // ---------------------------------------------------------------------
  // Steps of a job
  // ---------------------------------------------------------------------

  /** What happens to the log and the fates when job `id` makes its calls. */
  lemma PerformLog(s: Session, id: nat, effects: seq<Effect>)
    requires IsCurrent(s, id) && WellFormed(effects)
    ensures var next := Perform(s, id, effects);
      && next.crash.None?
      && (forall other: nat :: CommandsBy(next.requests, FromJob(other))
            == CommandsBy(s.requests, FromJob(other)) + if other == id then Commands(effects) else [])
      && (Results(effects) == [] ==> next.fates == s.fates && next.currentJob == s.currentJob)
      && (Results(effects) != [] ==>
           next.fates == s.fates + [Finished(s.currentJob.value, Results(effects)[0])] && next.currentJob.None?)
  {
    PerformIs(s, id, effects);
    forall other: nat
      ensures CommandsBy(Perform(s, id, effects).requests, FromJob(other))
           == CommandsBy(s.requests, FromJob(other)) + if other == id then Commands(effects) else []
    {
      JobSends(s.requests, id, Commands(effects), FromJob(other));
    }
  }

  /** The other jobs' records stand, whatever the current job sends. */
  lemma PerformKeepsFates(cfg: Config, s: Session, id: nat, effects: seq<Effect>)
    requires IsCurrent(s, id) && WellFormed(effects) && FatesFollow(cfg, s)
    requires id !in Ids(Decided(s.fates))
    ensures var next := Perform(s, id, effects);
      forall i :: 0 <= i < |s.fates| ==> FateFollows(cfg, CommandsOf(next, JobOf(s.fates[i])), s.fates[i])
  {
    var next := Perform(s, id, effects);
    PerformLog(s, id, effects);
    forall i | 0 <= i < |s.fates| ensures FateFollows(cfg, CommandsOf(next, JobOf(s.fates[i])), s.fates[i]) {
      assert FateFollows(cfg, CommandsOf(s, JobOf(s.fates[i])), s.fates[i]);
      assert Ids(Decided(s.fates))[i] == JobOf(s.fates[i]).id;
    }
  }

  lemma IdsAppend(a: seq<Job>, b: seq<Job>)
    ensures Ids(a + b) == Ids(a) + Ids(b)
  {
  }

  /** The current job's record after a step that gives these results. */
  ghost predicate StepFollows(cfg: Config, s: Session, commands: seq<Bytes>, results: seq<nat>)
    requires s.currentJob.Some?
  {
    if results == [] then Follows(cfg, commands, s.currentJob.value, [], false)
    else FateFollows(cfg, commands, Finished(s.currentJob.value, results[0]))
  }

  /**
   * A step of the current job, from a session `s` in which it has just become
   * current or has just heard a reply.
   */
  lemma JobStepKeeps(cfg: Config, s: Session, id: nat, effects: seq<Effect>)
    requires IsCurrent(s, id) && WellFormed(effects) && FatesFollow(cfg, s) && OnlyStartedJobsSend(s)
    requires id !in Ids(Decided(s.fates))
    requires StepFollows(cfg, s, CommandsBy(Perform(s, id, effects).requests, FromJob(id)), Results(effects))
    ensures Consistent(cfg, Perform(s, id, effects))
  {
    var next := Perform(s, id, effects);
    PerformLog(s, id, effects);
    PerformKeepsFates(cfg, s, id, effects);
    if Results(effects) != [] {
      DecidedMore(s.fates, [Finished(s.currentJob.value, Results(effects)[0])]);
      assert Decided(next.fates) + CurrentJob(next) == Decided(s.fates) + CurrentJob(s);
    }
    IdsAppend(Decided(s.fates), CurrentJob(s));
    assert Ids(CurrentJob(s)) == [id];
    forall other: nat | CommandsBy(next.requests, FromJob(other)) != []
      ensures other in Ids(Decided(next.fates) + CurrentJob(next))
    {
      if other != id {
        assert CommandsBy(s.requests, FromJob(other)) != [];
      }
    }
  }

  // ---------------------------------------------------------------------
  // The events in which jobs act
  // ---------------------------------------------------------------------

  /** Of the jobs known, none has the number of another. */
  predicate Numbered(s: Session) {
    Distinct(Ids(Jobs(s)))
  }

  lemma CurrentIsNotDecided(s: Session)
    requires Numbered(s)
    ensures s.currentJob.Some? ==> s.currentJob.value.job.id !in Ids(Decided(s.fates))
    ensures s.queue != [] ==> s.queue[0].id !in Ids(Decided(s.fates) + CurrentJob(s))
  {
    var all, known := Jobs(s), Decided(s.fates) + CurrentJob(s);
    IdsAppend(known, s.queue);
    IdsAppend(Decided(s.fates), CurrentJob(s));
    if s.queue != [] {
      assert Ids(all)[|known|] == s.queue[0].id;
      forall i | 0 <= i < |known| ensures Ids(known)[i] != s.queue[0].id {
        assert Ids(all)[i] == Ids(known)[i];
      }
    }
    if s.currentJob.Some? {
      assert Ids(all)[|s.fates|] == s.currentJob.value.job.id;
      forall i | 0 <= i < |s.fates| ensures Ids(Decided(s.fates))[i] != s.currentJob.value.job.id {
        assert Ids(all)[i] == Ids(Decided(s.fates))[i];
      }
    }
  }

  lemma StartsMail(send: SendState, caps: Capabilities, ace: string -> Bytes)
    requires send.error == 0 && send.status == Idle
    ensures var (next, effects) := SD.Start(send, caps, ace);
      if Results(effects) == [] then
        && next == Prepared(send) && Started(next)
        && Dialogue(next, [], ace) == Outcome(next, [], [])
        && Commands(effects) == [MailFrom(next, ace)]
      else Results(effects) == [USER_DEFINED_ERROR] && Commands(effects) == [] && next.status == Idle
  {
    var (next, effects) := SD.Start(send, caps, ace);
    assert effects[1..] == [];
  }

  lemma StartsAuth(cfg: Config, login: LD.LoginState, caps: Capabilities, sasl: LD.SaslStart)
    requires login.error == 0 && login.preferred != LD.UnknownAuth
    ensures var (next, effects) := LD.Start(login, caps, true, sasl, cfg.base64);
      if Results(effects) == [] then
        && next == login.(actual := next.actual)
        && |Commands(effects)| == 1 && IsAuthLine(cfg, login, Commands(effects)[0])
        && LD.Dialogue(next, [], cfg.base64) == LD.Outcome(next, [], [])
      else Results(effects) == [USER_DEFINED_ERROR] && Commands(effects) == [] && next.error != 0
  {
    var (next, effects) := LD.Start(login, caps, true, sasl, cfg.base64);
    var mode := LD.Selection(login.preferred, caps.authModes);
    assert effects[1..] == [];
    if Results(effects) == [] {
      assert mode in {login.preferred, LD.Login, LD.Plain};
      assert Commands(effects) == [LD.AuthLine(mode, sasl.out, cfg.base64)];
    }
  }

  /** The first job of the queue, just made current. */
  function MadeCurrent(s: Session, task: Task): Session
    requires s.queue != []
  {
    s.(jobRunning := true, currentJob := Some(Begin(s.queue[0], task)), queue := s.queue[1..])
  }

  lemma HeadHasSentNothing(s: Session, task: Task)
    requires s.queue != [] && s.currentJob.None? && OnlyStartedJobsSend(s) && Numbered(s)
    ensures var id := s.queue[0].id;
      && id !in Ids(Decided(s.fates))
      && CommandsBy(s.requests, FromJob(id)) == []
      && OnlyStartedJobsSend(MadeCurrent(s, task))
  {
    CurrentIsNotDecided(s);
    assert Decided(s.fates) + [] == Decided(s.fates);
    IdsAppend(Decided(s.fates), [s.queue[0]]);
  }

  /** The record of a job that has just been started. */
  lemma StartFollows(cfg: Config, s: Session, sasl: LD.SaslStart)
    requires s.queue != [] && Fresh(s.queue[0].task) && (s.queue[0].task.LoginTask? ==> Secured(cfg, s))
    ensures var (task, effects) := StartTask(cfg, s, s.queue[0].task, sasl);
      StepFollows(cfg, MadeCurrent(s, task), Commands(effects), Results(effects))
  {
    match s.queue[0].task
    case SendTask(send) => StartsMail(send, s.caps, cfg.ace);
    case LoginTask(login) => StartsAuth(cfg, login, s.caps, sasl);
  }

  lemma StartConsistent(cfg: Config, s: Session, sasl: LD.SaslStart)
    requires s.crash.None? && Scheduled(s.(startEvents := s.startEvents + 1))
    requires Consistent(cfg, s) && Numbered(s)
    ensures Consistent(cfg, DoStartNext(cfg, s, sasl))
  {
    if s.queue != [] && !s.jobRunning && s.state != Disconnected {
      var job := s.queue[0];
      var (task, effects) := StartTask(cfg, s, job.task, sasl);
      StartShape(cfg, s, job.task, sasl);
      HeadHasSentNothing(s, task);
      if effects == [Abort(LoginUnencrypted)] {
        assert effects[1..] == [];
      } else {
        StartFollows(cfg, s, sasl);
        FirstStepKeeps(cfg, s, task, effects);
      }
    }
  }

  lemma FirstStepKeeps(cfg: Config, s: Session, task: Task, effects: seq<Effect>)
    requires s.crash.None? && s.queue != [] && WellFormed(effects) && FatesFollow(cfg, s)
    requires OnlyStartedJobsSend(MadeCurrent(s, task))
    requires var id := s.queue[0].id; id !in Ids(Decided(s.fates)) && CommandsBy(s.requests, FromJob(id)) == []
    requires StepFollows(cfg, MadeCurrent(s, task), Commands(effects), Results(effects))
    ensures Consistent(cfg, Perform(MadeCurrent(s, task), s.queue[0].id, effects))
  {
    FirstCommands(MadeCurrent(s, task), s.queue[0].id, effects);
    JobStepKeeps(cfg, MadeCurrent(s, task), s.queue[0].id, effects);
  }

  /** A job that has sent nothing yet has then sent the commands of this step. */
  lemma FirstCommands(s: Session, id: nat, effects: seq<Effect>)
    requires IsCurrent(s, id) && WellFormed(effects) && CommandsBy(s.requests, FromJob(id)) == []
    ensures CommandsBy(Perform(s, id, effects).requests, FromJob(id)) == Commands(effects)
  {
    PerformLog(s, id, effects);
    assert [] + Commands(effects) == Commands(effects);
  }

  /** The session whose current job has heard one more reply. */
  function Hearing(s: Session, h: Heard, task: Task): Session
    requires s.currentJob.Some?
  {
    var run := s.currentJob.value;
    s.(currentJob := Some(run.(heard := run.heard + [h], task := task)))
  }

  lemma AppendInTurn(a: seq<Bytes>, b: seq<Bytes>, c: seq<Bytes>)
    ensures a + b + c == a + (b + c)
  {
  }

  /** One more reply is one more step of the job's dialogue. */
  lemma SendGoesOn(cfg: Config, s: Session, commands: seq<Bytes>, h: Heard)
    requires s.currentJob.Some? && s.currentJob.value.job.task.SendTask?
    requires SendFollows(cfg, commands, s.currentJob.value, [], false)
    ensures s.currentJob.value.task.SendTask?
    ensures var (task, effects) := SD.Handle(s.currentJob.value.task.send, h.reply, h.allowsDsn, cfg.ace);
      SendFollows(cfg, commands + Commands(effects), Hearing(s, h, SendTask(task)).currentJob.value,
                  Results(effects), false)
  {
    var run := s.currentJob.value;
    var before := Dialogue(run.begun.send, run.heard, cfg.ace);
    var effects := SD.Handle(before.job, h.reply, h.allowsDsn, cfg.ace).1;
    HeardOneMore(run.begun.send, run.heard, h, cfg.ace);
    AppendInTurn([MailFrom(run.begun.send, cfg.ace)], before.commands, Commands(effects));
  }

  lemma LoginGoesOn(cfg: Config, s: Session, commands: seq<Bytes>, h: Heard)
    requires s.currentJob.Some? && s.currentJob.value.job.task.LoginTask?
    requires LoginFollows(cfg, commands, s.currentJob.value, [], false)
    ensures s.currentJob.value.task.LoginTask?
    ensures var (task, effects) := LD.Handle(s.currentJob.value.task.login, h.reply, h.step, cfg.base64);
      LoginFollows(cfg, commands + Commands(effects), Hearing(s, h, LoginTask(task)).currentJob.value,
                   Results(effects), false)
  {
    var run := s.currentJob.value;
    var before := LD.Dialogue(run.begun.login, run.heard, cfg.base64);
    assert run.task == LoginTask(before.job);
    var (task, effects) := LD.Handle(before.job, h.reply, h.step, cfg.base64);
    LD.HeardOneMore(run.begun.login, run.heard, h, cfg.base64);
    MoreCommands(commands, Commands(effects));
    LoginFollowsOn(cfg, commands, run, run.(heard := run.heard + [h], task := LoginTask(task)),
                   commands + Commands(effects), Results(effects));
  }

  lemma MoreCommands(commands: seq<Bytes>, more: seq<Bytes>)
    requires commands != []
    ensures (commands + more)[1..] == commands[1..] + more && (commands + more)[0] == commands[0]
  {
  }

  lemma LoginFollowsOn(cfg: Config, commands: seq<Bytes>, run: Running, next: Running,
                       all: seq<Bytes>, results: seq<nat>)
    requires run.job.task.LoginTask? && LoginFollows(cfg, commands, run, [], false)
    requires next.job == run.job && next.begun == run.begun && next.started == run.started
    requires all != [] && all[0] == commands[0]
    requires next.task.LoginTask?
    requires LD.Dialogue(run.begun.login, next.heard, cfg.base64) == LD.Outcome(next.task.login, all[1..], results)
    ensures LoginFollows(cfg, all, next, results, false)
  {
  }

  lemma DeliverFollows(cfg: Config, s: Session, r: ServerResponse, sasl: SaslStep)
    requires s.currentJob.Some? && LiveTask(s.currentJob.value.task) && CurrentFollows(cfg, s)
    ensures var run, h := s.currentJob.value, Heard(r, s.caps.allowsDsn, sasl);
      var (task, effects) := HandleTask(cfg, s, run.task, r, sasl);
      StepFollows(cfg, Hearing(s, h, task), CommandsOf(s, run.job) + Commands(effects), Results(effects))
  {
    var run, h := s.currentJob.value, Heard(r, s.caps.allowsDsn, sasl);
    var (task, effects) := HandleTask(cfg, s, run.task, r, sasl);
    HandleShape(cfg, s, run.task, r, sasl);
    AtMostOneResult(effects);
    match run.job.task
    case SendTask(_) => SendGoesOn(cfg, s, CommandsOf(s, run.job), h);
    case LoginTask(_) => LoginGoesOn(cfg, s, CommandsOf(s, run.job), h);
    assert Results(effects) != [] ==> Results(effects) == [Results(effects)[0]];
  }

  lemma DeliverConsistent(cfg: Config, s: Session, r: ServerResponse, sasl: SaslStep)
    requires s.crash.None? && Scheduled(s) && Consistent(cfg, s) && Numbered(s)
    ensures Consistent(cfg, Deliver(cfg, s, r, sasl))
  {
    if s.currentJob.Some? {
      var run, h := s.currentJob.value, Heard(r, s.caps.allowsDsn, sasl);
      var (task, effects) := HandleTask(cfg, s, run.task, r, sasl);
      HandleShape(cfg, s, run.task, r, sasl);
      CurrentIsNotDecided(s);
      DeliverFollows(cfg, s, r, sasl);
      HearingKeeps(cfg, s, h, task);
      PerformLog(Hearing(s, h, task), run.job.id, effects);
      JobStepKeeps(cfg, Hearing(s, h, task), run.job.id, effects);
    }
  }

  /** Hearing a reply as such changes no record. */
  lemma HearingKeeps(cfg: Config, s: Session, h: Heard, task: Task)
    requires s.currentJob.Some? && FatesFollow(cfg, s) && OnlyStartedJobsSend(s)
    ensures FatesFollow(cfg, Hearing(s, h, task)) && OnlyStartedJobsSend(Hearing(s, h, task))
  {
    var hearing := Hearing(s, h, task);
    assert CurrentJob(hearing) == CurrentJob(s);
    forall i | 0 <= i < |hearing.fates|
      ensures FateFollows(cfg, CommandsOf(hearing, JobOf(hearing.fates[i])), hearing.fates[i])
    {
      assert FateFollows(cfg, CommandsOf(s, JobOf(s.fates[i])), s.fates[i]);
    }
  }

  lemma {:induction false} AtMostOneResult(effects: seq<Effect>)
    requires WellFormed(effects)
    ensures |Results(effects)| <= 1
    decreases |effects|
  {
    if effects != [] {
      WellFormedRest(effects);
      AtMostOneResult(effects[1..]);
    }
  }

  /** The current job, once it has been told that the connection is lost. */
  function Failing(s: Session): Session
    requires s.currentJob.Some?
  {
    var run := s.currentJob.value;
    s.(currentJob := Some(run.(task := TaskFailed(run.task))))
  }

  lemma LoseConsistent(cfg: Config, s: Session)
    requires s.crash.None? && s.currentJob.Some? && FatesFollow(cfg, s) && OnlyStartedJobsSend(s) && Numbered(s)
    requires var commands, run := CommandsOf(s, s.currentJob.value.job), s.currentJob.value;
      Follows(cfg, commands, run, [], false) || NeverBegan(commands, run)
    ensures Consistent(cfg, LoseCurrentJob(s))
  {
    var run, effects := s.currentJob.value, [EmitResult(USER_DEFINED_ERROR)];
    OneResult(USER_DEFINED_ERROR);
    assert effects[1..] == [];
    CurrentIsNotDecided(s);
    LossFollows(cfg, s);
    FailingKeeps(cfg, s);
    PerformLog(Failing(s), run.job.id, effects);
    assert CommandsOf(s, run.job) + [] == CommandsOf(s, run.job);
    JobStepKeeps(cfg, Failing(s), run.job.id, effects);
  }

  lemma LossFollows(cfg: Config, s: Session)
    requires s.currentJob.Some?
    requires var commands, run := CommandsOf(s, s.currentJob.value.job), s.currentJob.value;
      Follows(cfg, commands, run, [], false) || NeverBegan(commands, run)
    ensures StepFollows(cfg, Failing(s), CommandsOf(s, s.currentJob.value.job), [USER_DEFINED_ERROR])
  {
    var commands, run := CommandsOf(s, s.currentJob.value.job), s.currentJob.value;
    var failed := Failing(s).currentJob.value;
    if Follows(cfg, commands, run, [], false) {
      assert Follows(cfg, commands, failed, [], true);
    } else {
      assert NeverBegan(commands, failed);
    }
  }

  lemma FailingKeeps(cfg: Config, s: Session)
    requires s.currentJob.Some? && FatesFollow(cfg, s) && OnlyStartedJobsSend(s)
    ensures FatesFollow(cfg, Failing(s)) && OnlyStartedJobsSend(Failing(s))
  {
    var failing := Failing(s);
    assert CurrentJob(failing) == CurrentJob(s);
    forall i | 0 <= i < |failing.fates|
      ensures FateFollows(cfg, CommandsOf(failing, JobOf(failing.fates[i])), failing.fates[i])
    {
      assert FateFollows(cfg, CommandsOf(s, JobOf(s.fates[i])), s.fates[i]);
    }
  }

  /** The first job of the queue is told of the loss without having been started. */
  lemma HeadConsistent(cfg: Config, s: Session)
    requires s.crash.None? && s.currentJob.None? && s.queue != [] && Fresh(s.queue[0].task)
    requires Consistent(cfg, s) && Numbered(s)
    ensures Consistent(cfg, LoseCurrentJob(HeadTaken(s)))
  {
    var head, taken := s.queue[0], HeadTaken(s);
    TakeKeeps(s);
    HeadHasSentNothing(s, head.task);
    assert NeverBegan(CommandsOf(taken, head), taken.currentJob.value);
    assert FatesFollow(cfg, taken) by {
      forall i | 0 <= i < |taken.fates|
        ensures FateFollows(cfg, CommandsOf(taken, JobOf(taken.fates[i])), taken.fates[i])
      {
        assert FateFollows(cfg, CommandsOf(s, JobOf(s.fates[i])), s.fates[i]);
      }
    }
    assert OnlyStartedJobsSend(taken) by {
      assert CurrentJob(taken) == CurrentJob(MadeCurrent(s, head.task));
      assert forall id: nat :: CommandsBy(taken.requests, FromJob(id)) != [] ==>
        CommandsBy(MadeCurrent(s, head.task).requests, FromJob(id)) != [];
    }
    LoseConsistent(cfg, taken);
  }

  lemma LossConsistent(cfg: Config, s: Session)
    requires s.crash.None? && Scheduled(s) && Consistent(cfg, s) && Numbered(s)
    ensures Consistent(cfg, SocketDisconnected(s))
  {
    var closed := Post(s.(state := Disconnected), CloseSocket);
    PostIsSame(s.(state := Disconnected), CloseSocket);
    SameKeeps(cfg, s, closed);
    assert Jobs(closed) == Jobs(s);
    if closed.currentJob.Some? {
      LoseConsistent(cfg, closed);
    } else if closed.queue != [] {
      HeadConsistent(cfg, closed);
    }
    LossKeeps(s);
    DroppingKeeps(cfg, AfterLoss(s));
  }

  /** The jobs that wait have sent nothing. */
  lemma WaitingHasSentNothing(s: Session, j: nat)
    requires j < |s.queue| && s.currentJob.None? && OnlyStartedJobsSend(s) && Numbered(s)
    ensures CommandsOf(s, s.queue[j]) == []
  {
    var known, id := Decided(s.fates), s.queue[j].id;
    assert known + [] == known;
    IdsAppend(known, s.queue);
    forall i | 0 <= i < |known| ensures Ids(known)[i] != id {
      assert Ids(Jobs(s))[i] == Ids(known)[i] && Ids(Jobs(s))[|known| + j] == id;
    }
  }

  lemma DroppingKeeps(cfg: Config, s: Session)
    requires Consistent(cfg, s) && s.crash.None? && s.currentJob.None? && Numbered(s)
    ensures Consistent(cfg, s.(fates := s.fates + AllDropped(s.queue), queue := []))
  {
    var next := s.(fates := s.fates + AllDropped(s.queue), queue := []);
    forall i | 0 <= i < |next.fates|
      ensures FateFollows(cfg, CommandsOf(next, JobOf(next.fates[i])), next.fates[i])
    {
      if i < |s.fates| {
        assert FateFollows(cfg, CommandsOf(s, JobOf(s.fates[i])), s.fates[i]);
      } else {
        WaitingHasSentNothing(s, i - |s.fates|);
      }
    }
    DroppingSends(s, next);
  }

  lemma DroppingSends(s: Session, next: Session)
    requires OnlyStartedJobsSend(s) && s.currentJob.None?
    requires next == s.(fates := s.fates + AllDropped(s.queue), queue := [])
    ensures OnlyStartedJobsSend(next)
  {
    DecidedMore(s.fates, AllDropped(s.queue));
    IdsAppend(Decided(s.fates), Decided(AllDropped(s.queue)));
    assert Decided(s.fates) + [] == Decided(s.fates) && Decided(next.fates) + [] == Decided(next.fates);
    forall id: nat | CommandsBy(next.requests, FromJob(id)) != []
      ensures id in Ids(Decided(next.fates) + CurrentJob(next))
    {
      assert id in Ids(Decided(s.fates) + CurrentJob(s));
    }
  }

  // ---------------------------------------------------------------------
  // Every event and every run
  // ---------------------------------------------------------------------

  lemma HandshakeIsSame(cfg: Config, s: Session, r: ServerResponse)
    requires s.state == Handshake
    ensures SameForJobs(s, HandshakeReply(cfg, s, r))
  {
    if !Rejects(s, r) && Matches(r.code, 25) {
      NotedIsSame(cfg, s, Note(cfg, s.caps, r.text));
    } else {
      PostIsSame(s, StartSsl);
    }
  }

  lemma NotedIsSame(cfg: Config, s: Session, caps: Capabilities)
    requires s.state == Handshake
    ensures SameForJobs(s, s.(caps := caps)) && SameForJobs(s, HandshakeDone(cfg, s.(caps := caps)))
  {
    PostIsSame(s, Command(FromSession, "STARTTLS"));
    PostIsSame(s, Command(FromSession, "QUIT"));
  }

  lemma ReplyConsistent(cfg: Config, s: Session, r: ServerResponse, sasl: SaslStep)
    requires s.crash.None? && Scheduled(s) && Consistent(cfg, s) && Numbered(s)
    ensures Consistent(cfg, ResponseReceived(cfg, s, r, sasl))
  {
    if s.state == Quitting {
      PostIsSame(s, CloseSocket);
      SameKeeps(cfg, s, Post(s, CloseSocket));
    } else if HandshakeFails(s, r) {
      PostIsSame(s, Command(FromSession, "QUIT"));
      SameKeeps(cfg, s, Quit(s));
    } else {
      var next := s;
      if s.state == Handshake {
        next := HandshakeReply(cfg, s, r);
        HandshakeIsSame(cfg, s, r);
        HandshakeReplyKeeps(cfg, s, r);
        SameKeeps(cfg, s, next);
      }
      if next.state == Ready && (Matches(r.code, 22) || next.ehloRejected) {
        PostIsSame(next, Command(FromSession, Greeting(cfg, next.ehloRejected)));
        SameKeeps(cfg, next, StartHandshake(cfg, next));
      } else {
        DeliverConsistent(cfg, next, r, sasl);
      }
    }
  }

  lemma StepConsistent(cfg: Config, s: Session, added: seq<Job>, e: Event)
    requires Invariant(s) && Enabled(s, added, e) && Consistent(cfg, s) && Numbered(s)
    ensures Consistent(cfg, Step(cfg, s, e))
  {
    if Quiet(e) {
      QuietConsistent(cfg, s, e);
    } else {
      ActingConsistent(cfg, s, e);
    }
  }

  /** The events in which jobs act. */
  lemma ActingConsistent(cfg: Config, s: Session, e: Event)
    requires !Quiet(e) && s.crash.None? && Scheduled(s) && Consistent(cfg, s) && Numbered(s)
    requires e.StartEvent? ==> s.startEvents > 0
    ensures Consistent(cfg, Step(cfg, s, e))
  {
    match e
    case ConnectionLost => LossConsistent(cfg, s);
    case Reply(r, step) => ReplyConsistent(cfg, s, r, step);
    case StartEvent(start) => StartEventConsistent(cfg, s, start);
  }

  lemma QuietConsistent(cfg: Config, s: Session, e: Event)
    requires Quiet(e) && s.crash.None? && Consistent(cfg, s)
    ensures Consistent(cfg, Step(cfg, s, e))
  {
    QuietIsSame(cfg, s, e);
    SameKeeps(cfg, s, Step(cfg, s, e));
  }

  lemma StartEventConsistent(cfg: Config, s: Session, start: LD.SaslStart)
    requires s.crash.None? && s.startEvents > 0 && Scheduled(s) && Consistent(cfg, s) && Numbered(s)
    ensures Consistent(cfg, Step(cfg, s, StartEvent(start)))
  {
    FiredConsistent(cfg, s);
    StartConsistent(cfg, s.(startEvents := s.startEvents - 1), start);
  }

  lemma FiredConsistent(cfg: Config, s: Session)
    requires s.crash.None? && s.startEvents > 0 && Consistent(cfg, s) && Numbered(s)
    ensures var fired := s.(startEvents := s.startEvents - 1); Consistent(cfg, fired) && Numbered(fired)
  {
    var fired := s.(startEvents := s.startEvents - 1);
    SameKeeps(cfg, s, fired);
    assert Jobs(fired) == Jobs(s);
  }

  lemma QuietIsSame(cfg: Config, s: Session, e: Event)
    requires Quiet(e)
    ensures SameForJobs(s, Step(cfg, s, e))
  {
    match e
    case OpenCalled => PostIsSame(s, Reconnect);
    case QuitCalled => PostIsSame(s, Command(FromSession, "QUIT"));
    case JobAdded(job) => PostIsSame(s, ReconnectNow);
    case Connected =>
    case Negotiated(version) => PostIsSame(s, Command(FromSession, Greeting(cfg, s.ehloRejected)));
  }

  /**
   * In every run: what was sent in the name of each job that is current or decided,
   * send job or login, and its result if it has one, are those of its own dialogue
   * with the replies it heard, as far as the connection lasted; a job that was never
   * started, or failed to start, or was dropped, has sent nothing.
   */
  lemma {:induction false} RunsAreConsistent(cfg: Config, events: seq<Event>)
    requires IsRun(cfg, events)
    ensures Consistent(cfg, After(cfg, events))
    decreases |events|
  {
    if events != [] {
      var before, last := events[..|events| - 1], events[|events| - 1];
      RunsAreConsistent(cfg, before);
      JobsAreDecidedInOrder(cfg, before);
      AddedOnce(cfg, before);
      StepConsistent(cfg, After(cfg, before), Added(before), last);
    }
  }

  /**
   * When a session reports a send job as successful, then whatever else went on
   * in the run, the commands sent in that job's name are: MAIL for the user's
   * sender, RCPT for every recipient in the user's order, DATA, and the text
   * with its terminator once per 354 heard after DATA; and n + 2 of the replies
   * passed on to the job while it was current were 25x, with no error before.
   * (Whether these answered the job's own commands is another question: see
   * EarlyJobs and Hearings.)
   */
  lemma SuccessfulSendJob(cfg: Config, events: seq<Event>, i: nat) returns (k: nat)
    requires IsRun(cfg, events)
    requires var fates := After(cfg, events).fates;
      i < |fates| && fates[i].Finished? && fates[i].error == 0 && fates[i].run.job.task.SendTask?
    ensures var s := After(cfg, events);
      var run := s.fates[i].run;
      var job := Prepared(run.job.task.send);
      && run.job in Added(events)
      && SucceedsAt(job, run.heard, k)
      && CommandsBy(s.requests, FromJob(run.job.id))
         == [MailFrom(job, cfg.ace)]
            + (RcptCommands(job, Accepted(run.heard[..k]), |job.recipients|, cfg.ace) + ["DATA"]
               + Bodies(job, GoAheads(run.heard[..k], |job.recipients| + 1)))
    ensures var s := After(cfg, events);
      var run := s.fates[i].run;
      var job, commands := Prepared(run.job.task.send), CommandsOf(s, run.job);
      && commands != []
      && (R.ReadCommand(commands[0]) == R.Mail(Sent(job, BareFrom(job), cfg.ace), MailParameters(job))
          <==> R.FitsBrackets(Sent(job, BareFrom(job), cfg.ace)))
      && EnvelopeIsRead(job, commands[1..], Accepted(run.heard[..k]), cfg.ace)
  {
    RunsAreConsistent(cfg, events);
    JobsAreDecidedInOrder(cfg, events);
    var s := After(cfg, events);
    var run := s.fates[i].run;
    assert FateFollows(cfg, CommandsOf(s, JobOf(s.fates[i])), s.fates[i]);
    assert Jobs(s)[i] == Decided(s.fates)[i] == run.job;
    Verdict(run.begun.send, run.heard, cfg.ace);
    k :| SucceedsAt(run.begun.send, run.heard, k);
    SuccessfulTrace(run.begun.send, run.heard, k, cfg.ace);
    MailIsRead(run.begun.send, cfg.ace);
  }

  /**
   * When it reports a send job as failed, one of three things has happened: the
   * job never began, and nothing was sent; an error concluded it, and what was
   * sent is what the replies before the error account for; or the connection was
   * lost, and what was sent is what all replies account for.
   */
  lemma FailedSendJob(cfg: Config, events: seq<Event>, i: nat) returns (k: nat)
    requires IsRun(cfg, events)
    requires var fates := After(cfg, events).fates;
      i < |fates| && fates[i].Finished? && fates[i].error != 0 && fates[i].run.job.task.SendTask?
    ensures var s := After(cfg, events);
      var run := s.fates[i].run;
      var job, commands := Prepared(run.job.task.send), CommandsOf(s, run.job);
      && s.fates[i].error == USER_DEFINED_ERROR
      && (|| (commands == [] && run.heard == [])
          || (FailsAt(job, run.heard, k)
              && commands == [MailFrom(job, cfg.ace)] + Trace(job, run.heard[..k], cfg.ace))
          || (NoErrors(run.heard) && |Accepted(run.heard)| <= |job.recipients| + 1
              && commands == [MailFrom(job, cfg.ace)] + Trace(job, run.heard, cfg.ace)))
  {
    RunsAreConsistent(cfg, events);
    var s := After(cfg, events);
    var run, commands := s.fates[i].run, CommandsOf(s, JobOf(s.fates[i]));
    k := 0;
    assert FateFollows(cfg, commands, s.fates[i]);
    if Follows(cfg, commands, run, [s.fates[i].error], false) {
      k := FailedTrace(run.begun.send, run.heard, cfg.ace);
    } else if Follows(cfg, commands, run, [], true) {
      Verdict(run.begun.send, run.heard, cfg.ace);
      PendingUntilConcluded(run.begun.send, run.heard, cfg.ace);
    }
  }

  lemma FailedTrace(job: SendState, heard: seq<Heard>, ace: string -> Bytes) returns (k: nat)
    requires Started(job)
    requires Dialogue(job, heard, ace).results != [] && Dialogue(job, heard, ace).results != [0]
    ensures FailsAt(job, heard, k)
    ensures Dialogue(job, heard, ace).results == [USER_DEFINED_ERROR]
    ensures Dialogue(job, heard, ace).commands == Trace(job, heard[..k], ace)
  {
    Verdict(job, heard, ace);
    k :| FailsAt(job, heard, k);
    Concludes(job, heard, k, ace);
  }

  lemma LoginTrace(job: LD.LoginState, heard: seq<Heard>, base64: Bytes -> Bytes) returns (k: nat)
    requires job.error == 0
    ensures k <= |heard| && LD.Undecided(job, heard[..k])
    ensures var outcome := LD.Dialogue(job, heard, base64);
      if k < |heard| then
        && LD.Decides(job, heard[k]) && outcome.results == [LD.Decision(job, heard[k])]
        && outcome.commands == LD.Responses(job, heard[..k], base64) + LD.LastWord(job, heard[k])
      else outcome.results == [] && outcome.commands == LD.Responses(job, heard, base64)
  {
    k := LD.FirstDeciding(job, heard);
    if k < |heard| {
      LD.DecidedBy(job, heard, k, base64);
    } else {
      assert heard[..k] == heard;
      LD.RespondsUntilDecided(job, heard, base64);
    }
  }
}
