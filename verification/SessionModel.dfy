/**
 * The session (session.cpp) as a state machine: its fields, and what each event
 * does to them. A run of the session is a list of events; start events and
 * commands to the socket's thread are posted, never carried out inside a step.
 * What is asked of the thread is kept in a log.
 */
module SessionModel {
  import opened ByteArrays
  import opened ReplyCodes
  import opened JobEffects
  import SD = SendDialogue
  import LD = LoginDialogue

  datatype State = Disconnected | Ready | Handshake | NotAuthenticated | Authenticated | Quitting

  /** `m_state >= Session::NotAuthenticated` in the order of the enumeration. */
  predicate AtLeastNotAuthenticated(s: State) {
    s == NotAuthenticated || s == Authenticated || s == Quitting
  }

  datatype EncryptionMode = Unencrypted | TLS | STARTTLS

  datatype SslProtocol = UnknownProtocol | KnownProtocol(version: nat)

  /** What stays fixed: the settings, and the library functions that are not modelled. */
  datatype Config = Config(
    mode: EncryptionMode, hostname: Bytes,
    ace: string -> Bytes, base64: Bytes -> Bytes, toInt: Bytes -> Option<int>)

  datatype Task = SendTask(send: SD.SendState) | LoginTask(login: LD.LoginState)

  datatype Job = Job(id: nat, task: Task)

  /**
   * The current job: as it was added, whether doStart has been called and what it
   * left, the replies the job has been given since, and as it is now.
   */
  datatype Running = Running(job: Job, started: bool, begun: Task, heard: seq<Heard>, task: Task)

  function Begin(job: Job, task: Task): Running {
    Running(job, true, task, [], task)
  }

  datatype Fate =
    | Finished(run: Running, error: nat)
    | Dropped(dropped: Job)

  datatype Origin = FromSession | FromJob(id: nat)

  /** What the session asks of the thread: posted to it, except that addJob calls reconnect at once. */
  datatype Request = Command(origin: Origin, payload: Bytes) | Reconnect | ReconnectNow | StartSsl | CloseSocket

  datatype Session = Session(
    state: State, sslVersion: SslProtocol,
    jobRunning: bool, currentJob: Option<Running>, queue: seq<Job>,
    ehloRejected: bool, starttlsSent: bool, caps: Capabilities,
    startEvents: nat, requests: seq<Request>, fates: seq<Fate>, crash: Option<Crash>)

  const NO_CAPABILITIES := Capabilities(0, false, false, false, [])

  const NEW_SESSION :=
    Session(Disconnected, UnknownProtocol, false, None, [], false, false, NO_CAPABILITIES, 0, [], [], None)

  // ---------------------------------------------------------------------
  // Small steps
  // ---------------------------------------------------------------------

  function Post(s: Session, request: Request): Session {
    s.(requests := s.requests + [request])
  }

  function SendData(s: Session, origin: Origin, payload: Bytes): Session {
    Post(s, Command(origin, payload))
  }

  function StartNext(s: Session): Session {
    s.(startEvents := s.startEvents + 1)
  }

  function Quit(s: Session): Session {
    if s.state == Disconnected then s
    else SendData(s.(state := Quitting), FromSession, "QUIT")
  }

  function Greeting(cfg: Config, ehloRejected: bool): Bytes {
    (if ehloRejected then "HELO " else "EHLO ") + cfg.hostname
  }

  function StartHandshake(cfg: Config, s: Session): Session {
    SendData(s.(state := Handshake), FromSession, Greeting(cfg, s.ehloRejected))
  }

  function JobDone(s: Session, id: nat, error: nat): Session {
    if s.currentJob.None? || s.currentJob.value.job.id != id then s.(crash := Some(JobDoneAssertion))
    else StartNext(s.(jobRunning := false, currentJob := None,
                      fates := s.fates + [Finished(s.currentJob.value, error)]))
  }

  function PerformOne(s: Session, id: nat, effect: Effect): Session {
    match effect
    case Send(command) => SendData(s, FromJob(id), command)
    case Authenticate => s.(state := Authenticated)
    case EmitResult(error) => JobDone(s, id, error)
    case Abort(crash) => s.(crash := Some(crash))
  }

  /** The calls a job makes into the session during one step; a crash ends them. */
  function Perform(s: Session, id: nat, effects: seq<Effect>): Session
    decreases |effects|
  {
    if effects == [] || s.crash.Some? then s
    else Perform(PerformOne(s, id, effects[0]), id, effects[1..])
  }

  // ---------------------------------------------------------------------
  // Jobs
  // ---------------------------------------------------------------------

  function Secured(cfg: Config, s: Session): bool {
    !(s.sslVersion == UnknownProtocol && cfg.mode != Unencrypted)
  }

  function StartTask(cfg: Config, s: Session, task: Task, sasl: LD.SaslStart): (Task, seq<Effect>) {
    match task
    case SendTask(send) =>
      var (next, effects) := SD.Start(send, s.caps, cfg.ace);
      (SendTask(next), effects)
    case LoginTask(login) =>
      var (next, effects) := LD.Start(login, s.caps, Secured(cfg, s), sasl, cfg.base64);
      (LoginTask(next), effects)
  }

  function HandleTask(cfg: Config, s: Session, task: Task, r: ServerResponse, sasl: SaslStep)
    : (Task, seq<Effect>)
  {
    match task
    case SendTask(send) =>
      var (next, effects) := SD.Handle(send, r, s.caps.allowsDsn, cfg.ace);
      (SendTask(next), effects)
    case LoginTask(login) =>
      var (next, effects) := LD.Handle(login, r, sasl, cfg.base64);
      (LoginTask(next), effects)
  }

  function TaskFailed(task: Task): Task {
    match task
    case SendTask(send) => SendTask(send.(error := USER_DEFINED_ERROR))
    case LoginTask(login) => LoginTask(login.(error := USER_DEFINED_ERROR))
  }

  function DoStartNext(cfg: Config, s: Session, sasl: LD.SaslStart): Session {
    if s.queue == [] || s.jobRunning || s.state == Disconnected then s
    else
      var job := s.queue[0];
      var (task, effects) := StartTask(cfg, s, job.task, sasl);
      Perform(s.(jobRunning := true, currentJob := Some(Begin(job, task)), queue := s.queue[1..]),
              job.id, effects)
  }

  function AddJob(s: Session, job: Job): Session {
    var added := s.(queue := s.queue + [job]);
    if AtLeastNotAuthenticated(s.state) then StartNext(added) else Post(added, ReconnectNow)
  }

  function Deliver(cfg: Config, s: Session, r: ServerResponse, sasl: SaslStep): Session {
    match s.currentJob
    case None => s
    case Some(run) =>
      var (task, effects) := HandleTask(cfg, s, run.task, r, sasl);
      var heard := run.heard + [Heard(r, s.caps.allowsDsn, sasl)];
      Perform(s.(currentJob := Some(run.(heard := heard, task := task))), run.job.id, effects)
  }

  // ---------------------------------------------------------------------
  // Replies
  // ---------------------------------------------------------------------

  /** setAuthenticationMethods. */
  function AddMethods(modes: seq<Bytes>, methods: seq<Bytes>): seq<Bytes>
    decreases |methods|
  {
    if methods == [] then modes
    else
      var before, last := AddMethods(modes, methods[..|methods| - 1]), methods[|methods| - 1];
      if last in before then before else before + [last]
  }

  function SizeValue(cfg: Config, text: Bytes): int {
    match cfg.toInt(RemoveFirst(text, 5))
    case Some(n) => n
    case None => 0
  }

  /** What one line of a 25x reply to EHLO or HELO tells about the server. */
  function Note(cfg: Config, caps: Capabilities, text: Bytes): Capabilities {
    if "SIZE " <= text then caps.(sizeLimit := SizeValue(cfg, text))
    else if text == "STARTTLS" then caps.(allowsTls := true)
    else if "AUTH " <= text then caps.(authModes := AddMethods(caps.authModes, Split(RemoveFirst(text, 5))))
    else if text == "DSN" then caps.(allowsDsn := true)
    else if text == "SMTPUTF8" then caps.(allowsSmtpUtf8 := true)
    else caps
  }

  /** After the last line of a 25x reply to EHLO or HELO. */
  function HandshakeDone(cfg: Config, s: Session): Session {
    if cfg.mode == STARTTLS && s.sslVersion == UnknownProtocol then
      if s.caps.allowsTls then SendData(s.(starttlsSent := true), FromSession, "STARTTLS") else Quit(s)
    else StartNext(s.(state := NotAuthenticated))
  }

  /** The branch for the Handshake state, when it does not return early. */
  function HandshakeReply(cfg: Config, s: Session, r: ServerResponse): Session {
    if Matches(r.code, 500) || Matches(r.code, 502) then s.(state := Ready, ehloRejected := true)
    else if Matches(r.code, 25) then
      var noted := s.(caps := Note(cfg, s.caps, r.text));
      if r.multiline then noted else HandshakeDone(cfg, noted)
    else if Matches(r.code, 220) && s.starttlsSent then Post(s.(starttlsSent := false), StartSsl)
    else s
  }

  /** The greeting failed with EHLO and with HELO. */
  predicate HandshakeFails(s: Session, r: ServerResponse) {
    s.state == Handshake && (Matches(r.code, 500) || Matches(r.code, 502)) && s.ehloRejected
  }

  function ResponseReceived(cfg: Config, s: Session, r: ServerResponse, sasl: SaslStep): Session {
    if s.state == Quitting then Post(s, CloseSocket)
    else if HandshakeFails(s, r) then Quit(s)
    else
      var next := if s.state == Handshake then HandshakeReply(cfg, s, r) else s;
      if next.state == Ready && (Matches(r.code, 22) || next.ehloRejected) then StartHandshake(cfg, next)
      else Deliver(cfg, next, r, sasl)
  }

  // ---------------------------------------------------------------------
  // The connection
  // ---------------------------------------------------------------------

  function SocketConnected(s: Session): Session {
    s.(sslVersion := UnknownProtocol, state := Ready)
  }

  function LoseCurrentJob(s: Session): Session {
    match s.currentJob
    case None => s
    case Some(run) =>
      Perform(s.(currentJob := Some(run.(task := TaskFailed(run.task)))), run.job.id,
              [EmitResult(USER_DEFINED_ERROR)])
  }

  function AllDropped(queue: seq<Job>): (fates: seq<Fate>)
    ensures |fates| == |queue|
  {
    seq(|queue|, (i: nat) requires i < |queue| => Dropped(queue[i]))
  }

  /** The first job of the queue becomes the current one, without being started. */
  function HeadTaken(s: Session): Session
    requires s.queue != []
  {
    var head := s.queue[0];
    s.(currentJob := Some(Running(head, false, head.task, [], head.task)), queue := s.queue[1..])
  }

  /** Also what a socket timeout does. */
  function SocketDisconnected(s: Session): Session {
    var closed := Post(s.(state := Disconnected), CloseSocket);
    var lost :=
      if closed.currentJob.Some? then LoseCurrentJob(closed)
      else if closed.queue != [] then LoseCurrentJob(HeadTaken(closed))
      else closed;
    lost.(fates := lost.fates + AllDropped(lost.queue), queue := [])
  }

  function NegotiationResult(cfg: Config, s: Session, encrypted: bool, version: SslProtocol): Session {
    (if encrypted then StartHandshake(cfg, s) else s).(sslVersion := version)
  }

  function Open(s: Session): Session {
    Post(s.(sslVersion := UnknownProtocol), Reconnect)
  }

  // ---------------------------------------------------------------------
  // Runs
  // ---------------------------------------------------------------------

  datatype Event =
    | OpenCalled
    | QuitCalled
    | JobAdded(job: Job)
    | Connected
    | ConnectionLost
    | Reply(r: ServerResponse, step: SaslStep)
    | Negotiated(version: SslProtocol)   // the thread reports success only
    | StartEvent(start: LD.SaslStart)

  function Step(cfg: Config, s: Session, e: Event): Session {
    match e
    case OpenCalled => Open(s)
    case QuitCalled => Quit(s)
    case JobAdded(job) => AddJob(s, job)
    case Connected => SocketConnected(s)
    case ConnectionLost => SocketDisconnected(s)
    case Reply(r, step) => ResponseReceived(cfg, s, r, step)
    case Negotiated(version) => NegotiationResult(cfg, s, true, version)
    case StartEvent(start) =>
      if s.startEvents == 0 then s else DoStartNext(cfg, s.(startEvents := s.startEvents - 1), start)
  }

  /** A job that has not been started: no error, nothing sent, a known preference. */
  predicate Fresh(task: Task) {
    match task
    case SendTask(send) => send.status == SD.Idle && send.error == 0
    case LoginTask(login) => login.preferred != LD.UnknownAuth && login.error == 0
  }

  function Added(events: seq<Event>): seq<Job> {
    if events == [] then []
    else
      var last := events[|events| - 1];
      Added(events[..|events| - 1]) + if last.JobAdded? then [last.job] else []
  }

  function Ids(jobs: seq<Job>): (ids: seq<nat>)
    ensures |ids| == |jobs|
  {
    seq(|jobs|, (i: nat) requires i < |jobs| => jobs[i].id)
  }

  function After(cfg: Config, events: seq<Event>): Session {
    if events == [] then NEW_SESSION
    else Step(cfg, After(cfg, events[..|events| - 1]), events[|events| - 1])
  }

  /**
   * What can happen next: nothing after a crash, a start event only when one is
   * pending, and only new jobs are added.
   */
  predicate Enabled(s: Session, added: seq<Job>, e: Event) {
    && s.crash.None?
    && (e.StartEvent? ==> s.startEvents > 0)
    && (e.JobAdded? ==> Fresh(e.job.task) && e.job.id !in Ids(added))
  }

  predicate IsRun(cfg: Config, events: seq<Event>) {
    events == []
    || var before := events[..|events| - 1];
       IsRun(cfg, before) && Enabled(After(cfg, before), Added(before), events[|events| - 1])
  }

  /** A run goes on with any event that can happen next. */
  lemma OneMoreEvent(cfg: Config, before: seq<Event>, e: Event)
    requires IsRun(cfg, before) && Enabled(After(cfg, before), Added(before), e)
    ensures IsRun(cfg, before + [e])
    ensures After(cfg, before + [e]) == Step(cfg, After(cfg, before), e)
    ensures Added(before + [e]) == Added(before) + if e.JobAdded? then [e.job] else []
  {
    assert (before + [e])[..|before|] == before;
  }
}
