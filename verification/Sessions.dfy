/**
 * The SessionPrivate object (session.cpp), proved against the functions of
 * SessionModel. Its jobs are the values that the SendJob and LoginJob objects
 * are proved to follow.
 */
module Sessions {
  import opened ByteArrays
  import opened ReplyCodes
  import opened JobEffects
  import opened SessionModel
  import LD = LoginDialogue

  class SessionPrivate {
    const cfg: Config
    var state: State
    var sslVersion: SslProtocol
    var jobRunning: bool
    var currentJob: Option<Running>
    var queue: seq<Job>
    var ehloRejected: bool
    var size: int
    var allowsTls: bool
    var starttlsSent: bool
    var allowsDsn: bool
    var allowsSmtpUtf8: bool
    var authModes: seq<Bytes>
    var startEvents: nat         // pending calls of DoStartNext
    var requests: seq<Request>   // everything asked of the thread
    var fates: seq<Fate>         // the jobs decided, in order
    var crash: Option<Crash>

    function Caps(): Capabilities
      reads this
    {
      Capabilities(size, allowsTls, allowsDsn, allowsSmtpUtf8, authModes)
    }

    function Abs(): Session
      reads this
    {
      Session(state, sslVersion, jobRunning, currentJob, queue, ehloRejected, starttlsSent, Caps(),
              startEvents, requests, fates, crash)
    }

    constructor (cfg: Config)
      ensures Abs() == NEW_SESSION && this.cfg == cfg
    {
      this.cfg := cfg;
      state, sslVersion := Disconnected, UnknownProtocol;
      jobRunning, currentJob, queue := false, None, [];
      ehloRejected, starttlsSent := false, false;
      size, allowsTls, allowsDsn, allowsSmtpUtf8, authModes := 0, false, false, false, [];
      startEvents, requests, fates, crash := 0, [], [], None;
    }

    method SetState(s: State)
      modifies `state
      ensures state == s
    {
      if state == s {
        return;
      }
      state := s;
    }

    method SendData(origin: Origin, payload: Bytes)
      modifies `requests
      ensures Abs() == SessionModel.SendData(old(Abs()), origin, payload)
    {
      requests := requests + [Command(origin, payload)];
    }

    method StartNext()
      modifies `startEvents
      ensures Abs() == SessionModel.StartNext(old(Abs()))
    {
      startEvents := startEvents + 1;
    }

    method Quit()
      modifies `state, `requests
      ensures Abs() == SessionModel.Quit(old(Abs()))
    {
      if state == Disconnected {
        return;
      }
      SetState(Quitting);
      SendData(FromSession, "QUIT");
    }

    method Open()
      modifies `sslVersion, `requests
      ensures Abs() == SessionModel.Open(old(Abs()))
    {
      sslVersion := UnknownProtocol;
      requests := requests + [Reconnect];
    }

    method StartHandshake()
      modifies `state, `requests
      ensures Abs() == SessionModel.StartHandshake(cfg, old(Abs()))
    {
      var cmd;
      if !ehloRejected {
        cmd := "EHLO ";
      } else {
        cmd := "HELO ";
      }
      SetState(Handshake);
      SendData(FromSession, cmd + cfg.hostname);
    }

    /** The loop over the methods of one AUTH line. */
    method SetAuthenticationMethods(methods: seq<Bytes>)
      modifies `authModes
      ensures authModes == AddMethods(old(authModes), methods)
    {
      var i := 0;
      while i < |methods|
        invariant 0 <= i <= |methods|
        invariant authModes == AddMethods(old(authModes), methods[..i])
      {
        assert methods[..i + 1][..i] == methods[..i];
        if methods[i] !in authModes {
          authModes := authModes + [methods[i]];
        }
        i := i + 1;
      }
      assert methods[..|methods|] == methods;
    }

    // -------------------------------------------------------------------
    // Jobs
    // -------------------------------------------------------------------

    method AddJob(job: Job)
      modifies `queue, `startEvents, `requests
      ensures Abs() == SessionModel.AddJob(old(Abs()), job)
    {
      queue := queue + [job];
      if state == NotAuthenticated || state == Authenticated || state == Quitting {
        StartNext();
      } else {
        requests := requests + [ReconnectNow];
      }
    }

    /** jobDone, which a job's result calls. */
    method JobDone(id: nat, error: nat)
      modifies `fates, `jobRunning, `currentJob, `startEvents, `crash
      ensures Abs() == SessionModel.JobDone(old(Abs()), id, error)
    {
      if currentJob.None? || currentJob.value.job.id != id {
        crash := Some(JobDoneAssertion);
        return;
      }
      fates := fates + [Finished(currentJob.value, error)];
      jobRunning := false;
      currentJob := None;
      StartNext();
    }

    /** The calls the current job makes in one step. */
    method Perform(id: nat, effects: seq<Effect>)
      modifies `state, `requests, `fates, `jobRunning, `currentJob, `startEvents, `crash
      ensures Abs() == SessionModel.Perform(old(Abs()), id, effects)
    {
      var i := 0;
      while i < |effects| && crash.None?
        invariant 0 <= i <= |effects|
        invariant SessionModel.Perform(Abs(), id, effects[i..]) == SessionModel.Perform(old(Abs()), id, effects)
      {
        ghost var before := Abs();
        assert effects[i..][0] == effects[i] && effects[i..][1..] == effects[i + 1..];
        PerformOne(id, effects[i]);
        i := i + 1;
      }
    }

    method PerformOne(id: nat, effect: Effect)
      modifies `state, `requests, `fates, `jobRunning, `currentJob, `startEvents, `crash
      ensures Abs() == SessionModel.PerformOne(old(Abs()), id, effect)
    {
      match effect
      case Send(command) => SendData(FromJob(id), command);
      case Authenticate => SetState(Authenticated);
      case EmitResult(error) => JobDone(id, error);
      case Abort(why) => crash := Some(why);
    }

    method DoStartNext(sasl: LD.SaslStart)
      modifies `state, `requests, `fates, `jobRunning, `currentJob, `queue, `startEvents, `crash
      ensures Abs() == SessionModel.DoStartNext(cfg, old(Abs()), sasl)
    {
      if queue == [] || jobRunning || state == Disconnected {
        return;
      }
      var job := queue[0];
      var (task, effects) := StartTask(cfg, Abs(), job.task, sasl);
      TakeHead(task, effects);
    }

    /** The first job of the queue becomes the current one and makes the calls of its start. */
    method TakeHead(task: Task, effects: seq<Effect>)
      requires queue != []
      modifies `state, `requests, `fates, `jobRunning, `currentJob, `queue, `startEvents, `crash
      ensures var s, job := old(Abs()), old(queue[0]);
        Abs() == SessionModel.Perform(
                   s.(jobRunning := true, currentJob := Some(Begin(job, task)), queue := s.queue[1..]),
                   job.id, effects)
    {
      var job := queue[0];
      jobRunning := true;
      queue := queue[1..];
      currentJob := Some(Begin(job, task));
      Perform(job.id, effects);
    }

    /** The current job's handleResponse. */
    method Deliver(r: ServerResponse, sasl: SaslStep)
      modifies `state, `requests, `fates, `jobRunning, `currentJob, `startEvents, `crash
      ensures Abs() == SessionModel.Deliver(cfg, old(Abs()), r, sasl)
    {
      if currentJob.Some? {
        var run := currentJob.value;
        var (task, effects) := HandleTask(cfg, Abs(), run.task, r, sasl);
        currentJob := Some(run.(heard := run.heard + [Heard(r, allowsDsn, sasl)], task := task));
        Perform(run.job.id, effects);
      }
    }

    // -------------------------------------------------------------------
    // Replies
    // -------------------------------------------------------------------

    /** What a 25x line in the handshake tells. */
    method NoteLine(text: Bytes)
      modifies `size, `allowsTls, `authModes, `allowsDsn, `allowsSmtpUtf8
      ensures Caps() == Note(cfg, old(Caps()), text)
    {
      if "SIZE " <= text {
        size := SizeValue(cfg, text);
      } else if text == "STARTTLS" {
        allowsTls := true;
      } else if "AUTH " <= text {
        SetAuthenticationMethods(Split(RemoveFirst(text, 5)));
      } else if text == "DSN" {
        allowsDsn := true;
      } else if text == "SMTPUTF8" {
        allowsSmtpUtf8 := true;
      }
    }

    /** A 25x line in the handshake: noted, and if it is the last one the handshake ends. */
    method HandshakeLine(r: ServerResponse)
      modifies `state, `starttlsSent, `startEvents, `requests
      modifies `size, `allowsTls, `authModes, `allowsDsn, `allowsSmtpUtf8
      ensures var noted := old(Abs()).(caps := Note(cfg, old(Caps()), r.text));
        Abs() == if r.multiline then noted else HandshakeDone(cfg, noted)
    {
      NoteLine(r.text);
      if !r.multiline {
        EndHandshake();
      }
    }

    method EndHandshake()
      modifies `state, `starttlsSent, `startEvents, `requests
      ensures Abs() == HandshakeDone(cfg, old(Abs()))
    {
      if cfg.mode == STARTTLS && sslVersion == UnknownProtocol {
        if allowsTls {
          starttlsSent := true;
          SendData(FromSession, "STARTTLS");
        } else {
          Quit();
        }
      } else {
        SetState(NotAuthenticated);
        StartNext();
      }
    }

    /** The branch for Handshake; `returned` when responseReceived returns from inside it. */
    method InHandshake(r: ServerResponse) returns (returned: bool)
      requires state == Handshake
      modifies `state, `ehloRejected, `starttlsSent, `startEvents, `requests
      modifies `size, `allowsTls, `authModes, `allowsDsn, `allowsSmtpUtf8
      ensures returned == HandshakeFails(old(Abs()), r)
      ensures Abs() == if returned then SessionModel.Quit(old(Abs())) else HandshakeReply(cfg, old(Abs()), r)
    {
      var unknown := IsCode(r, 500);
      var unimplemented := IsCode(r, 502);
      var ok := IsCode(r, 25);
      var service := IsCode(r, 220);
      returned := false;
      if unknown || unimplemented {
        if !ehloRejected {
          SetState(Ready);
          ehloRejected := true;
        } else {
          Quit();
          returned := true;
        }
      } else if ok {
        HandshakeLine(r);
      } else if service && starttlsSent {
        starttlsSent := false;
        requests := requests + [StartSsl];
      }
    }

    method ResponseReceived(r: ServerResponse, sasl: SaslStep)
      modifies this
      ensures Abs() == SessionModel.ResponseReceived(cfg, old(Abs()), r, sasl)
    {
      if state == Quitting {
        requests := requests + [CloseSocket];
        return;
      }
      if state == Handshake {
        var returned := InHandshake(r);
        if returned {
          return;
        }
      }
      if state == Ready {
        var greeting := IsCode(r, 22);
        if greeting || ehloRejected {
          StartHandshake();
          return;
        }
      }
      Deliver(r, sasl);
    }

    // -------------------------------------------------------------------
    // The connection
    // -------------------------------------------------------------------

    method SocketConnected()
      modifies `state, `sslVersion
      ensures Abs() == SessionModel.SocketConnected(old(Abs()))
    {
      sslVersion := UnknownProtocol;
      SetState(Ready);
    }

    /** connectionLost of the current job. */
    method LoseCurrent()
      modifies `state, `requests, `fates, `jobRunning, `currentJob, `startEvents, `crash
      ensures Abs() == LoseCurrentJob(old(Abs()))
      ensures old(crash).None? ==> crash.None? && currentJob.None?
    {
      if currentJob.Some? {
        assert [EmitResult(USER_DEFINED_ERROR)][1..] == [];
        var run := currentJob.value;
        currentJob := Some(run.(task := TaskFailed(run.task)));
        Perform(run.job.id, [EmitResult(USER_DEFINED_ERROR)]);
      }
    }

    /** jobDestroyed, which deleting a job calls: all its entries leave the queue. */
    method JobDestroyed(job: Job)
      modifies `queue, `currentJob
      ensures queue == RemoveAll(old(queue), job)
      ensures currentJob == if old(currentJob).Some? && old(currentJob).value.job == job then None else old(currentJob)
    {
      queue := RemoveAll(queue, job);
      if currentJob.Some? && currentJob.value.job == job {
        currentJob := None;
      }
    }

    /** Deleting the jobs of the queue one by one, each of which takes itself off the queue. */
    method DropQueue()
      requires currentJob.None?
      modifies `queue, `currentJob, `fates
      ensures Abs() == old(Abs()).(fates := old(fates) + AllDropped(old(queue)), queue := [])
    {
      var copy := queue;
      var i := 0;
      while i < |copy|
        invariant 0 <= i <= |copy|
        invariant currentJob.None?
        invariant fates == old(fates) + AllDropped(copy[..i])
        invariant forall job :: job in queue ==> job in copy[i..]
      {
        assert AllDropped(copy[..i + 1]) == AllDropped(copy[..i]) + [Dropped(copy[i])];
        fates := fates + [Dropped(copy[i])];
        RemoveAllLeaves(queue, copy[i]);
        forall job | job in queue && job != copy[i] ensures job in copy[i + 1..] {
          var k :| 0 <= k < |copy[i..]| && copy[i..][k] == job;
          assert copy[i + 1..][k - 1] == job;
        }
        JobDestroyed(copy[i]);
        i := i + 1;
      }
      assert copy[..|copy|] == copy;
      assert forall job :: job !in queue;
      queue := [];
    }

    /** The current job, or else the first in the queue, is told that the connection is lost. */
    method FailOneJob()
      modifies `state, `requests, `fates, `jobRunning, `currentJob, `queue, `startEvents, `crash
      ensures var s := old(Abs());
        Abs() == if s.currentJob.Some? then LoseCurrentJob(s)
                 else if s.queue != [] then LoseCurrentJob(HeadTaken(s))
                 else s
      ensures old(crash).None? ==> crash.None? && currentJob.None?
    {
      if currentJob.Some? {
        LoseCurrent();
      } else if queue != [] {
        var head := queue[0];
        queue := queue[1..];
        currentJob := Some(Running(head, false, head.task, [], head.task));
        LoseCurrent();
      }
    }

    method SocketDisconnected()
      requires crash.None?
      modifies this
      ensures Abs() == SessionModel.SocketDisconnected(old(Abs()))
    {
      SetState(Disconnected);
      requests := requests + [CloseSocket];
      FailOneJob();
      DropQueue();
    }

    method EncryptionNegotiationResult(encrypted: bool, version: SslProtocol)
      modifies `state, `requests, `sslVersion
      ensures Abs() == NegotiationResult(cfg, old(Abs()), encrypted, version)
    {
      if encrypted {
        StartHandshake();
      }
      sslVersion := version;
    }

    /** One turn of the event loop. */
    method Dispatch(e: Event)
      requires crash.None?
      modifies this
      ensures Abs() == Step(cfg, old(Abs()), e)
    {
      match e
      case OpenCalled => Open();
      case QuitCalled => Quit();
      case JobAdded(job) => AddJob(job);
      case Connected => SocketConnected();
      case ConnectionLost => SocketDisconnected();
      case Reply(r, step) => ResponseReceived(r, step);
      case Negotiated(version) => EncryptionNegotiationResult(true, version);
      case StartEvent(start) =>
        if startEvents > 0 {
          startEvents := startEvents - 1;
          DoStartNext(start);
        }
    }
  }

  /** QList::removeAll. */
  function RemoveAll(queue: seq<Job>, job: Job): seq<Job> {
    if queue == [] then []
    else (if queue[0] == job then [] else [queue[0]]) + RemoveAll(queue[1..], job)
  }

  lemma {:induction false} RemoveAllLeaves(queue: seq<Job>, job: Job)
    ensures forall j :: j in RemoveAll(queue, job) <==> j in queue && j != job
  {
    if queue != [] {
      RemoveAllLeaves(queue[1..], job);
      assert queue == [queue[0]] + queue[1..];
    }
  }
}
