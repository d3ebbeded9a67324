/**
 * From the user's text to the receiver: the session, its thread and the encoding
 * together.
 */
module Delivery {
  import opened ByteArrays
  import opened ReplyCodes
  import opened JobEffects
  import opened SessionModel
  import opened RequestLog
  import opened Scheduling
  import opened Transparency
  import opened SentMail
  import SD = SendDialogue
  import LD = LoginDialogue
  import TM = ThreadModel

  // ---------------------------------------------------------------------
  // The log only grows
  // ---------------------------------------------------------------------

  lemma StartGrows(cfg: Config, s: Session, sasl: LD.SaslStart)
    requires s.crash.None? && Scheduled(s.(startEvents := s.startEvents + 1))
    ensures s.requests <= DoStartNext(cfg, s, sasl).requests
  {
    if s.queue != [] && !s.jobRunning && s.state != Disconnected {
      var job := s.queue[0];
      var (task, effects) := StartTask(cfg, s, job.task, sasl);
      StartShape(cfg, s, job.task, sasl);
      if effects == [Abort(LoginUnencrypted)] {
        assert effects[1..] == [];
      } else {
        PerformIs(s.(jobRunning := true, currentJob := Some(Begin(job, task)), queue := s.queue[1..]),
                  job.id, effects);
      }
    }
  }

  lemma DeliverGrows(cfg: Config, s: Session, r: ServerResponse, sasl: SaslStep)
    requires s.crash.None? && Scheduled(s)
    ensures s.requests <= Deliver(cfg, s, r, sasl).requests
  {
    if s.currentJob.Some? {
      var run := s.currentJob.value;
      var (task, effects) := HandleTask(cfg, s, run.task, r, sasl);
      HandleShape(cfg, s, run.task, r, sasl);
      var heard := run.heard + [Heard(r, s.caps.allowsDsn, sasl)];
      PerformIs(s.(currentJob := Some(run.(heard := heard, task := task))), run.job.id, effects);
    }
  }

  lemma LossGrows(s: Session)
    requires s.crash.None? && Scheduled(s)
    ensures s.requests <= SocketDisconnected(s).requests
  {
    var closed := Post(s.(state := Disconnected), CloseSocket);
    var effects := [EmitResult(USER_DEFINED_ERROR)];
    assert effects[1..] == [];
    if closed.currentJob.Some? || closed.queue != [] {
      var told := if closed.currentJob.Some? then closed else HeadTaken(closed);
      var run := told.currentJob.value;
      PerformIs(told.(currentJob := Some(run.(task := TaskFailed(run.task)))), run.job.id, effects);
    }
  }

  lemma HandshakeGrows(cfg: Config, s: Session, r: ServerResponse)
    ensures s.requests <= HandshakeReply(cfg, s, r).requests
  {
    if !Matches(r.code, 500) && !Matches(r.code, 502) && Matches(r.code, 25) {
      NotedGrows(cfg, s, Note(cfg, s.caps, r.text));
    }
  }

  lemma NotedGrows(cfg: Config, s: Session, caps: Capabilities)
    ensures s.requests <= HandshakeDone(cfg, s.(caps := caps)).requests
  {
  }

  lemma ReplyGrows(cfg: Config, s: Session, r: ServerResponse, sasl: SaslStep)
    requires s.crash.None? && Scheduled(s)
    ensures s.requests <= ResponseReceived(cfg, s, r, sasl).requests
  {
    if s.state == Handshake && !HandshakeFails(s, r) {
      HandshakeReplyKeeps(cfg, s, r);
      HandshakeGrows(cfg, s, r);
      DeliverGrows(cfg, HandshakeReply(cfg, s, r), r, sasl);
    } else {
      DeliverGrows(cfg, s, r, sasl);
    }
  }

  lemma QuietGrows(cfg: Config, s: Session, e: Event)
    requires Quiet(e)
    ensures s.requests <= Step(cfg, s, e).requests
  {
  }

  lemma StepGrows(cfg: Config, s: Session, added: seq<Job>, e: Event)
    requires Invariant(s) && Enabled(s, added, e)
    ensures s.requests <= Step(cfg, s, e).requests
  {
    if Quiet(e) {
      QuietGrows(cfg, s, e);
    } else {
      match e
      case ConnectionLost => LossGrows(s);
      case Reply(r, step) => ReplyGrows(cfg, s, r, step);
      case StartEvent(start) => StartGrows(cfg, s.(startEvents := s.startEvents - 1), start);
    }
  }

  lemma {:induction false} LogGrows(cfg: Config, events: seq<Event>, k: nat)
    requires IsRun(cfg, events) && k <= |events|
    ensures IsRun(cfg, events[..k])
    ensures After(cfg, events[..k]).requests <= After(cfg, events).requests
    decreases |events|
  {
    if k == |events| {
      assert events[..k] == events;
    } else {
      var before := events[..|events| - 1];
      LogGrows(cfg, before, k);
      assert before[..k] == events[..k];
      JobsAreDecidedInOrder(cfg, before);
      StepGrows(cfg, After(cfg, before), Added(before), events[|events| - 1]);
    }
  }

  // ---------------------------------------------------------------------
  // The text on the wire
  // ---------------------------------------------------------------------

  /**
   * The current job was added as a send job with this text, and the server has
   * accepted its sender, its recipients and nothing more.
   */
  predicate TextIsDue(s: Session, text: Bytes) {
    && s.crash.None? && s.state != Quitting && s.state != Ready
    && s.currentJob.Some? && s.currentJob.value.job.task.SendTask?
    && var run := s.currentJob.value;
       && run.job.task.send.data == Encode(text)
       && |SD.Accepted(run.heard)| == |run.job.task.send.recipients| + 1
  }

  /** Then in every run that job is waiting for the 354. */
  lemma DueIsWaiting(cfg: Config, events: seq<Event>, text: Bytes)
    requires IsRun(cfg, events) && TextIsDue(After(cfg, events), text)
    ensures WaitsToSend(After(cfg, events), text)
  {
    RunsAreConsistent(cfg, events);
    var run := After(cfg, events).currentJob.value;
    SD.Verdict(run.begun.send, run.heard, cfg.ace);
    SD.PendingUntilConcluded(run.begun.send, run.heard, cfg.ace);
  }

  /** The current job is a send job that has sent DATA, and this is its text. */
  predicate WaitsToSend(s: Session, text: Bytes) {
    && s.crash.None? && s.state != Quitting && s.state != Ready
    && s.currentJob.Some? && s.currentJob.value.task.SendTask?
    && s.currentJob.value.task.send.status == SD.SendingData
    && s.currentJob.value.task.send.data == Encode(text)
  }

  /** The 354 makes the job send its text and the terminator, one right after the other. */
  lemma GoAheadSendsText(cfg: Config, s: Session, r: ServerResponse, sasl: SaslStep, text: Bytes)
    requires WaitsToSend(s, text) && r.code == 354
    ensures ResponseReceived(cfg, s, r, sasl).requests
         == s.requests + Commanded(s.currentJob.value.job.id, BodyCommands(Encode(text)))
  {
    CodeRanges(r.code);
    var run := s.currentJob.value;
    var (task, effects) := HandleTask(cfg, s, run.task, r, sasl);
    assert effects == [Send(Encode(text)), Send(LINE_DOT)];
    assert effects[1..] == [Send(LINE_DOT)] && effects[1..][1..] == [];
    assert Commands(effects) == [Encode(text)] + ([LINE_DOT] + Commands([]));
    assert Results(effects) == Results(effects[1..]) == Results([]);
    var heard := run.heard + [Heard(r, s.caps.allowsDsn, sasl)];
    PerformIs(s.(currentJob := Some(run.(heard := heard, task := task))), run.job.id, effects);
  }

  lemma {:induction false} AllCommandsAppend(a: seq<Request>, b: seq<Request>)
    ensures AllCommands(a + b) == AllCommands(a) + AllCommands(b)
    decreases |b|
  {
    if b == [] {
      assert a + b == a;
    } else {
      assert (a + b)[..|a + b| - 1] == a + b[..|b| - 1];
      AllCommandsAppend(a, b[..|b| - 1]);
    }
  }

  lemma AllCommandsOfTwo(id: nat, commands: seq<Bytes>)
    requires |commands| == 2
    ensures AllCommands(Commanded(id, commands)) == commands
  {
    var requests := Commanded(id, commands);
    assert requests[..1] == [Command(FromJob(id), commands[0])];
    assert AllCommands(requests[..1]) == AllCommands(requests[..1][..0]) + [commands[0]];
  }

  /** Wherever the two commands stand, the receiver that has read what comes before them gets the text. */
  lemma TextInTheStream(before: seq<Bytes>, text: Bytes, after: seq<Bytes>)
    ensures OnWire(before) <= OnWire(before + BodyCommands(Encode(text)) + after)
    ensures Receive(OnWire(before + BodyCommands(Encode(text)) + after)[|OnWire(before)|..])
         == Some(Mail(text + CRLF + CRLF, OnWire(after)))
       <==> !StartsWithDot(text)
  {
    var body := BodyCommands(Encode(text));
    OnWireAppend(before + body, after);
    OnWireAppend(before, body);
    assert OnWire(before + body + after)[|OnWire(before)|..] == OnWire(body) + OnWire(after);
    RoundTrip(text, OnWire(after));
  }

  /** The commands issued after event k of a run. */
  function IssuedAfter(cfg: Config, events: seq<Event>, k: nat): seq<Bytes>
    requires k < |events|
  {
    var until, all := After(cfg, events[..k + 1]).requests, After(cfg, events).requests;
    if |until| <= |all| then AllCommands(all[|until|..]) else []
  }

  /** The log of the run: what was issued before the 354, the text, and what was issued after. */
  lemma LogAround(cfg: Config, events: seq<Event>, k: nat, text: Bytes)
    requires IsRun(cfg, events) && k < |events|
    requires WaitsToSend(After(cfg, events[..k]), text) && events[k].Reply? && events[k].r.code == 354
    ensures AllCommands(After(cfg, events).requests)
         == AllCommands(After(cfg, events[..k]).requests) + BodyCommands(Encode(text)) + IssuedAfter(cfg, events, k)
  {
    var s, all := After(cfg, events[..k]), After(cfg, events).requests;
    var id := s.currentJob.value.job.id;
    LogAfterGoAhead(cfg, events, k, text);
    LogGrows(cfg, events, k + 1);
    LogParts(s.requests, id, BodyCommands(Encode(text)), all);
  }

  lemma LogAfterGoAhead(cfg: Config, events: seq<Event>, k: nat, text: Bytes)
    requires k < |events|
    requires WaitsToSend(After(cfg, events[..k]), text) && events[k].Reply? && events[k].r.code == 354
    ensures var s := After(cfg, events[..k]);
      After(cfg, events[..k + 1]).requests
      == s.requests + Commanded(s.currentJob.value.job.id, BodyCommands(Encode(text)))
  {
    assert events[..k + 1][..k] == events[..k];
    GoAheadSendsText(cfg, After(cfg, events[..k]), events[k].r, events[k].step, text);
  }

  lemma LogParts(before: seq<Request>, id: nat, commands: seq<Bytes>, all: seq<Request>)
    requires |commands| == 2 && before + Commanded(id, commands) <= all
    ensures AllCommands(all)
         == AllCommands(before) + commands + AllCommands(all[|before + Commanded(id, commands)|..])
  {
    ThreeParts(before, Commanded(id, commands), all);
    AllCommandsOfTwo(id, commands);
  }

  lemma ThreeParts(a: seq<Request>, b: seq<Request>, all: seq<Request>)
    requires a + b <= all
    ensures AllCommands(all) == AllCommands(a) + AllCommands(b) + AllCommands(all[|a + b|..])
  {
    AllCommandsAppend(a + b, all[|a + b|..]);
    AllCommandsAppend(a, b);
    assert all == a + b + all[|a + b|..];
  }

  /**
   * End to end. Take any run of a session, and any run of its thread in which the
   * session's commands are posted in order and none is pending in the end. Let
   * event k of the session be a 354 for a job whose text is due, and let none of
   * what the session issued after event k - 1 have gone to an earlier connection
   * or to none. Then a receiver on the thread's connection that has read all
   * commands issued before gets the user's text with its closing CRLF and one
   * empty line, and then the commands issued after, whatever they are; exactly
   * when the text does not begin with a dot.
   */
  lemma TextArrives(cfg: Config, events: seq<Event>, k: nat, text: Bytes, threadEvents: seq<TM.Event>)
    requires IsRun(cfg, events) && k < |events|
    requires TextIsDue(After(cfg, events[..k]), text) && events[k].Reply? && events[k].r.code == 354
    requires TM.Posted(threadEvents) == AllCommands(After(cfg, events).requests)
    requires var t := TM.After(threadEvents, cfg.toInt); t.posted == [] && t.writeTimers == 0
    requires |TM.After(threadEvents, cfg.toInt).gone| <= |OnWire(AllCommands(After(cfg, events[..k]).requests))|
    ensures var t := TM.After(threadEvents, cfg.toInt);
      var sent := OnWire(AllCommands(After(cfg, events[..k]).requests));
      var received := Some(Mail(text + CRLF + CRLF, OnWire(IssuedAfter(cfg, events, k))));
      && t.gone <= sent && sent[|t.gone|..] <= t.written
      && (Receive(t.written[|sent| - |t.gone|..]) == received <==> !StartsWithDot(text))
  {
    var t, sent := TM.After(threadEvents, cfg.toInt), OnWire(AllCommands(After(cfg, events[..k]).requests));
    LogGrows(cfg, events, k);
    DueIsWaiting(cfg, events[..k], text);
    LogAround(cfg, events, k, text);
    TextInTheStream(AllCommands(After(cfg, events[..k]).requests), text, IssuedAfter(cfg, events, k));
    TM.AllWritten(threadEvents, cfg.toInt);
    Cut(t.gone, t.written, sent);
  }

  /** A stream of which the beginning has gone elsewhere. */
  lemma Cut(gone: Bytes, written: Bytes, sent: Bytes)
    requires sent <= gone + written && |gone| <= |sent|
    ensures gone <= sent && sent[|gone|..] <= written
    ensures written[|sent| - |gone|..] == (gone + written)[|sent|..]
  {
    assert (gone + written)[..|gone|] == gone;
  }
}
