/**
 * Decided logins: what a run has sent for each, from the start event that began it
 * to the reply that decided it.
 */
module LoginRecords {
  import opened ByteArrays
  import opened JobEffects
  import opened SessionModel
  import opened RequestLog
  import opened Scheduling
  import opened Hearings
  import opened ServerRecord
  import opened SentMail
  import opened Beginnings
  import opened JobStarts
  import opened Delivery
  import LD = LoginDialogue

  /**
   * Event b began this login: it found it first in the queue, the library went along
   * and named a mechanism, and the first command is the AUTH line for the best of the
   * mechanisms that the server had listed by then.
   */
  ghost predicate BeganBy(cfg: Config, events: seq<Event>, b: nat, job: Job, commands: seq<Bytes>)
    requires job.task.LoginTask?
  {
    && b < |events| && events[b].StartEvent? && events[b].start.Answer? && events[b].start.ok
    && var s := After(cfg, events[..b]);
       && s.queue != [] && s.queue[0] == job && Secured(cfg, s)
       && commands != []
       && LD.IsAuthOf(job.task.login.preferred, Mechanisms(Lines(cfg, events[..b])), events[b].start.out,
                      cfg.base64, commands[0])
  }

  /** A prefix of a run, up to and with event b. */
  lemma PrefixRun(cfg: Config, events: seq<Event>, b: nat)
    requires IsRun(cfg, events) && b < |events|
    ensures events[..b + 1] == events[..b] + [events[b]]
    ensures IsRun(cfg, events[..b]) && IsRun(cfg, events[..b] + [events[b]])
    ensures Enabled(After(cfg, events[..b]), Added(events[..b]), events[b])
  {
    LogGrows(cfg, events, b);
    LogGrows(cfg, events, b + 1);
    assert events[..b + 1][..b] == events[..b];
  }

  lemma {:induction false} CommandsGrow(requests: seq<Request>, more: seq<Request>, origin: Origin)
    ensures CommandsBy(requests, origin) <= CommandsBy(requests + more, origin)
    decreases |more|
  {
    if more == [] {
      assert requests + more == requests;
    } else {
      var before, last := more[..|more| - 1], more[|more| - 1];
      CommandsGrow(requests, before, origin);
      assert requests + more == requests + before + [last];
      OneMore(requests + before, last, origin);
    }
  }

  /** The job at the front of the queue has no number of a job that has sent. */
  lemma FrontHasSentNothing(cfg: Config, before: seq<Event>)
    requires IsRun(cfg, before)
    requires var s := After(cfg, before); s.crash.None? && s.queue != [] && s.currentJob.None?
    ensures var s := After(cfg, before); CommandsOf(s, s.queue[0]) == []
  {
    var s := After(cfg, before);
    RunsAreConsistent(cfg, before);
    JobsAreDecidedInOrder(cfg, before);
    AddedOnce(cfg, before);
    HeadHasSentNothing(s, s.queue[0].task);
  }

  /** What is sent first in a job's name stays the first of its commands. */
  lemma FirstStays(requests: seq<Request>, id: nat, line: Bytes, end: seq<Request>)
    requires CommandsBy(requests, FromJob(id)) == [] && requests + [Command(FromJob(id), line)] <= end
    ensures var commands := CommandsBy(end, FromJob(id)); commands != [] && commands[0] == line
  {
    var next := requests + [Command(FromJob(id), line)];
    OneMore(requests, Command(FromJob(id), line), FromJob(id));
    CommandsGrow(next, end[|next|..], FromJob(id));
    assert next + end[|next|..] == end;
  }

  lemma FirstCommandStays(cfg: Config, events: seq<Event>, b: nat, job: Job, line: Bytes)
    requires IsRun(cfg, events) && b < |events|
    requires var s := After(cfg, events[..b]);
      s.crash.None? && s.queue != [] && s.queue[0] == job && s.currentJob.None?
    requires After(cfg, events[..b + 1]).requests
          == After(cfg, events[..b]).requests + [Command(FromJob(job.id), line)]
    ensures var commands := CommandsOf(After(cfg, events), job); commands != [] && commands[0] == line
  {
    PrefixRun(cfg, events, b);
    FrontHasSentNothing(cfg, events[..b]);
    LogGrows(cfg, events, b + 1);
    FirstStays(After(cfg, events[..b]).requests, job.id, line, After(cfg, events).requests);
  }

  /** A login that doStart has left without an error has spoken, or has ended the process. */
  lemma LeftWithoutError(cfg: Config, before: seq<Event>, start: LD.SaslStart)
    requires AtHead(cfg, before, start)
    requires var s := After(cfg, before);
      && s.queue[0].task.LoginTask? && Secured(cfg, s)
      && BegunAs(cfg, s, start).login.error == 0
    ensures var s, next := After(cfg, before), After(cfg, before + [StartEvent(start)]);
      && start.Answer? && start.ok
      && SpeaksAuth(cfg, s, next, s.queue[0], start, Mechanisms(Lines(cfg, before)))
  {
    var s := After(cfg, before);
    var login := s.queue[0].task.login;
    LoginStart(cfg, before, start);
    JobsAreDecidedInOrder(cfg, before);
    CapabilitiesAreWhatWasSaid(cfg, before);
    LD.Begins(login, s.caps, start, cfg.base64);
    StartsAuth(cfg, login, s.caps, start);
    SameOffer(login.preferred, s.caps.authModes, Mechanisms(Lines(cfg, before)), [], cfg.base64, []);
  }

  lemma DecidedIsKnown(s: Session, i: nat)
    requires i < |s.fates|
    ensures JobOf(s.fates[i]).id in Ids(Decided(s.fates) + CurrentJob(s))
  {
    assert Ids(Decided(s.fates) + CurrentJob(s))[i] == JobOf(s.fates[i]).id;
  }

  /** The job of a decided login was not the end of the process. */
  lemma BeganSecured(cfg: Config, events: seq<Event>, i: nat, b: nat)
    requires IsRun(cfg, events)
    requires var fates := After(cfg, events).fates;
      && i < |fates| && fates[i].Finished? && fates[i].run.job.task.LoginTask?
      && BeganAt(cfg, events, b, fates[i].run)
    ensures AtHead(cfg, events[..b], events[b].start) && Secured(cfg, After(cfg, events[..b]))
  {
    var s := After(cfg, events[..b]);
    PrefixRun(cfg, events, b);
    LoginStart(cfg, events[..b], events[b].start);
    if !Secured(cfg, s) {
      if b + 1 < |events| {
        PrefixRun(cfg, events, b + 1);
      } else {
        assert events == events[..b + 1];
        JobsAreDecidedInOrder(cfg, events[..b]);
        AddedOnce(cfg, events[..b]);
        DecidedIsKnown(s, i);
        CurrentIsNotDecided(s);
      }
    }
  }

  lemma BegunIs(cfg: Config, before: seq<Event>, start: LD.SaslStart, mech: Option<Bytes>)
    requires AtHead(cfg, before, start) && start.Answer? && start.mech == mech
    requires var s := After(cfg, before);
      s.queue[0].task.LoginTask? && Secured(cfg, s) && BegunAs(cfg, s, start).login.error == 0
    ensures var s := After(cfg, before);
      BegunAs(cfg, s, start).login == s.queue[0].task.login.(actual := LD.AuthModeFromCommand(mech))
  {
    var s := After(cfg, before);
    var login := s.queue[0].task.login;
    JobsAreDecidedInOrder(cfg, before);
    LD.Begins(login, s.caps, start, cfg.base64);
    StartsAuth(cfg, login, s.caps, start);
  }

  /** A decided login that has begun, and what it was begun as. */
  lemma HowItBegan(cfg: Config, events: seq<Event>, i: nat) returns (b: nat)
    requires IsRun(cfg, events)
    requires var fates := After(cfg, events).fates;
      && i < |fates| && fates[i].Finished? && fates[i].run.job.task.LoginTask?
      && fates[i].run.started && fates[i].run.begun.LoginTask? && fates[i].run.begun.login.error == 0
    ensures var s := After(cfg, events);
      var run := s.fates[i].run;
      && BeganBy(cfg, events, b, run.job, CommandsOf(s, run.job))
      && run.begun.login == run.job.task.login.(actual := LD.AuthModeFromCommand(events[b].start.mech))
  {
    var run := After(cfg, events).fates[i].run;
    JobsHaveBegun(cfg, events);
    assert HasBegun(cfg, events, run);
    b :| BeganAt(cfg, events, b, run);
    PrefixRun(cfg, events, b);
    BeganSecured(cfg, events, i, b);
    var before, start := events[..b], events[b].start;
    var s, next, login := After(cfg, before), After(cfg, before + [events[b]]), run.job.task.login;
    JobsAreDecidedInOrder(cfg, before);
    LeftWithoutError(cfg, before, start);
    var line :|
      && LD.IsAuthOf(login.preferred, Mechanisms(Lines(cfg, before)), start.out, cfg.base64, line)
      && Speaks(s, next, run.job, LoginTask(login.(actual := LD.AuthModeFromCommand(start.mech))), line);
    BegunIs(cfg, before, start, start.mech);
    FirstCommandStays(cfg, events, b, run.job, line);
  }

  /**
   * When a session has decided a login, one of three things has happened: the login
   * never began, and nothing was sent; a reply decided it, and what was sent is the
   * AUTH line, one response for each challenge before that reply, and the empty line
   * for an expired token; or the connection was lost, after the AUTH line and one
   * response for each challenge. The AUTH line names the best mechanism listed when
   * the login began, and the responses go by the mechanism the library named then:
   * user name and password if that was PLAIN, and otherwise the library's own steps.
   */
  lemma DecidedLogin(cfg: Config, events: seq<Event>, i: nat) returns (b: nat, k: nat)
    requires IsRun(cfg, events)
    requires var fates := After(cfg, events).fates;
      i < |fates| && fates[i].Finished? && fates[i].run.job.task.LoginTask?
    ensures var s := After(cfg, events);
      var run, error := s.fates[i].run, s.fates[i].error;
      var commands, heard, login := CommandsOf(s, run.job), run.heard, run.job.task.login;
      || (error == USER_DEFINED_ERROR && commands == [] && heard == [])
      || (BeganBy(cfg, events, b, run.job, commands)
          && var mech := events[b].start.mech;
             var job := login.(actual := LD.AuthModeFromCommand(mech));
             && k <= |heard| && LD.Undecided(job, heard[..k])
             && if k < |heard| then
                  && LD.Decides(job, heard[k]) && error == LD.Decision(job, heard[k])
                  && commands[1..]
                     == LD.MechanismResponses(login, mech, heard[..k], cfg.base64) + LD.LastWord(job, heard[k])
                else
                  && error == USER_DEFINED_ERROR
                  && commands[1..] == LD.MechanismResponses(login, mech, heard, cfg.base64))
  {
    RunsAreConsistent(cfg, events);
    var s := After(cfg, events);
    var run, commands := s.fates[i].run, CommandsOf(s, JobOf(s.fates[i]));
    b, k := 0, 0;
    assert FateFollows(cfg, commands, s.fates[i]);
    if !NeverBegan(commands, run) {
      b := HowItBegan(cfg, events, i);
      k := LoginTrace(run.begun.login, run.heard, cfg.base64);
      LD.ResponsesFollowMechanism(run.job.task.login, events[b].start.mech, run.heard[..k], cfg.base64);
      LD.ResponsesFollowMechanism(run.job.task.login, events[b].start.mech, run.heard, cfg.base64);
    }
  }
}
