/**
 * Where a job's run begins: every job that is current, or has been decided by more
 * than a lost connection, was started by a start event of the run, and is what
 * doStart made of it then.
 */
module Beginnings {
  import opened ByteArrays
  import opened ReplyCodes
  import opened JobEffects
  import opened SessionModel
  import opened Scheduling
  import opened Handshakes
  import opened Hearings
  import LD = LoginDialogue

  /** Event k is the start event that found this job first in the queue and made it `begun`. */
  predicate BeganAt(cfg: Config, events: seq<Event>, k: nat, run: Running) {
    && k < |events| && events[k].StartEvent?
    && var s := After(cfg, events[..k]);
       && s.crash.None? && s.queue != [] && s.queue[0] == run.job && s.state != Disconnected && !s.jobRunning
       && run.begun == BegunAs(cfg, s, events[k].start)
  }

  ghost predicate HasBegun(cfg: Config, events: seq<Event>, run: Running) {
    exists k: nat :: BeganAt(cfg, events, k, run)
  }

  /** The current job has; so has a decided job, unless it was told of a lost connection while it waited. */
  ghost predicate AllHaveBegun(cfg: Config, events: seq<Event>, s: Session) {
    && (s.crash.None? && s.currentJob.Some? ==> HasBegun(cfg, events, s.currentJob.value))
    && (forall i :: 0 <= i < |s.fates| && s.fates[i].Finished? ==>
          !s.fates[i].run.started || HasBegun(cfg, events, s.fates[i].run))
  }

  lemma BeganBefore(cfg: Config, before: seq<Event>, e: Event, run: Running)
    ensures HasBegun(cfg, before, run) ==> HasBegun(cfg, before + [e], run)
  {
    if HasBegun(cfg, before, run) {
      var k: nat :| BeganAt(cfg, before, k, run);
      assert (before + [e])[..k] == before[..k];
      assert BeganAt(cfg, before + [e], k, run);
    }
  }

  /** Only job and beginning matter. */
  lemma SameBeginning(cfg: Config, events: seq<Event>, run: Running, next: Running)
    requires HasBegun(cfg, events, run) && next.job == run.job && next.begun == run.begun
    ensures HasBegun(cfg, events, next)
  {
    var k: nat :| BeganAt(cfg, events, k, run);
    assert BeganAt(cfg, events, k, next);
  }

  /** A run that goes on with one more event. */
  lemma StillBegun(cfg: Config, before: seq<Event>, e: Event, s: Session)
    requires AllHaveBegun(cfg, before, s)
    ensures AllHaveBegun(cfg, before + [e], s)
  {
    if s.crash.None? && s.currentJob.Some? {
      BeganBefore(cfg, before, e, s.currentJob.value);
    }
    forall i | 0 <= i < |s.fates| && s.fates[i].Finished?
      ensures !s.fates[i].run.started || HasBegun(cfg, before + [e], s.fates[i].run)
    {
      BeganBefore(cfg, before, e, s.fates[i].run);
    }
  }

  lemma KeptFates(s: Session, next: Session)
    requires |s.fates| <= |next.fates| && next.fates[..|s.fates|] == s.fates
    ensures forall i :: 0 <= i < |s.fates| ==> next.fates[i] == s.fates[i]
  {
    forall i | 0 <= i < |s.fates| ensures next.fates[i] == s.fates[i] {
      assert next.fates[..|s.fates|][i] == next.fates[i];
    }
  }

  lemma GoesBegun(cfg: Config, events: seq<Event>, s: Session, next: Session, news: seq<Heard>)
    requires s.crash.None? && Goes(s, next, news) && AllHaveBegun(cfg, events, s)
    ensures AllHaveBegun(cfg, events, next)
  {
    if s.currentJob.Some? {
      if next.currentJob.Some? {
        SameBeginning(cfg, events, s.currentJob.value, next.currentJob.value);
      } else {
        KeptFates(s, next);
        SameBeginning(cfg, events, s.currentJob.value, next.fates[|s.fates|].run);
      }
    }
  }

  /** The first job of the queue is begun now, or told of the loss without having been. */
  lemma TakesBegun(cfg: Config, events: seq<Event>, s: Session, next: Session, begun: Task, started: bool)
    requires Takes(s, next, begun, started) && AllHaveBegun(cfg, events, s)
    requires (next.currentJob.None? && !started)
      || (forall run: Running :: run.job == s.queue[0] && run.begun == begun ==> HasBegun(cfg, events, run))
    ensures AllHaveBegun(cfg, events, next)
  {
    if next.currentJob.None? {
      KeptFates(s, next);
    }
  }

  /** What a start event that finds no job to start changes is only their number. */
  lemma StartMoves(cfg: Config, s: Session, start: LD.SaslStart)
    ensures DoStartNext(cfg, s, start) != s ==> s.queue != [] && !s.jobRunning && s.state != Disconnected
  {
  }

  lemma StartBegun(cfg: Config, before: seq<Event>, start: LD.SaslStart)
    requires IsRun(cfg, before) && Enabled(After(cfg, before), Added(before), StartEvent(start))
    requires AllHaveBegun(cfg, before, After(cfg, before))
    ensures var e := StartEvent(start);
      AllHaveBegun(cfg, before + [e], Step(cfg, After(cfg, before), e))
  {
    var s := After(cfg, before);
    StillBegun(cfg, before, StartEvent(start), s);
    JobsAreDecidedInOrder(cfg, before);
    FiredBegun(cfg, before + [StartEvent(start)], s, s.startEvents - 1);
    StartFired(cfg, before, start, s.(startEvents := s.startEvents - 1));
    FiredStep(cfg, s, start);
  }

  lemma FiredStep(cfg: Config, s: Session, start: LD.SaslStart)
    requires s.startEvents > 0
    ensures Step(cfg, s, StartEvent(start)) == DoStartNext(cfg, s.(startEvents := s.startEvents - 1), start)
  {
  }

  lemma FiredBegun(cfg: Config, events: seq<Event>, s: Session, n: nat)
    requires AllHaveBegun(cfg, events, s)
    ensures AllHaveBegun(cfg, events, s.(startEvents := n))
  {
  }

  lemma StartFired(cfg: Config, before: seq<Event>, start: LD.SaslStart, fired: Session)
    requires fired == After(cfg, before).(startEvents := fired.startEvents)
    requires fired.startEvents + 1 == After(cfg, before).startEvents
    requires fired.crash.None? && Scheduled(After(cfg, before))
    requires AllHaveBegun(cfg, before + [StartEvent(start)], fired)
    ensures AllHaveBegun(cfg, before + [StartEvent(start)], DoStartNext(cfg, fired, start))
  {
    assert fired.(startEvents := fired.startEvents + 1) == After(cfg, before);
    StartTakes(cfg, fired, start);
    StartMoves(cfg, fired, start);
    StartDone(cfg, before, start, fired, DoStartNext(cfg, fired, start));
  }

  lemma StartDone(cfg: Config, before: seq<Event>, start: LD.SaslStart, fired: Session, next: Session)
    requires fired == After(cfg, before).(startEvents := fired.startEvents) && fired.crash.None?
    requires AllHaveBegun(cfg, before + [StartEvent(start)], fired)
    requires next != fired ==> fired.queue != [] && !fired.jobRunning && fired.state != Disconnected
    requires next == fired || next.crash.Some?
      || (fired.queue != [] && Takes(fired, next, BegunAs(cfg, fired, start), true))
    requires next.crash.Some? ==> next.fates == fired.fates
    ensures AllHaveBegun(cfg, before + [StartEvent(start)], next)
  {
    if next != fired && next.crash.None? {
      var begun := BegunAs(cfg, fired, start);
      forall run: Running | run.job == fired.queue[0] && run.begun == begun
        ensures HasBegun(cfg, before + [StartEvent(start)], run)
      {
        BegunNow(cfg, before, start, run);
      }
      TakesBegun(cfg, before + [StartEvent(start)], fired, next, begun, true);
    }
  }

  lemma BegunNow(cfg: Config, before: seq<Event>, start: LD.SaslStart, run: Running)
    requires var s := After(cfg, before);
      && s.crash.None? && s.queue != [] && s.queue[0] == run.job && s.state != Disconnected && !s.jobRunning
      && run.begun == BegunAs(cfg, s, start)
    ensures HasBegun(cfg, before + [StartEvent(start)], run)
  {
    var events := before + [StartEvent(start)];
    assert events[..|before|] == before;
    assert BeganAt(cfg, events, |before|, run);
  }

  lemma LossBegun(cfg: Config, events: seq<Event>, s: Session)
    requires s.crash.None? && Scheduled(s) && AllHaveBegun(cfg, events, s)
    ensures AllHaveBegun(cfg, events, SocketDisconnected(s))
  {
    var closed := Post(s.(state := Disconnected), CloseSocket);
    var lost := AfterLoss(s);
    if closed.currentJob.Some? {
      LoseGoes(closed);
      GoesBegun(cfg, events, closed, lost, []);
    } else if closed.queue != [] {
      LoseGoes(HeadTaken(closed));
      TakesBegun(cfg, events, closed, lost, closed.queue[0].task, false);
    }
    LossKeeps(s);
    DropBegun(cfg, events, lost);
  }

  lemma DropBegun(cfg: Config, events: seq<Event>, s: Session)
    requires AllHaveBegun(cfg, events, s)
    ensures AllHaveBegun(cfg, events, s.(fates := s.fates + AllDropped(s.queue), queue := []))
  {
  }

  lemma QuietBegun(cfg: Config, events: seq<Event>, s: Session, e: Event)
    requires Quiet(e) && AllHaveBegun(cfg, events, s)
    ensures AllHaveBegun(cfg, events, Step(cfg, s, e))
  {
  }

  /** In every run, every job that is current or decided has begun with a start event of the run. */
  lemma {:induction false} JobsHaveBegun(cfg: Config, events: seq<Event>)
    requires IsRun(cfg, events)
    ensures AllHaveBegun(cfg, events, After(cfg, events))
    decreases |events|
  {
    if events != [] {
      var before, last := events[..|events| - 1], events[|events| - 1];
      var s := After(cfg, before);
      assert events == before + [last];
      JobsHaveBegun(cfg, before);
      JobsAreDecidedInOrder(cfg, before);
      StillBegun(cfg, before, last, s);
      if Quiet(last) {
        QuietBegun(cfg, events, s, last);
      } else {
        match last
        case ConnectionLost => LossBegun(cfg, events, s);
        case Reply(r, step) =>
          ReplyGoes(cfg, s, r, step);
          var next := ResponseReceived(cfg, s, r, step);
          GoesBegun(cfg, events, s, next, News(s, next, last));
        case StartEvent(start) => StartBegun(cfg, before, start);
      }
    }
  }
}
