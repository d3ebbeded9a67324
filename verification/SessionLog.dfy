/**
 * The whole log of a run, apart from what jobs send: which event makes the session
 * say what to the server, and ask what of its thread.
 */
module SessionLog {
  import opened ByteArrays
  import opened ReplyCodes
  import opened SessionModel
  import opened RequestLog
  import opened Scheduling
  import opened Handshakes
  import opened Connections
  import opened ServerRecord
  import JE = JobEffects
  import R = CommandReader

  /** The server has answered a greeting with 500 or 502, ever. */
  predicate EverRejected(cfg: Config, events: seq<Event>) {
    events != []
    && var before, last := events[..|events| - 1], events[|events| - 1];
       || EverRejected(cfg, before)
       || (last.Reply? && After(cfg, before).state == Handshake && (last.r.code == 500 || last.r.code == 502))
  }

  /** The greeting of a client that has, or has not, been told that EHLO is unknown. */
  function Hello(cfg: Config, rejected: bool): R.ClientCommand {
    if rejected then R.Helo(cfg.hostname) else R.Ehlo(cfg.hostname)
  }

  /** The last line that answers EHLO or HELO, when STARTTLS is wanted and has not been done. */
  predicate AsksForTls(cfg: Config, s: Session, r: ServerResponse) {
    s.state == Handshake && 250 <= r.code <= 259 && !r.multiline
    && cfg.mode == STARTTLS && s.sslVersion == UnknownProtocol
  }

  /** What a server hears of the session itself on one event. */
  function SaidOn(cfg: Config, before: seq<Event>, e: Event): seq<R.ClientCommand> {
    var s, rejected := After(cfg, before), EverRejected(cfg, before);
    match e
    case QuitCalled => if s.state == Disconnected then [] else [R.Quit]
    case Negotiated(_) => [Hello(cfg, rejected)]
    case Reply(r, _) =>
      if s.state == Handshake && (r.code == 500 || r.code == 502) then
        [if rejected then R.Quit else R.Helo(cfg.hostname)]
      else if AsksForTls(cfg, s, r) then
        [if "STARTTLS" in Lines(cfg, before + [e]) then R.StartTls else R.Quit]
      else if s.state == Ready && (220 <= r.code <= 229 || rejected) then [Hello(cfg, rejected)]
      else []
    case _ => []
  }

  function Said(cfg: Config, events: seq<Event>): seq<R.ClientCommand> {
    if events == [] then []
    else
      var before, last := events[..|events| - 1], events[|events| - 1];
      Said(cfg, before) + SaidOn(cfg, before, last)
  }

  /** What the session issues on an event is read as one command, or there is none. */
  lemma IssuedIsRead(cfg: Config, s: Session, e: Event)
    ensures var issued := Issued(cfg, s, e);
      R.ReadAll(issued) == if issued == [] then [] else [R.ReadCommand(issued[0])]
    ensures R.ReadCommand("QUIT") == R.Quit && R.ReadCommand("STARTTLS") == R.StartTls
    ensures R.ReadCommand(Greeting(cfg, false)) == Hello(cfg, false)
    ensures R.ReadCommand(Greeting(cfg, true)) == Hello(cfg, true)
  {
    GreetingIsRead(cfg, true);
    GreetingIsRead(cfg, false);
    R.SessionLines();
  }

  lemma IssuedIsSaid(cfg: Config, before: seq<Event>, e: Event)
    requires IsRun(cfg, before + [e])
    requires var s := After(cfg, before);
      s.ehloRejected == EverRejected(cfg, before) && (s.caps.allowsTls <==> "STARTTLS" in Lines(cfg, before))
    ensures R.ReadAll(Issued(cfg, After(cfg, before), e)) == SaidOn(cfg, before, e)
  {
    IssuedIsRead(cfg, After(cfg, before), e);
    if e.Reply? {
      WantsAreAsked(cfg, before, e);
    }
  }

  /** The conditions of the reply's branches. */
  lemma WantsAreAsked(cfg: Config, before: seq<Event>, e: Event)
    requires e.Reply?
    requires After(cfg, before).caps.allowsTls <==> "STARTTLS" in Lines(cfg, before)
    ensures var s := After(cfg, before);
      && (Rejects(s, e.r) <==> s.state == Handshake && (e.r.code == 500 || e.r.code == 502))
      && (WantsTls(cfg, s, e.r) <==> AsksForTls(cfg, s, e.r))
      && (Matches(e.r.code, 22) <==> 220 <= e.r.code <= 229)
      && (AsksForTls(cfg, s, e.r) ==>
           (Note(cfg, s.caps, e.r.text).allowsTls <==> "STARTTLS" in Lines(cfg, before + [e])))
  {
    CodeRanges(e.r.code);
    assert (before + [e])[..|before|] == before;
    NotedTls(cfg, After(cfg, before).caps, e.r.text);
  }

  lemma NotedTls(cfg: Config, caps: JE.Capabilities, text: Bytes)
    ensures Note(cfg, caps, text).allowsTls <==> caps.allowsTls || text == "STARTTLS"
  {
    LineKinds(text);
  }

  lemma ReadMore(a: seq<Bytes>, b: seq<Bytes>)
    ensures R.ReadAll(a + b) == R.ReadAll(a) + R.ReadAll(b)
  {
  }

  /** The flag is what the run says. */
  lemma {:induction false} RejectedIsKnown(cfg: Config, events: seq<Event>)
    requires IsRun(cfg, events)
    ensures After(cfg, events).ehloRejected == EverRejected(cfg, events)
    decreases |events|
  {
    if events != [] {
      var before, last := events[..|events| - 1], events[|events| - 1];
      RejectedIsKnown(cfg, before);
      JobsAreDecidedInOrder(cfg, before);
      StepFrame(cfg, After(cfg, before), Added(before), last);
      if last.Reply? {
        CodeRanges(last.r.code);
      }
    }
  }

  lemma StepIsSaid(cfg: Config, before: seq<Event>, e: Event)
    requires IsRun(cfg, before) && Enabled(After(cfg, before), Added(before), e)
    ensures R.ReadAll(SessionCommands(Step(cfg, After(cfg, before), e).requests))
         == R.ReadAll(SessionCommands(After(cfg, before).requests)) + SaidOn(cfg, before, e)
  {
    var s := After(cfg, before);
    OneMoreEvent(cfg, before, e);
    RejectedIsKnown(cfg, before);
    JobsAreDecidedInOrder(cfg, before);
    CapabilitiesAreWhatWasSaid(cfg, before);
    StepFrame(cfg, s, Added(before), e);
    IssuedIsSaid(cfg, before, e);
    ReadMore(SessionCommands(s.requests), Issued(cfg, s, e));
  }

  /**
   * In every run, over all its connections: what a server reads in the session's own
   * commands, in order. EHLO and HELO carry the host name; HELO replaces EHLO for good
   * once a greeting has been rejected, and a second rejection is answered with QUIT;
   * the end of a handshake that still needs TLS is answered with STARTTLS, or with
   * QUIT when the server has never offered it; and there is nothing else.
   */
  lemma {:induction false} SessionSaysExactly(cfg: Config, events: seq<Event>)
    requires IsRun(cfg, events)
    ensures R.ReadAll(SessionCommands(After(cfg, events).requests)) == Said(cfg, events)
    decreases |events|
  {
    if events != [] {
      var before, last := events[..|events| - 1], events[|events| - 1];
      SessionSaysExactly(cfg, before);
      StepIsSaid(cfg, before, last);
    }
  }

  /** All that a run asks of the thread besides commands. */
  function AskedFor(cfg: Config, events: seq<Event>): seq<Request> {
    if events == [] then []
    else
      var before, last := events[..|events| - 1], events[|events| - 1];
      AskedFor(cfg, before) + Asked(After(cfg, before), last)
  }

  /**
   * In every run: the thread is asked to connect once for each open(), and at once for
   * each job added to a session that is not ready; to close once for each lost
   * connection and each reply to a session that is quitting; to start TLS once for each
   * 220 that answers STARTTLS; in that order, and nothing else.
   */
  lemma {:induction false} ThreadIsAsked(cfg: Config, events: seq<Event>)
    requires IsRun(cfg, events)
    ensures Controls(After(cfg, events).requests) == AskedFor(cfg, events)
    decreases |events|
  {
    if events != [] {
      var before, last := events[..|events| - 1], events[|events| - 1];
      ThreadIsAsked(cfg, before);
      JobsAreDecidedInOrder(cfg, before);
      StepControls(cfg, After(cfg, before), Added(before), last);
    }
  }
}
