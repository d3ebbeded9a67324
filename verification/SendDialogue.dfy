/**
 * The dialogue of a SendJob (sendjob.cpp): MAIL, one RCPT per recipient, DATA,
 * the text and its terminator, driven by whatever the server replies.
 */
module SendDialogue {
  import opened ByteArrays
  import opened ReplyCodes
  import opened JobEffects
  import opened Addresses
  import opened Transparency
  import R = CommandReader

  datatype Status = Idle | SendingReturnPath | SendingRecipients | SendingData

  /** The fields of SendJobPrivate. */
  datatype SendState = SendState(
    returnPath: string, recipients: seq<string>, data: Bytes,
    recipientsCopy: seq<string>, status: Status, dsn: bool, encoding: Encoding, error: nat)

  const NEW_SEND_JOB := SendState([], [], [], [], Idle, false, Encoding(false, false), 0)

  function BareFrom(job: SendState): string {
    Mid(job.returnPath, 1, |job.returnPath| - 2)
  }

  /** The addresses analyzeAddresses looks at. */
  function AllAddresses(job: SendState): seq<string> {
    (if job.returnPath == "" then [] else [BareFrom(job)]) + job.recipients
  }

  function MailFrom(job: SendState, ace: string -> Bytes): Bytes {
    "MAIL FROM:<" + AddressForSmtp(BareFrom(job), job.encoding, ace) + ">"
    + if job.encoding.smtputf8 then " SMTPUTF8" else ""
  }

  function RcptTo(job: SendState, recipient: string, allowsDsn: bool, ace: string -> Bytes): Bytes {
    "RCPT TO:<" + AddressForSmtp(recipient, job.encoding, ace) + ">"
    + if allowsDsn && job.dsn then " NOTIFY=success,failure" else ""
  }

  function Failed(job: SendState): (SendState, seq<Effect>) {
    (job.(error := USER_DEFINED_ERROR), [EmitResult(USER_DEFINED_ERROR)])
  }

  /** doStart, with prepare and analyzeAddresses. */
  function Start(job: SendState, caps: Capabilities, ace: string -> Bytes): (SendState, seq<Effect>) {
    if job.data == [] then Failed(job)
    else
      var prepared := job.(recipientsCopy := job.recipients);
      if job.recipients == [] then Failed(prepared)
      else if caps.sizeLimit > 0 && |job.data| > caps.sizeLimit then Failed(prepared)
      else
        var analyzed := prepared.(encoding := Analysis(AllAddresses(job)));
        if analyzed.encoding.smtputf8 && !caps.allowsSmtpUtf8 then Failed(analyzed)
        else (analyzed.(status := SendingReturnPath), [Send(MailFrom(analyzed, ace))])
  }

  /** sendNextRecipient. */
  function NextRecipient(job: SendState, allowsDsn: bool, ace: string -> Bytes): (SendState, seq<Effect>) {
    if job.recipientsCopy == [] then (job, [Abort(TakeFromEmptyList)])
    else (job.(recipientsCopy := job.recipientsCopy[1..]),
          [Send(RcptTo(job, job.recipientsCopy[0], allowsDsn, ace))])
  }

  /** The switch of handleResponse. */
  function Advance(job: SendState, r: ServerResponse, allowsDsn: bool, ace: string -> Bytes)
    : (SendState, seq<Effect>)
  {
    match job.status
    case Idle => (job, [])
    case SendingReturnPath =>
      if Matches(r.code, 25) then NextRecipient(job.(status := SendingRecipients), allowsDsn, ace) else (job, [])
    case SendingRecipients =>
      if !Matches(r.code, 25) then (job, [])
      else if job.recipientsCopy == [] then (job.(status := SendingData), [Send("DATA")])
      else NextRecipient(job, allowsDsn, ace)
    case SendingData =>
      (job, (if Matches(r.code, 354) then [Send(job.data), Send(LINE_DOT)] else [])
            + if Matches(r.code, 25) then [EmitResult(job.error)] else [])
  }

  /** handleResponse: handleErrors, and then the switch all the same. */
  function Handle(job: SendState, r: ServerResponse, allowsDsn: bool, ace: string -> Bytes)
    : (SendState, seq<Effect>)
  {
    if IsError(r) then
      var (failed, result) := Failed(job);
      var (next, more) := Advance(failed, r, allowsDsn, ace);
      (next, result + more)
    else Advance(job, r, allowsDsn, ace)
  }

  /** For an error reply the switch does nothing more: the codes exclude each other. */
  lemma ErrorEndsStep(job: SendState, r: ServerResponse, allowsDsn: bool, ace: string -> Bytes)
    requires IsError(r)
    ensures Handle(job, r, allowsDsn, ace) == Failed(job)
  {
    CodeRanges(r.code);
    var (failed, result) := Failed(job);
    assert Advance(failed, r, allowsDsn, ace).1 == [];
    assert result + [] == result;
  }

  /** takeFirst is safe: a job that waits for the answer to MAIL has recipients left. */
  predicate Live(job: SendState) {
    job.status == SendingReturnPath ==> job.recipientsCopy != []
  }

  /** No step aborts, none gives two results, and nothing follows a result. */
  lemma StepIsWellFormed(job: SendState, r: ServerResponse, allowsDsn: bool, ace: string -> Bytes)
    requires Live(job)
    ensures Live(Handle(job, r, allowsDsn, ace).0)
    ensures WellFormed(Handle(job, r, allowsDsn, ace).1)
    ensures forall e :: e in Handle(job, r, allowsDsn, ace).1 ==> !e.Authenticate?
  {
    CodeRanges(r.code);
    if IsError(r) {
      ErrorEndsStep(job, r, allowsDsn, ace);
    }
  }

  /** The message needs SMTPUTF8: some address has a non-ASCII local part. */
  predicate NeedsSmtpUtf8(job: SendState) {
    exists a | a in AllAddresses(job) :: NonAsciiLocalPart(a)
  }

  /**
   * When MAIL goes out. For a text given to setData, the limit the server
   * announced is compared with the text and one byte for each doubled dot.
   */
  lemma MailIsSentWhen(job: SendState, text: Bytes, caps: Capabilities, ace: string -> Bytes)
    requires job.data == Encode(text)
    ensures var (next, effects) := Start(job, caps, ace);
      if && text != [] && job.recipients != []
         && (caps.sizeLimit <= 0 || |text| + Occurrences(text, LINE_DOT) <= caps.sizeLimit)
         && (NeedsSmtpUtf8(job) ==> caps.allowsSmtpUtf8)
      then effects == [Send(MailFrom(next, ace))] && next.encoding.smtputf8 == NeedsSmtpUtf8(job)
           && (job.error == 0 ==> Started(next)) && Live(next)
      else effects == [EmitResult(USER_DEFINED_ERROR)] && next.status == job.status
  {
    EncodedSize(text);
    NeedsUtf8(job);
    StartsWhen(job, caps, ace, NeedsSmtpUtf8(job));
  }

  lemma StartsWhen(job: SendState, caps: Capabilities, ace: string -> Bytes, needsUtf8: bool)
    requires needsUtf8 == Analysis(AllAddresses(job)).smtputf8
    ensures var (next, effects) := Start(job, caps, ace);
      if && job.data != [] && job.recipients != []
         && (caps.sizeLimit <= 0 || |job.data| <= caps.sizeLimit)
         && (needsUtf8 ==> caps.allowsSmtpUtf8)
      then effects == [Send(MailFrom(next, ace))] && next.encoding.smtputf8 == needsUtf8
           && (job.error == 0 ==> Started(next)) && Live(next)
      else effects == [EmitResult(USER_DEFINED_ERROR)] && next.status == job.status
  {
  }

  lemma NeedsUtf8(job: SendState)
    ensures Analysis(AllAddresses(job)).smtputf8 <==> NeedsSmtpUtf8(job)
  {
  }

  /**
   * Without SMTPUTF8 a command that names an address is ASCII exactly when the
   * address is, or at least has an '@'.
   */
  lemma AsciiCommands(job: SendState, recipient: string, allowsDsn: bool, ace: string -> Bytes)
    requires job.encoding == Analysis(AllAddresses(job)) && !job.encoding.smtputf8
    requires forall domain :: IsAscii(ace(domain))
    ensures IsAscii(MailFrom(job, ace)) <==> IsAscii(BareFrom(job)) || '@' in BareFrom(job)
    ensures recipient in job.recipients ==>
      (IsAscii(RcptTo(job, recipient, allowsDsn, ace)) <==> IsAscii(recipient) || '@' in recipient)
  {
    if job.returnPath == "" {
      assert BareFrom(job) == [] && AddressForSmtp([], job.encoding, ace) == [];
    } else {
      AsciiOnTheWire(AllAddresses(job), BareFrom(job), ace);
    }
    AsciiMail(job, ace);
    if recipient in job.recipients {
      AsciiRecipient(job, recipient, allowsDsn, ace);
    }
  }

  lemma AsciiRecipient(job: SendState, recipient: string, allowsDsn: bool, ace: string -> Bytes)
    requires job.encoding == Analysis(AllAddresses(job)) && !job.encoding.smtputf8
    requires recipient in job.recipients
    requires forall domain :: IsAscii(ace(domain))
    ensures IsAscii(RcptTo(job, recipient, allowsDsn, ace)) <==> IsAscii(recipient) || '@' in recipient
  {
    AsciiOnTheWire(AllAddresses(job), recipient, ace);
    AsciiRcpt(job, recipient, allowsDsn, ace);
  }

  lemma AsciiMail(job: SendState, ace: string -> Bytes)
    ensures IsAscii(MailFrom(job, ace)) <==> IsAscii(AddressForSmtp(BareFrom(job), job.encoding, ace))
  {
    Framed("MAIL FROM:<", AddressForSmtp(BareFrom(job), job.encoding, ace), ">",
           if job.encoding.smtputf8 then " SMTPUTF8" else "");
  }

  lemma AsciiRcpt(job: SendState, recipient: string, allowsDsn: bool, ace: string -> Bytes)
    ensures IsAscii(RcptTo(job, recipient, allowsDsn, ace))
       <==> IsAscii(AddressForSmtp(recipient, job.encoding, ace))
  {
    Framed("RCPT TO:<", AddressForSmtp(recipient, job.encoding, ace), ">",
           if allowsDsn && job.dsn then " NOTIFY=success,failure" else "");
  }

  lemma Framed(before: Bytes, address: Bytes, after: Bytes, option: Bytes)
    requires IsAscii(before) && IsAscii(after) && IsAscii(option)
    ensures IsAscii(before + address + after + option) <==> IsAscii(address)
  {
    AsciiAppend(before, address);
    AsciiAppend(before + address, after);
    AsciiAppend(before + address + after, option);
  }

  // ---------------------------------------------------------------------
  // What a server reads in the commands
  // ---------------------------------------------------------------------

  function Sent(job: SendState, address: string, ace: string -> Bytes): Bytes {
    AddressForSmtp(address, job.encoding, ace)
  }

  function MailParameters(job: SendState): seq<Bytes> {
    if job.encoding.smtputf8 then ["SMTPUTF8"] else []
  }

  function RcptParameters(job: SendState, allowsDsn: bool): seq<Bytes> {
    if allowsDsn && job.dsn then ["NOTIFY=success,failure"] else []
  }

  /**
   * The first command is read as MAIL from the sender, with SMTPUTF8 exactly when
   * the message needs it; if and only if the sender fits between the brackets.
   */
  lemma MailIsRead(job: SendState, ace: string -> Bytes)
    ensures R.ReadCommand(MailFrom(job, ace)) == R.Mail(Sent(job, BareFrom(job), ace), MailParameters(job))
       <==> R.FitsBrackets(Sent(job, BareFrom(job), ace))
  {
    var sent, parameter: Bytes := Sent(job, BareFrom(job), ace), if job.encoding.smtputf8 then "SMTPUTF8" else [];
    R.PathIsRead(sent, parameter);
    R.MailLine(sent + ">" + Following(parameter));
    InBrackets("MAIL FROM:<", sent, Following(parameter));
    SmtpUtf8IsOneWord();
  }

  /** A parameter as it follows the path. */
  function Following(parameter: Bytes): Bytes {
    if parameter == [] then [] else [' '] + parameter
  }

  lemma InBrackets(verb: Bytes, sent: Bytes, option: Bytes)
    ensures verb + sent + ">" + option == verb + (sent + ">" + option)
  {
  }

  /**
   * The others as RCPT to the recipient, with NOTIFY exactly when the session allows
   * it and the job asks for it; if and only if the recipient fits between the brackets.
   */
  lemma RcptIsRead(job: SendState, recipient: string, allowsDsn: bool, ace: string -> Bytes)
    ensures R.ReadCommand(RcptTo(job, recipient, allowsDsn, ace))
         == R.Rcpt(Sent(job, recipient, ace), RcptParameters(job, allowsDsn))
       <==> R.FitsBrackets(Sent(job, recipient, ace))
  {
    var sent := Sent(job, recipient, ace);
    if allowsDsn && job.dsn {
      NotifyIsOneWord();
      RcptWith(sent, "NOTIFY=success,failure");
      InBrackets("RCPT TO:<", sent, " NOTIFY=success,failure");
    } else {
      RcptWith(sent, []);
      InBrackets("RCPT TO:<", sent, []);
    }
  }

  /** For instance, `a>b` is taken as an address, and no server makes sense of the RCPT for it. */
  lemma UnreadableRcpt(job: SendState, ace: string -> Bytes)
    requires !job.encoding.punycode
    ensures BareAddress("a>b") == "a>b"
    ensures !R.FitsBrackets(Sent(job, "a>b", ace))
    ensures R.ReadCommand(RcptTo(job, "a>b", false, ace)) == R.Unrecognized
  {
    var address, option: Bytes := "a>b", [];
    assert address[0..] == address;
    Utf8OfAscii(address);
    assert Sent(job, address, ace) == address;
    EndsEarly(address);
    R.RcptLine(address + ">" + option);
    InBrackets("RCPT TO:<", address, option);
    assert address + ">" + option == "a>b>";
  }

  lemma EndsEarly(address: Bytes)
    requires address == "a>b"
    ensures !R.FitsBrackets(address) && R.ReadPath("a>b>") == None
  {
    assert address + ">" == "a>b>";
    assert R.PathEnd("a>b>", 0, false) == R.PathEnd("a>b>", 1, false) == 1;
    assert "a>b>"[2..] == "b>";
  }

  lemma RcptWith(sent: Bytes, parameter: Bytes)
    requires ' ' !in parameter
    ensures R.ReadCommand("RCPT TO:<" + (sent + ">" + Following(parameter)))
         == R.Rcpt(sent, if parameter == [] then [] else [parameter])
       <==> R.FitsBrackets(sent)
  {
    R.PathIsRead(sent, parameter);
    R.RcptLine(sent + ">" + Following(parameter));
  }

  lemma SmtpUtf8IsOneWord()
    ensures ' ' !in "SMTPUTF8" && Following("SMTPUTF8") == " SMTPUTF8"
  {
    assert [' '] + "SMTPUTF8" == " SMTPUTF8";
  }

  lemma NotifyIsOneWord()
    ensures ' ' !in "NOTIFY=success,failure"
    ensures Following("NOTIFY=success,failure") == " NOTIFY=success,failure"
  {
  }

  /** The sender that MAIL names is the address in what was given to setFrom. */
  lemma SenderIs(job: SendState, from: string)
    requires job.returnPath == ReturnPath(from)
    ensures BareFrom(job) == BareAddress(from) && BareAddress(from) in AllAddresses(job)
  {
    ReturnPathHolds(from);
    assert AllAddresses(job)[0] == BareFrom(job);
  }

  // ---------------------------------------------------------------------
  // Whole dialogues
  // ---------------------------------------------------------------------

  datatype Outcome = Outcome(job: SendState, commands: seq<Bytes>, results: seq<nat>)

  /** The commands and results of a started job; after a result it hears no more. */
  function Dialogue(job: SendState, heard: seq<Heard>, ace: string -> Bytes): Outcome
    decreases |heard|
  {
    if heard == [] then Outcome(job, [], [])
    else
      var before := Dialogue(job, heard[..|heard| - 1], ace);
      if before.results != [] then before
      else
        var last := heard[|heard| - 1];
        var (next, effects) := Handle(before.job, last.reply, last.allowsDsn, ace);
        Outcome(next, before.commands + Commands(effects), Results(effects))
  }

  /** A job as a successful doStart leaves it. */
  predicate Started(job: SendState) {
    && job.status == SendingReturnPath
    && job.recipients != [] && job.recipientsCopy == job.recipients
    && job.error == 0
  }

  // The specification counts replies.

  predicate Accepts(h: Heard) { Matches(h.reply.code, 25) }

  predicate GoAhead(h: Heard) { Matches(h.reply.code, 354) }

  function Accepted(heard: seq<Heard>): seq<Heard> {
    if heard == [] then []
    else
      var last := heard[|heard| - 1];
      Accepted(heard[..|heard| - 1]) + if Accepts(last) then [last] else []
  }

  /** How many 354 replies arrived after DATA was sent, that is after `needed` acceptances. */
  function GoAheads(heard: seq<Heard>, needed: nat): nat {
    if heard == [] then 0
    else
      var before := heard[..|heard| - 1];
      GoAheads(before, needed) + if GoAhead(heard[|heard| - 1]) && |Accepted(before)| >= needed then 1 else 0
  }

  predicate NoErrors(heard: seq<Heard>) {
    forall i :: 0 <= i < |heard| ==> !IsError(heard[i].reply)
  }

  function Bodies(job: SendState, n: nat): seq<Bytes> {
    if n == 0 then [] else Bodies(job, n - 1) + BodyCommands(job.data)
  }

  function Min(a: nat, b: nat): nat { if a <= b then a else b }

  /** The RCPT commands for the first k recipients, each sent on one acceptance. */
  function RcptCommands(job: SendState, accepted: seq<Heard>, k: nat, ace: string -> Bytes): seq<Bytes>
    requires k <= |accepted| && k <= |job.recipients|
  {
    if k == 0 then []
    else RcptCommands(job, accepted, k - 1, ace)
         + [RcptTo(job, job.recipients[k - 1], accepted[k - 1].allowsDsn, ace)]
  }

  /** The commands a job has sent, MAIL apart, by the replies it has heard. */
  function Trace(job: SendState, heard: seq<Heard>, ace: string -> Bytes): seq<Bytes> {
    TraceOf(job, Accepted(heard), GoAheads(heard, |job.recipients| + 1), ace)
  }

  function TraceOf(job: SendState, accepted: seq<Heard>, goAheads: nat, ace: string -> Bytes): seq<Bytes> {
    var n := |job.recipients|;
    Assemble(RcptCommands(job, accepted, Min(|accepted|, n), ace), |accepted| > n, Bodies(job, goAheads))
  }

  function Assemble(rcpts: seq<Bytes>, data: bool, bodies: seq<Bytes>): seq<Bytes> {
    rcpts + (if data then ["DATA"] else []) + bodies
  }

  /** Reply k concludes the job with success: it is acceptance number n + 2, and no error came before it. */
  predicate SucceedsAt(job: SendState, heard: seq<Heard>, k: nat) {
    k < |heard| && NoErrors(heard[..k]) && Accepts(heard[k]) && |Accepted(heard[..k])| == |job.recipients| + 1
  }

  /** Reply k concludes the job with failure: the first error, before acceptance number n + 2. */
  predicate FailsAt(job: SendState, heard: seq<Heard>, k: nat) {
    k < |heard| && NoErrors(heard[..k]) && IsError(heard[k].reply) && |Accepted(heard[..k])| <= |job.recipients| + 1
  }

  predicate ConcludesAt(job: SendState, heard: seq<Heard>, k: nat) {
    SucceedsAt(job, heard, k) || FailsAt(job, heard, k)
  }

  /** The state of an unfinished job, by the replies it has heard. */
  predicate Pending(job: SendState, heard: seq<Heard>, outcome: Outcome, ace: string -> Bytes) {
    && outcome.results == []
    && outcome.commands == Trace(job, heard, ace)
    && outcome.job == AfterAcceptances(job, |Accepted(heard)|)
  }

  function AfterAcceptances(job: SendState, c: nat): SendState {
    var n := |job.recipients|;
    job.(recipientsCopy := job.recipients[Min(c, n)..],
         status := if c == 0 then SendingReturnPath else if c <= n then SendingRecipients else SendingData)
  }

  lemma {:induction false} PendingUntilConcluded(job: SendState, heard: seq<Heard>, ace: string -> Bytes)
    requires Started(job) && NoErrors(heard) && |Accepted(heard)| <= |job.recipients| + 1
    ensures Pending(job, heard, Dialogue(job, heard, ace), ace)
    decreases |heard|
  {
    if heard == [] {
      assert job.recipients[0..] == job.recipients;
      assert Trace(job, heard, ace) == [];
    } else {
      var before := heard[..|heard| - 1];
      PendingUntilConcluded(job, before, ace);
      PendingStep(job, heard, ace);
    }
  }

  lemma {:induction false} NoGoAheads(heard: seq<Heard>, needed: nat)
    requires |Accepted(heard)| < needed
    ensures GoAheads(heard, needed) == 0
    decreases |heard|
  {
    if heard != [] {
      NoGoAheads(heard[..|heard| - 1], needed);
    }
  }

  lemma AssembleMore(rcpts: seq<Bytes>, rcpt: Bytes, bodies: seq<Bytes>, body: seq<Bytes>)
    ensures Assemble(rcpts + [rcpt], false, []) == Assemble(rcpts, false, []) + [rcpt]
    ensures Assemble(rcpts, true, []) == Assemble(rcpts, false, []) + ["DATA"]
    ensures Assemble(rcpts, true, bodies + body) == Assemble(rcpts, true, bodies) + body
  {
  }

  lemma {:induction false} RcptCommandsFrame(job: SendState, accepted: seq<Heard>, more: seq<Heard>, k: nat,
                                             ace: string -> Bytes)
    requires k <= |accepted| && k <= |job.recipients|
    ensures RcptCommands(job, accepted + more, k, ace) == RcptCommands(job, accepted, k, ace)
  {
    if k > 0 {
      RcptCommandsFrame(job, accepted, more, k - 1, ace);
      assert (accepted + more)[k - 1] == accepted[k - 1];
    }
  }

  /** The next command after c acceptances. */
  function NextCommand(job: SendState, c: nat, allowsDsn: bool, ace: string -> Bytes): Bytes {
    if c < |job.recipients| then RcptTo(job, job.recipients[c], allowsDsn, ace) else "DATA"
  }

  /** What an acceptance adds to the trace. */
  lemma TraceAccepted(job: SendState, heard: seq<Heard>, ace: string -> Bytes)
    requires heard != [] && Accepts(heard[|heard| - 1]) && |Accepted(heard)| <= |job.recipients| + 1
    ensures var before, last := heard[..|heard| - 1], heard[|heard| - 1];
      Trace(job, heard, ace)
      == Trace(job, before, ace) + [NextCommand(job, |Accepted(before)|, last.allowsDsn, ace)]
  {
    var before, last := heard[..|heard| - 1], heard[|heard| - 1];
    NoTextYet(heard, |job.recipients| + 1);
    TraceOfAccepted(job, Accepted(before), last, ace);
  }

  lemma TraceOfAccepted(job: SendState, accepted: seq<Heard>, last: Heard, ace: string -> Bytes)
    requires |accepted| <= |job.recipients|
    ensures TraceOf(job, accepted + [last], 0, ace)
         == TraceOf(job, accepted, 0, ace) + [NextCommand(job, |accepted|, last.allowsDsn, ace)]
  {
    AcceptedCommands(job, accepted, last, ace);
  }

  /** An acceptance that is not more than are needed finds the text not asked for. */
  lemma NoTextYet(heard: seq<Heard>, needed: nat)
    requires heard != [] && Accepts(heard[|heard| - 1]) && |Accepted(heard)| <= needed
    ensures var before, last := heard[..|heard| - 1], heard[|heard| - 1];
      && Accepted(heard) == Accepted(before) + [last]
      && GoAheads(before, needed) == 0 && GoAheads(heard, needed) == 0
  {
    var before, last := heard[..|heard| - 1], heard[|heard| - 1];
    NoGoAheads(before, needed);
    CodeRanges(last.reply.code);
  }

  lemma AcceptedCommands(job: SendState, accepted: seq<Heard>, last: Heard, ace: string -> Bytes)
    requires |accepted| <= |job.recipients|
    ensures var n := |job.recipients|;
      Assemble(RcptCommands(job, accepted + [last], Min(|accepted| + 1, n), ace), |accepted| + 1 > n, [])
      == Assemble(RcptCommands(job, accepted, |accepted|, ace), false, [])
         + [NextCommand(job, |accepted|, last.allowsDsn, ace)]
  {
    var rcpts, next := RcptCommands(job, accepted, |accepted|, ace), NextCommand(job, |accepted|, last.allowsDsn, ace);
    RcptCommandsFrame(job, accepted, [last], |accepted|, ace);
    AssembleMore(rcpts, next, [], []);
    if |accepted| < |job.recipients| {
      assert RcptCommands(job, accepted + [last], |accepted| + 1, ace) == rcpts + [next];
    }
  }

  /** What any other reply adds to it: the text, on a 354 after DATA. */
  lemma TraceNotAccepted(job: SendState, heard: seq<Heard>, ace: string -> Bytes)
    requires heard != [] && !Accepts(heard[|heard| - 1]) && |Accepted(heard)| <= |job.recipients| + 1
    ensures var before, last := heard[..|heard| - 1], heard[|heard| - 1];
      Trace(job, heard, ace) == Trace(job, before, ace) +
        if GoAhead(last) && |Accepted(before)| == |job.recipients| + 1 then BodyCommands(job.data) else []
  {
    var before, last := heard[..|heard| - 1], heard[|heard| - 1];
    var n, accepted := |job.recipients|, Accepted(before);
    NotAccepted(heard, n + 1);
    if GoAhead(last) && |accepted| == n + 1 {
      AnotherBody(job, accepted, GoAheads(before, n + 1), ace);
    } else {
      assert Trace(job, before, ace) + [] == Trace(job, before, ace);
    }
  }

  lemma NotAccepted(heard: seq<Heard>, needed: nat)
    requires heard != [] && !Accepts(heard[|heard| - 1])
    ensures var before, last := heard[..|heard| - 1], heard[|heard| - 1];
      && Accepted(heard) == Accepted(before)
      && GoAheads(heard, needed)
         == GoAheads(before, needed) + if GoAhead(last) && |Accepted(before)| >= needed then 1 else 0
  {
  }

  lemma AnotherBody(job: SendState, accepted: seq<Heard>, g: nat, ace: string -> Bytes)
    requires |accepted| == |job.recipients| + 1
    ensures TraceOf(job, accepted, g + 1, ace) == TraceOf(job, accepted, g, ace) + BodyCommands(job.data)
  {
    AssembleMore(RcptCommands(job, accepted, |job.recipients|, ace), [], Bodies(job, g), BodyCommands(job.data));
  }

  lemma PendingStep(job: SendState, heard: seq<Heard>, ace: string -> Bytes)
    requires Started(job) && NoErrors(heard) && |Accepted(heard)| <= |job.recipients| + 1
    requires heard != [] && Pending(job, heard[..|heard| - 1], Dialogue(job, heard[..|heard| - 1], ace), ace)
    ensures Pending(job, heard, Dialogue(job, heard, ace), ace)
  {
    var before, last := heard[..|heard| - 1], heard[|heard| - 1];
    var state := Dialogue(job, before, ace).job;
    CodeRanges(last.reply.code);
    assert !IsError(last.reply);
    if Accepts(last) {
      TraceAccepted(job, heard, ace);
      AcceptedStep(job, state, |Accepted(before)|, last, ace);
    } else {
      TraceNotAccepted(job, heard, ace);
      assert Accepted(heard) == Accepted(before);
      OtherStep(job, state, |Accepted(before)|, last, ace);
    }
  }

  /** A reply that is neither an acceptance nor an error: only a 354 after DATA sends anything. */
  lemma OtherStep(job: SendState, state: SendState, c: nat, last: Heard, ace: string -> Bytes)
    requires Started(job) && c <= |job.recipients| + 1 && state == AfterAcceptances(job, c)
    requires !Accepts(last) && !IsError(last.reply)
    ensures var (next, effects) := Handle(state, last.reply, last.allowsDsn, ace);
      && next == state
      && Commands(effects)
         == (if GoAhead(last) && c == |job.recipients| + 1 then BodyCommands(job.data) else [])
      && Results(effects) == []
  {
    CodeRanges(last.reply.code);
    var effects := Handle(state, last.reply, last.allowsDsn, ace).1;
    if GoAhead(last) && c == |job.recipients| + 1 {
      assert effects == [Send(job.data), Send(LINE_DOT)];
      assert effects[1..] == [Send(LINE_DOT)] && effects[1..][1..] == [];
      assert Commands(effects) == [job.data] + ([LINE_DOT] + Commands([]));
      assert Results(effects) == Results(effects[1..]) == Results([]);
    }
  }

  /** One acceptance moves an unfinished job on by one command. */
  lemma AcceptedStep(job: SendState, state: SendState, c: nat, last: Heard, ace: string -> Bytes)
    requires Started(job) && c <= |job.recipients| && Accepts(last) && state == AfterAcceptances(job, c)
    ensures var (next, effects) := Handle(state, last.reply, last.allowsDsn, ace);
      && next == AfterAcceptances(job, c + 1)
      && Commands(effects)
         == [NextCommand(job, c, last.allowsDsn, ace)]
      && Results(effects) == []
  {
    CodeRanges(last.reply.code);
    if c < |job.recipients| {
      assert job.recipients[c..][1..] == job.recipients[c + 1..];
    }
  }

  // ---------------------------------------------------------------------
  // The verdict
  // ---------------------------------------------------------------------

  /** Once there is a result the dialogue stands still. */
  lemma {:induction false} Finished(job: SendState, heard: seq<Heard>, k: nat, ace: string -> Bytes)
    requires k <= |heard| && Dialogue(job, heard[..k], ace).results != []
    ensures Dialogue(job, heard, ace) == Dialogue(job, heard[..k], ace)
    decreases |heard|
  {
    if k == |heard| {
      assert heard[..k] == heard;
    } else {
      var before := heard[..|heard| - 1];
      assert before[..k] == heard[..k];
      Finished(job, before, k, ace);
    }
  }

  /** One more reply. */
  lemma HeardOneMore(job: SendState, heard: seq<Heard>, h: Heard, ace: string -> Bytes)
    requires Dialogue(job, heard, ace).results == []
    ensures var before := Dialogue(job, heard, ace);
      var (next, effects) := Handle(before.job, h.reply, h.allowsDsn, ace);
      Dialogue(job, heard + [h], ace) == Outcome(next, before.commands + Commands(effects), Results(effects))
  {
    assert (heard + [h])[..|heard|] == heard;
  }

  /** The reply that concludes the job gives its result and sends nothing. */
  lemma Concludes(job: SendState, heard: seq<Heard>, k: nat, ace: string -> Bytes)
    requires Started(job) && ConcludesAt(job, heard, k)
    ensures Dialogue(job, heard, ace).results == [if SucceedsAt(job, heard, k) then 0 else USER_DEFINED_ERROR]
    ensures Dialogue(job, heard, ace).commands == Trace(job, heard[..k], ace)
  {
    ConcludingReply(job, heard, k);
    EndsWith(job, heard[..k], heard[k], ace);
    assert heard[..k + 1] == heard[..k] + [heard[k]];
    Finished(job, heard, k + 1, ace);
  }

  lemma EndsWith(job: SendState, before: seq<Heard>, last: Heard, ace: string -> Bytes)
    requires Started(job) && NoErrors(before) && |Accepted(before)| <= |job.recipients| + 1
    requires IsError(last.reply) || (Accepts(last) && |Accepted(before)| == |job.recipients| + 1)
    ensures var end := Dialogue(job, before + [last], ace);
      && end.results == [if IsError(last.reply) then USER_DEFINED_ERROR else 0]
      && end.commands == Trace(job, before, ace)
  {
    PendingUntilConcluded(job, before, ace);
    LastReply(job, before, last, ace);
  }

  /** An error and an acceptance exclude each other. */
  lemma ConcludingReply(job: SendState, heard: seq<Heard>, k: nat)
    requires ConcludesAt(job, heard, k)
    ensures NoErrors(heard[..k]) && |Accepted(heard[..k])| <= |job.recipients| + 1
    ensures SucceedsAt(job, heard, k) <==> !IsError(heard[k].reply)
    ensures IsError(heard[k].reply) || (Accepts(heard[k]) && |Accepted(heard[..k])| == |job.recipients| + 1)
  {
    CodeRanges(heard[k].reply.code);
  }

  lemma LastReply(job: SendState, before: seq<Heard>, last: Heard, ace: string -> Bytes)
    requires Started(job) && Pending(job, before, Dialogue(job, before, ace), ace)
    requires IsError(last.reply) || (Accepts(last) && |Accepted(before)| == |job.recipients| + 1)
    ensures var end := Dialogue(job, before + [last], ace);
      && end.results == [if IsError(last.reply) then USER_DEFINED_ERROR else 0]
      && end.commands == Trace(job, before, ace)
  {
    HeardOneMore(job, before, last, ace);
    var state, commands := Dialogue(job, before, ace).job, Trace(job, before, ace);
    if IsError(last.reply) {
      LastError(state, last, ace);
    } else {
      LastAcceptance(job, state, last, ace);
    }
    assert commands + [] == commands;
  }

  lemma LastError(state: SendState, last: Heard, ace: string -> Bytes)
    requires IsError(last.reply)
    ensures var effects := Handle(state, last.reply, last.allowsDsn, ace).1;
      Commands(effects) == [] && Results(effects) == [USER_DEFINED_ERROR]
  {
    ErrorEndsStep(state, last.reply, last.allowsDsn, ace);
    OneResult(USER_DEFINED_ERROR);
  }

  lemma LastAcceptance(job: SendState, state: SendState, last: Heard, ace: string -> Bytes)
    requires Started(job) && Accepts(last) && state == AfterAcceptances(job, |job.recipients| + 1)
    ensures var effects := Handle(state, last.reply, last.allowsDsn, ace).1;
      Commands(effects) == [] && Results(effects) == [0]
  {
    CodeRanges(last.reply.code);
    assert Handle(state, last.reply, last.allowsDsn, ace).1 == [EmitResult(0)];
    OneResult(0);
  }

  lemma OneResult(error: nat)
    ensures Commands([EmitResult(error)]) == [] && Results([EmitResult(error)]) == [error]
  {
    assert [EmitResult(error)][1..] == [];
  }

  /** Either some reply concludes the job, or it is still pending. */
  lemma {:induction false} ConcludesOrPending(job: SendState, heard: seq<Heard>) returns (k: nat)
    requires job.recipients != []
    ensures ConcludesAt(job, heard, k) || (NoErrors(heard) && |Accepted(heard)| <= |job.recipients| + 1)
    decreases |heard|
  {
    if heard == [] {
      k := 0;
    } else {
      var before := heard[..|heard| - 1];
      k := ConcludesOrPending(job, before);
      if ConcludesAt(job, before, k) {
        assert before[..k] == heard[..k];
      } else {
        k := |heard| - 1;
      }
    }
  }

  /**
   * The verdict of a started job with n recipients, for every list of replies:
   * success exactly when acceptance number n + 2 comes before any error, failure
   * exactly when an error comes first, and otherwise no result; never two.
   */
  lemma Verdict(job: SendState, heard: seq<Heard>, ace: string -> Bytes)
    requires Started(job)
    ensures var results := Dialogue(job, heard, ace).results;
      && (results == [0] <==> Succeeds(job, heard))
      && (results == [USER_DEFINED_ERROR] <==> Fails(job, heard))
      && (results == [] <==> NoErrors(heard) && |Accepted(heard)| <= |job.recipients| + 1)
      && (results == [] || results == [0] || results == [USER_DEFINED_ERROR])
  {
    if NoErrors(heard) && |Accepted(heard)| <= |job.recipients| + 1 {
      PendingUntilConcluded(job, heard, ace);
    } else {
      var k := ConcludesOrPending(job, heard);
      ConcludedResult(job, heard, k, ace);
    }
    if Succeeds(job, heard) {
      var k :| SucceedsAt(job, heard, k);
      ConcludedResult(job, heard, k, ace);
    }
    if Fails(job, heard) {
      var k :| FailsAt(job, heard, k);
      ConcludedResult(job, heard, k, ace);
    }
  }

  ghost predicate Succeeds(job: SendState, heard: seq<Heard>) { exists k :: SucceedsAt(job, heard, k) }

  ghost predicate Fails(job: SendState, heard: seq<Heard>) { exists k :: FailsAt(job, heard, k) }

  lemma ConcludedResult(job: SendState, heard: seq<Heard>, k: nat, ace: string -> Bytes)
    requires Started(job) && ConcludesAt(job, heard, k)
    ensures SucceedsAt(job, heard, k) ==> Dialogue(job, heard, ace).results == [0]
    ensures FailsAt(job, heard, k) ==> Dialogue(job, heard, ace).results == [USER_DEFINED_ERROR]
  {
    Concludes(job, heard, k, ace);
    CodeRanges(heard[k].reply.code);
  }

  lemma SuccessfulCommands(job: SendState, heard: seq<Heard>, k: nat, ace: string -> Bytes)
    requires Started(job) && SucceedsAt(job, heard, k)
    ensures Dialogue(job, heard, ace).commands
         == RcptCommands(job, Accepted(heard[..k]), |job.recipients|, ace) + ["DATA"]
            + Bodies(job, GoAheads(heard[..k], |job.recipients| + 1))
  {
    Concludes(job, heard, k, ace);
  }

  /**
   * What a successful job has sent: every recipient in list order, DATA, and the
   * text once for each 354 heard after DATA.
   */
  lemma SuccessfulTrace(job: SendState, heard: seq<Heard>, k: nat, ace: string -> Bytes)
    requires Started(job) && SucceedsAt(job, heard, k)
    ensures Dialogue(job, heard, ace).commands
         == RcptCommands(job, Accepted(heard[..k]), |job.recipients|, ace) + ["DATA"]
            + Bodies(job, GoAheads(heard[..k], |job.recipients| + 1))
    ensures EnvelopeIsRead(job, Dialogue(job, heard, ace).commands, Accepted(heard[..k]), ace)
  {
    var accepted := Accepted(heard[..k]);
    SuccessfulCommands(job, heard, k, ace);
    RcptsAreRead(job, accepted, ace);
    R.DataLine();
    EnvelopeOf(job, RcptCommands(job, accepted, |job.recipients|, ace), accepted,
               Bodies(job, GoAheads(heard[..k], |job.recipients| + 1)), ace);
  }

  lemma EnvelopeOf(job: SendState, rcpts: seq<Bytes>, accepted: seq<Heard>, rest: seq<Bytes>, ace: string -> Bytes)
    requires |rcpts| == |job.recipients| <= |accepted|
    requires forall i :: 0 <= i < |rcpts| ==>
      (R.ReadCommand(rcpts[i])
         == R.Rcpt(Sent(job, job.recipients[i], ace), RcptParameters(job, accepted[i].allowsDsn))
       <==> R.FitsBrackets(Sent(job, job.recipients[i], ace)))
    requires R.ReadCommand("DATA") == R.Data
    ensures EnvelopeIsRead(job, rcpts + ["DATA"] + rest, accepted, ace)
  {
    var commands := rcpts + ["DATA"] + rest;
    forall i | 0 <= i < |rcpts| ensures commands[i] == rcpts[i] {
    }
    assert commands[|rcpts|] == "DATA";
  }

  /**
   * A server reads these commands as RCPT for each recipient, in order, with NOTIFY
   * exactly when the session allowed it when the one before was accepted and the
   * job asks for it, and then DATA. (A recipient that does not fit between brackets
   * is read as something else.)
   */
  predicate EnvelopeIsRead(job: SendState, commands: seq<Bytes>, accepted: seq<Heard>, ace: string -> Bytes) {
    var n := |job.recipients|;
    && n <= |accepted| && n < |commands|
    && (forall i :: 0 <= i < n ==>
          (R.ReadCommand(commands[i])
             == R.Rcpt(Sent(job, job.recipients[i], ace), RcptParameters(job, accepted[i].allowsDsn))
           <==> R.FitsBrackets(Sent(job, job.recipients[i], ace))))
    && R.ReadCommand(commands[n]) == R.Data
  }

  lemma {:induction false} RcptCommandsAt(job: SendState, accepted: seq<Heard>, k: nat, i: nat, ace: string -> Bytes)
    requires i < k <= |accepted| && k <= |job.recipients|
    ensures |RcptCommands(job, accepted, k, ace)| == k
    ensures RcptCommands(job, accepted, k, ace)[i] == RcptTo(job, job.recipients[i], accepted[i].allowsDsn, ace)
  {
    if i < k - 1 {
      RcptCommandsAt(job, accepted, k - 1, i, ace);
    } else if k > 1 {
      RcptCommandsAt(job, accepted, k - 1, 0, ace);
    }
  }

  lemma RcptsAreRead(job: SendState, accepted: seq<Heard>, ace: string -> Bytes)
    requires 0 < |job.recipients| <= |accepted|
    ensures var n := |job.recipients|;
      var rcpts := RcptCommands(job, accepted, n, ace);
      && |rcpts| == n
      && forall i :: 0 <= i < n ==>
           (R.ReadCommand(rcpts[i])
              == R.Rcpt(Sent(job, job.recipients[i], ace), RcptParameters(job, accepted[i].allowsDsn))
            <==> R.FitsBrackets(Sent(job, job.recipients[i], ace)))
  {
    var n := |job.recipients|;
    RcptCommandsAt(job, accepted, n, 0, ace);
    forall i | 0 <= i < n
      ensures R.ReadCommand(RcptCommands(job, accepted, n, ace)[i])
           == R.Rcpt(Sent(job, job.recipients[i], ace), RcptParameters(job, accepted[i].allowsDsn))
         <==> R.FitsBrackets(Sent(job, job.recipients[i], ace))
    {
      RcptCommandsAt(job, accepted, n, i, ace);
      RcptIsRead(job, job.recipients[i], accepted[i].allowsDsn, ace);
    }
  }

  /** A 354 that came when DATA had been sent. */
  predicate GoAheadAt(heard: seq<Heard>, i: nat, needed: nat)
    requires i < |heard|
  {
    GoAhead(heard[i]) && |Accepted(heard[..i])| >= needed
  }

  predicate NeverGoesAhead(heard: seq<Heard>, needed: nat) {
    forall i :: 0 <= i < |heard| ==> !GoAheadAt(heard, i, needed)
  }

  lemma {:induction false} NoGoAheadsIff(heard: seq<Heard>, needed: nat)
    ensures GoAheads(heard, needed) == 0 <==> NeverGoesAhead(heard, needed)
    decreases |heard|
  {
    if heard != [] {
      var before := heard[..|heard| - 1];
      NoGoAheadsIff(before, needed);
      forall i | 0 <= i < |before| ensures GoAheadAt(heard, i, needed) == GoAheadAt(before, i, needed) {
        assert before[..i] == heard[..i];
      }
      assert GoAheads(heard, needed)
          == GoAheads(before, needed) + if GoAheadAt(heard, |before|, needed) then 1 else 0;
    }
  }

  lemma {:induction false} BodiesLength(job: SendState, n: nat)
    ensures |Bodies(job, n)| == 2 * n
  {
    if n > 0 {
      BodiesLength(job, n - 1);
    }
  }

  /**
   * How often a successful job has sent its text: not at all exactly when no 354
   * came between DATA and the last acceptance.
   */
  lemma TextIsMissingIff(job: SendState, heard: seq<Heard>, k: nat, ace: string -> Bytes)
    requires Started(job) && SucceedsAt(job, heard, k)
    ensures var n := |job.recipients|;
      Dialogue(job, heard, ace).commands == RcptCommands(job, Accepted(heard[..k]), n, ace) + ["DATA"]
      <==> NeverGoesAhead(heard[..k], n + 1)
  {
    var n := |job.recipients|;
    var g, rcpts := GoAheads(heard[..k], n + 1), RcptCommands(job, Accepted(heard[..k]), n, ace);
    SuccessfulCommands(job, heard, k, ace);
    NoGoAheadsIff(heard[..k], n + 1);
    BodiesLength(job, g);
    assert |rcpts + ["DATA"] + Bodies(job, g)| == |rcpts + ["DATA"]| + 2 * g;
    if g == 0 {
      assert rcpts + ["DATA"] + [] == rcpts + ["DATA"];
    }
  }

  /**
   * The text may be missing altogether: a server that answers DATA with 250
   * instead of 354 makes the job succeed without having sent it.
   */
  lemma SuccessWithoutText(job: SendState, ace: string -> Bytes)
    requires Started(job) && |job.recipients| == 1
    ensures var ok := Heard(ServerResponse(250, [], false), false, NO_STEP);
      && Dialogue(job, [ok, ok, ok], ace).results == [0]
      && Dialogue(job, [ok, ok, ok], ace).commands == [RcptTo(job, job.recipients[0], false, ace), "DATA"]
  {
    var ok := Heard(ServerResponse(250, [], false), false, NO_STEP);
    var heard := [ok, ok, ok];
    TwoAcceptances(ok);
    assert heard[..2] == [ok, ok];
    assert SucceedsAt(job, heard, 2);
    ConcludedResult(job, heard, 2, ace);
    SuccessfulCommands(job, heard, 2, ace);
    assert RcptCommands(job, [ok, ok], 1, ace) == [] + [RcptTo(job, job.recipients[0], false, ace)];
  }

  lemma TwoAcceptances(ok: Heard)
    requires ok.reply.code == 250
    ensures Accepts(ok) && NoErrors([ok, ok]) && Accepted([ok, ok]) == [ok, ok] && GoAheads([ok, ok], 2) == 0
  {
    CodeRanges(250);
    assert [ok, ok][..1] == [ok] && [ok][..0] == [];
    assert Accepted([ok]) == [ok];
    assert GoAheads([ok], 2) == 0;
  }
}
