# KSmtp client engine: model and proofs

KSmtp sends mail over SMTP for KDE programs. This project models its engine in
Dafny and proves what every run of it keeps: the session with its state machine
and job scheduler, the send and login jobs, the encoding of texts and addresses,
the parser of server replies, and the thread that writes and reads the socket.

The program is C++ on Qt and consists of objects that react to events. Each of
these objects is a class here, with the same fields and methods, and every method
is proved equal to a function from the old state to the new one. The theorems are
about those functions: about one step, about every run, and about several objects
together. Nothing has been executed.

| module | models |
|---|---|
| `ByteArrays` | the operations of QByteArray and QString that are used |
| `ReplyCodes` | `ServerResponse` and `isCode` |
| `Transparency` | `setData` and the terminator, with the receiver of section 4.5.2 of RFC 5321 |
| `Addresses` | taking addresses out of the input, and their encoding (section 3.4 of RFC 6531) |
| `CommandReader` | a server's reading of command lines: section 4.1.1 of RFC 5321, RFC 4954, RFC 3207, RFC 4616 |
| `JobEffects` | what a job does to its session |
| `SendDialogue`, `SendJobs` | SendJob: its dialogue as functions and theorems; the object |
| `LoginDialogue`, `LoginJobs` | LoginJob, in the same way |
| `SessionModel`, `Sessions` | SessionPrivate: the functions of each event, and runs; the object |
| `RequestLog` | reading the log of what the session asks of its thread |
| `Scheduling` | order, exclusivity and wake-up of jobs in every run |
| `RunRules` | rules that a session's surroundings may keep, and some runs that do |
| `Encryption` | STARTTLS (RFC 3207) and TLS in every run, and when the `qFatal` of a login can fire |
| `EarlyJobs`, `Hearings` | jobs that run before the session is ready; what a job has heard, and when |
| `Handshakes` | the session's own commands; the fallback from EHLO to HELO |
| `Connections` | starting TLS, connection by connection |
| `SessionLog` | all that the session itself says to the server, and asks of its thread, in a run |
| `Links` | the session with the calls its thread still has to run: connecting and closing |
| `ServerRecord` | what the session knows about the server |
| `JobStarts`, `Beginnings` | what a start event makes of the first job, by what the server has said; that every job began so |
| `SentMail`, `LoginRecords`, `Logins` | what a whole run has sent for each job; when a session is authenticated |
| `ReplyParser` | `parseResponse`, against the reply lines of section 4.2.1 of RFC 5321 |
| `ThreadModel`, `SessionThreads` | SessionThread: both pipelines as functions, and runs; the object |
| `LineReading` | lines that arrive in pieces |
| `Delivery` | from the user's text through session and thread to the receiver |
| `ServerVerdict` | from the server's lines through thread and session to the job's result |

## How a run is modelled

A run is a list of events: `open`, `quit`, a job added, the socket connected or
disconnected (or timed out), a reply, the result of a TLS negotiation, a posted
start event. Anything may happen in any order, except that only a pending start
event fires, only new jobs are added, each once, negotiations are reported only when
they succeed (src/sessionthread.cpp:222 and 243), and nothing follows a crash. A
job's calls into the session during one step are a list of effects, carried out
in order; callbacks of the user's code fall between events.

What the library answers is a parameter, and every theorem holds for all values:
the outcome of each SASL call, `toAce`, `toBase64`, `toInt`. A few statements ask
something of one of them, and say so: that `toAce` yields ASCII; that `toInt` reads up
to three digits (for reply codes); that it reads any number an int can hold and
refuses others (for SIZE).

What a command means is not said by the function that writes it: `CommandReader`
reads lines as a server does, and the theorems say what it reads.

A byte is a character of the same value. Division in `isCode` truncates as in C++.

### Rules

Some theorems hold in runs whose surroundings keep certain rules, and say which of
them are needed. The rules of `RunRules` are:

- `opens`: `open()` is called only while the session is disconnected;
- `connects`: connects happen only then;
- `known`: a TLS negotiation that reports no known protocol comes only when no job
  is current and no start event is pending;
- `still`: any TLS negotiation comes only then, which implies `known`;
- `drained`: at a connect no start event is pending;
- `refused`: no job is added to a session that is quitting before it was encrypted;
- `silent`: with TLS from the start, no reply comes in the handshake before the
  protocol is known.

A run that keeps `opens`, `connects`, `known` and `silent` is called orderly. The
rules `opens`, `drained` and `refused` can be broken by what the user does and by
timeouts. Breaking one of the others alone takes something from outside: `connects`,
a socket that reports a connect without having reported the disconnect before;
`known` and `still`, a second report of a negotiation on a session that is ready (a
late answer to a question about TLS errors would be one,
src/sessionthread.cpp:232-247); `silent`, replies ahead of the negotiation. Whether
these happen is a matter of the library and of the server, not of the code modelled
here.

The rules of `Links` are that no job is added to a disconnected session while a close
is pending, and that the network does not break off while jobs wait in one.

## What the proofs found

Each of these is what the code does; where its documentation or a comment says
otherwise, the model follows the code.

- A dot at the very start of the text is not doubled (src/sendjob.cpp:98 looks for
  CRLF dot only), although the comment above it cites section 4.5.2 of RFC 5321.
  `Transparency.RoundTrip` and `Delivery.TextArrives` hold exactly for texts that
  do not begin with a dot. The receiver always gets one more empty line, because
  the terminator is sent as a command of its own after the text's CRLF.
- An address with a `>` outside a quoted string, or with an odd quote, is put between
  the angle brackets of MAIL and RCPT as it is, and a server reads something else:
  exactly then (`SendDialogue.RcptIsRead`; `SendDialogue.UnreadableRcpt` is an instance).
- A SIZE that an int cannot hold is taken for no limit
  (`ServerRecord.LimitIsLastNumber`).
- A server that answers DATA with 250 makes the job succeed without its text
  having been sent (`SendDialogue.SuccessWithoutText`); each further 354 makes the
  job send the text again.
- A non-ASCII address without `@` is in neither class of `analyzeAddresses` and goes
  out raw, without SMTPUTF8 (`Addresses.AsciiOnTheWire`).
- The `qFatal` in `LoginJob::doStart` can be reached, with STARTTLS and with TLS, by
  breaking any one of the rules above: by `open()` on a session that is ready, which
  forgets its protocol; by a start event left over from an `open()` that timed out;
  by adding a login to a session that is quitting before it was encrypted, since
  `doStartNext` refuses only `Disconnected`; with TLS by replies ahead of the
  negotiation, since the end of the handshake looks at the protocol only with
  STARTTLS; and, should the socket report such things, by a connect without a
  disconnect and by a second negotiation without a protocol. Excluding them is
  necessary and sufficient (`Encryption.QFatalUnreachableIff`).
- For the same reason a job can run during the handshake, and then it takes the lines
  that answer EHLO for answers to its own commands: a send job can be reported as
  successful without its text having been sent, before the session is even ready
  (`EarlyJobs.SuccessOnEhlo`). A start event left over at a connect is the one cause
  that does not take a second negotiation or a connect without a disconnect
  (`EarlyJobs.NothingEarlyIff`).
- The flag that a STARTTLS is unanswered is cleared only by the answer
  (src/session.cpp:286), not by a lost connection. After a connection is lost in
  between, a greeting of two lines on the next one starts TLS although no STARTTLS
  was sent there (`Connections.TlsOutOfOrder`); a connect that finds the flag set is
  the only cause (`Connections.TlsInOrderIff`).
- `addJob` calls `reconnect` at once, but closing the socket is posted to the thread.
  A job added after `open()` has timed out, before the close has run, finds the
  socket still connecting, and then loses it (`Links.AddedBeforeClose`).
- What the session knows about the server is never cleared: it is what was heard
  over all connections, before and after STARTTLS (`ServerRecord.CapabilitiesAreWhatWasSaid`).
  src/session.h:96-101 says that `allowsTls()` is false before `NotAuthenticated`;
  the flag is set during the handshake and stays.
- `readResponse` takes what has arrived for a line even when its end has not: the
  responses are right exactly when no line is read before all of it has arrived
  (`LineReading.RightIffNoReadTooSoon`).

## Model

| member | source | states |
|---|---|---|
| `ReplyCodes.IsCode` | src/session.cpp:467-487 | the two loops compute the test of a code against a decimal pattern |
| `ReplyCodes.MatchesIsDecimalPrefix` | src/session.cpp:467-487 | for codes 0..999 and patterns 0..999 that test is "the pattern's digits begin the code's three digits", in both directions |
| `ReplyCodes.NegativeCodes` | src/session.cpp:486 | a negative code, which three bytes like "-99" give, matches no positive pattern, and 0 always |
| `ReplyCodes.CodeRanges` | src/session.cpp:467-487 | the exact set of codes behind each pattern the client tests, for every integer code; hence which tests exclude each other |
| `Transparency.RoundTrip` | src/sendjob.cpp:92-99 | a receiver following RFC 5321 that reads the wire bytes of text and terminator gets text + CRLF + CRLF, stops at the job's own terminator and leaves all that follows, if and only if the text does not begin with a dot |
| `Transparency.ReceiveStuffed` | src/sendjob.cpp:175-178 | the same for a text whose first dot is doubled: every text survives, so the missing first doubling is the only defect |
| `Transparency.ReceiveLeadingDot` | src/sendjob.cpp:98 | every text that begins with a dot is received as something else |
| `Transparency.EncodeLines` | src/sendjob.cpp:98 | replacing left to right, without overlaps, doubles the first dot of every line after the first and nothing else |
| `Transparency.EncodedSize` | src/sendjob.cpp:276-281 | the encoded size is the size of the text plus the number of positions at which CRLF and a dot stand, at most four thirds of the text |
| `Transparency.OccurrencesArePositions` | src/sendjob.cpp:98 | replacing left to right without overlaps misses no position at which CRLF and a dot stand |
| `Addresses.BareAddressInBrackets` | src/sendjob.cpp:62-72 | the address between the first `<` and the next `>` is taken, whatever stands around it |
| `Addresses.BareAddressUnclosed` | src/sendjob.cpp:242-257 | without `>` everything after the first `<` is taken; without `<` the whole text |
| `Addresses.AddedRecipientsAppend` | src/sendjob.cpp:242-257 | several calls of setTo, setCc and setBcc add what one call with the joined lists adds |
| `Addresses.Utf8OfAscii` | src/sendjob.cpp:227-240 | a string's encoding is ASCII exactly when the string is, and then it is the string |
| `Addresses.AnalysisWithoutLocal` | src/sendjob.cpp:206-224 | when SMTPUTF8 is not needed the early return has hidden nothing: punycode is used exactly when some domain is not ASCII |
| `Addresses.EncodingIgnoresOrder` | src/sendjob.cpp:195-240 | the bytes sent for each address do not depend on the order of the addresses or on repetitions, in spite of the early return |
| `Addresses.AsciiOnTheWire` | src/sendjob.cpp:195-240 | without SMTPUTF8 an address goes out in ASCII if and only if it is ASCII or contains `@` |
| `Addresses.RawWithSmtpUtf8` | src/sendjob.cpp:214-231 | one non-ASCII local part makes every address go out in UTF-8 as it is |
| `Addresses.Utf8IsDecoded` | src/sendjob.cpp:227-240 | every string comes back when its encoding is decoded after section 3 of RFC 3629 |
| `Addresses.SentAddress` | src/sendjob.cpp:195-240 | which bytes go out for local@domain: with a non-ASCII local part among the addresses, the UTF-8 of it all; else with a non-ASCII domain among them, the local part, `@` and `toAce` of the domain; else the address itself |
| `Addresses.SentWithoutAt` | src/sendjob.cpp:226-240 | an address without `@` always goes out as its UTF-8 |
| `Addresses.AllAsciiSentAsTheyAre` | src/sendjob.cpp:195-240 | when all addresses are ASCII each goes out as itself |
| `SendDialogue.ErrorEndsStep` | src/job.cpp:52-70 | after a 4xx or 5xx reply the switch that still runs sends nothing and changes nothing |
| `SendDialogue.StepIsWellFormed` | src/sendjob.cpp:137-193 | takeFirst never meets an empty list, no reply gives two results, nothing follows a result |
| `SendDialogue.MailIsSentWhen` | src/sendjob.cpp:101-135 | MAIL goes out if and only if there is a text and a recipient, the announced limit is not positive or not below the encoded size, and SMTPUTF8 is allowed if some local part needs it; otherwise one error |
| `SendDialogue.AsciiCommands` | src/sendjob.cpp:130-134 | without SMTPUTF8 a MAIL or RCPT command is ASCII if and only if its address is, or has an `@`; also for a job whose sender was never set |
| `SendDialogue.MailIsRead` | src/sendjob.cpp:130-134 | a server reads the first command as MAIL from the sender, with SMTPUTF8 exactly when the message needs it, if and only if the sender fits between angle brackets |
| `SendDialogue.RcptIsRead` | src/sendjob.cpp:188-193 | and the others as RCPT to the recipient, with NOTIFY exactly when the session allows it and the job asks for it, if and only if the recipient fits |
| `SendDialogue.UnreadableRcpt` | src/sendjob.cpp:193-253 | the recipient `a>b` does not fit, and the RCPT for it is no command |
| `SendDialogue.SenderIs` | src/sendjob.cpp:62-72 | the sender that MAIL names is the address in the argument of setFrom, and is looked at when the encoding is chosen |
| `CommandReader.PathIsRead` | src/sendjob.cpp:131-193 | a path and one parameter are read back if and only if no `>` outside quotes ends the path early and no quote swallows its end |
| `SendDialogue.PendingUntilConcluded` | src/sendjob.cpp:137-193 | by counting replies: after c acceptances and no error, what has been sent is RCPT for the first min(c, n) recipients in order, DATA if c > n, and text and terminator once per 354 after DATA; and the recipients still to be sent are exactly the others |
| `SendDialogue.Concludes` | src/sendjob.cpp:137-186 | the reply that concludes the job gives its one result and sends nothing, and later replies change nothing |
| `SendDialogue.ConcludesOrPending` | src/sendjob.cpp:137-186 | every list of replies either holds the concluding one or leaves the job pending |
| `SendDialogue.Verdict` | src/sendjob.cpp:137-186 | success if and only if acceptance n + 2 comes before any error, failure if and only if an error comes first, otherwise no result; never two |
| `SendDialogue.SuccessfulTrace` | src/sendjob.cpp:137-193 | all a successful job has sent after MAIL; and a server reads it as RCPT for each recipient in order, each with NOTIFY exactly when wanted and allowed at that moment, and then DATA |
| `SendDialogue.TextIsMissingIff` | src/sendjob.cpp:171-184 | a successful job has not sent its text if and only if no 354 came between DATA and the last acceptance |
| `SendDialogue.SuccessWithoutText` | src/sendjob.cpp:171-184 | three 250 replies make a job with one recipient succeed without its text |
| `SendJobs.SendJob.SetFrom` | src/sendjob.cpp:62-72 | the return path is the bare address of the argument in brackets, and nothing else changes |
| `SendJobs.SendJob.AddRecipients` | src/sendjob.cpp:242-257 | the loop appends the bare addresses of the non-empty entries, in order |
| `SendJobs.SendJob.SetData` | src/sendjob.cpp:92-99 | the text is replaced by the encoded argument, whatever was set before |
| `SendJobs.ScanAddresses` | src/sendjob.cpp:206-224 | the loop with its early return computes the two flags as a property of the whole list |
| `SendJobs.SendJob.DoStart` | src/sendjob.cpp:101-135 | the object does what `SendDialogue.Start` says, field by field, with its effects |
| `SendJobs.SendJob.HandleResponse` | src/sendjob.cpp:137-186 | the object does what `SendDialogue.Handle` says, for every status and reply |
| `LoginDialogue.ModeOfCommand` | src/loginjob.cpp:323-369 | the two tables are inverse: a known mode is recognised from exactly the strings that start with its command, in any letter case and with anything after it |
| `LoginDialogue.ErrorEndsStep` | src/loginjob.cpp:124-149 | after a 4xx or 5xx reply nothing more is sent and the session's state stays |
| `LoginDialogue.StepIsWellFormed` | src/loginjob.cpp:124-149 | at most one result per reply and nothing after it; the session becomes authenticated on 235 and on nothing else; success is reported on 235 only |
| `LoginDialogue.RespondsUntilDecided` | src/loginjob.cpp:131-142 | for every list of replies that does not decide the login: one response per challenge, in order, and nothing else |
| `LoginDialogue.DecidedBy` | src/loginjob.cpp:124-149 | the first deciding reply (an error, 235, or a challenge that cannot be answered) gives the one result, and later replies change nothing |
| `LoginDialogue.MechanismIsOffered` | src/loginjob.cpp:96-174 | the preference stays known and is the one set last, so the mode chosen is offered by the server: the preferred one, else LOGIN, else PLAIN; selection fails if and only if all three are missing |
| `LoginDialogue.AuthIsRead` | src/loginjob.cpp:314-318 | a server reads the AUTH line as the mechanism's name, with an initial response exactly when the library has produced one |
| `LoginDialogue.Begins` | src/loginjob.cpp:264-321 | a login sends AUTH if and only if it can take a mechanism and the library goes along, else fails in silence; and from then on it goes by the mechanism the library has named, not by the one it asked for |
| `LoginDialogue.ResponsesFollowMechanism` | src/loginjob.cpp:131-142 | for every list of replies: a challenge is answered with user name and password if and only if the library has named PLAIN, in any letter case and with anything after it, and with the library's own step otherwise; and user name and password are read back if neither is empty or has a NUL |
| `CommandReader.PlainIsRead` | src/loginjob.cpp:134 | a server that follows section 2 of RFC 4616 reads NUL, user, NUL, password as the two if and only if neither is empty or has a NUL |
| `LoginJobs.LoginJob.DoStart` | src/loginjob.cpp:112-122 | ends the process when encryption was asked for and is not there, else authenticates |
| `LoginJobs.LoginJob.HandleResponse` | src/loginjob.cpp:124-149 | the object does what `LoginDialogue.Handle` says, for every mode and reply |
| `Sessions.SessionPrivate.SetAuthenticationMethods` | src/session.cpp:52-60 | the loop adds the methods that are not known yet, in order |
| `Sessions.SessionPrivate.AddJob` | src/session.cpp:348-361 | the job goes to the end of the queue, with a start event or a reconnect that is made at once |
| `Sessions.SessionPrivate.DoStartNext` | src/session.cpp:370-387 | the first job becomes current and starts, unless one is running or there is no connection |
| `Sessions.SessionPrivate.Perform` | src/job.cpp:40-77 | the calls of one step of a job are carried out in order, up to a crash |
| `Sessions.SessionPrivate.InHandshake` | src/session.cpp:248-289 | the whole branch, with its one early return |
| `Sessions.SessionPrivate.ResponseReceived` | src/session.cpp:239-301 | the object does what `SessionModel.ResponseReceived` says, in every state |
| `Sessions.SessionPrivate.DropQueue` | src/session.cpp:323-325 | deleting a copy of the queue job by job, while each takes itself off the queue, drops all of them in order, each once |
| `Sessions.SessionPrivate.SocketDisconnected` | src/session.cpp:310-326 | the object does what `SessionModel.SocketDisconnected` says |
| `Sessions.SessionPrivate.Dispatch` | src/session.cpp:201-406 | every event takes the object through the step of the model, so that what holds of all runs holds of the object |
| `Scheduling.JobsAreDecidedInOrder` | src/session.cpp:310-414 | in every run the jobs decided, in order, then the current one, then the queue, are the jobs added, in order; a job runs exactly when one is current; none is current while disconnected; the assertion of `jobDone` never fails; a job waiting in a ready session has a start event coming |
| `Scheduling.OneFatePerJob` | src/session.cpp:310-406 | no job is decided twice, and none that is decided is current or waits |
| `Scheduling.DisconnectDecidesAll` | src/session.cpp:310-326 | a lost connection decides every job known: one error, for the current job or else the first in the queue, and the others dropped, in order |
| `Scheduling.FireOnce` | src/session.cpp:363-406 | each start event fired brings the end nearer, however the job started ends |
| `Scheduling.QueueDrains` | src/session.cpp:363-406 | in a ready session the start events pending work through the queue, however many jobs fail on the spot, until it is empty or a job runs |
| `Encryption.ReadyOnlyWhenEncrypted` | src/session.cpp:271-288 | with STARTTLS or TLS, in every orderly run (see "Rules"), the session is ready for login or authenticated only while a negotiated protocol is known |
| `Encryption.EncryptedOnThisConnection` | src/session.cpp:303-346 | and that protocol was negotiated after the last connect or open(), not on an earlier connection |
| `Encryption.ReadyOnlyWhenEncryptedIff` | src/session.cpp:201-346 | with STARTTLS this holds in all runs that follow the rules in force if and only if `opens`, `connects` and one of `known` and `still` are |
| `Encryption.NoUnencryptedLogin` | src/loginjob.cpp:115-117 | with STARTTLS or TLS, under the rules that suffice no run reaches the qFatal, and nothing starts on an open unencrypted connection |
| `Encryption.QFatalExactlyWhen` | src/loginjob.cpp:115-117 | exactly which event in which state ends an orderly run in the qFatal |
| `Encryption.QFatalUnreachableIff` | src/session.cpp:201-374 | with STARTTLS or TLS, the qFatal is unreachable in all runs that follow the rules in force if and only if `opens`, `connects`, `drained`, `refused`, one of `known` and `still`, and with TLS `silent` are: each is needed even when all others are kept |
| `Encryption.LoginAfterOpen` | src/session.cpp:201-207 | a run that breaks only `opens`, and ends in the qFatal |
| `Encryption.LoginAfterSecondConnect` | src/session.cpp:303-308 | a run that breaks only `connects`, and ends in the qFatal; the socket would have to report a connect without its disconnect |
| `Encryption.LoginAfterUnknownProtocol` | src/session.cpp:338-346 | a run that breaks only `known` and `still`, and ends in the qFatal; the thread would have to report a second negotiation |
| `Encryption.LoginAfterReconnect` | src/session.cpp:310-374 | a run that breaks only `drained`, and ends in the qFatal: open() times out with a job waiting, and the next connect finds its start event |
| `Encryption.LoginWhileQuitting` | src/session.cpp:348-374 | a run that breaks only `refused`, and ends in the qFatal |
| `Encryption.LoginAheadOfTls` | src/session.cpp:271-284 | with TLS from the start, a run that breaks only `silent`, and ends in the qFatal: the end of the handshake does not look at the protocol |
| `Encryption.NeverWithoutEncryptionMode` | src/loginjob.cpp:115-117 | an unencrypted session never crashes at all |
| `EarlyJobs.NothingEarlyIff` | src/session.cpp:370-374 | in every encryption mode: while a connection is being set up no job runs and none is about to start, in all runs that follow the rules in force, if and only if `connects`, `drained` and `still` are |
| `EarlyJobs.SuccessOnEhlo` | src/session.cpp:291-300 | a run, without encryption or with STARTTLS, that breaks only `drained`: a send job is reported as successful on three lines of the answer to EHLO, still in the handshake, and has sent MAIL, RCPT and DATA but not its text |
| `Hearings.HeardIsWhatCame` | src/session.cpp:298-301 | in every run, what each current or decided job has heard is exactly what the server replied while it was current and the session passed on, each with whether the server had offered DSN by then; a job that waits or was dropped has heard nothing |
| `Hearings.HeardAfterHandshake` | src/session.cpp:239-301 | in every run that keeps `connects`, `drained` and `still`, all of it came after the handshake, none of it in Ready or Handshake |
| `Handshakes.FallbackIsFinal` | src/session.cpp:62-84 | in every run, over any number of connections, at most one fallback, and no EHLO after a HELO |
| `Handshakes.SessionSays` | src/session.cpp:62-84 | in every run a server reads each of the session's own commands as EHLO or HELO with the client's host name, QUIT, or STARTTLS |
| `Handshakes.HandshakeLadder` | src/session.cpp:248-296 | in every run of an unencrypted session, from a connect on, whatever the server replies and whatever jobs are added and started meanwhile: a server reads EHLO with the host name, HELO with the host name, QUIT, in this order, each at most once, as far as the state shows |
| `SessionLog.SessionSaysExactly` | src/session.cpp:201-346 | in every run, over all connections: the exact list of what a server reads in the session's own commands, event by event |
| `SessionLog.ThreadIsAsked` | src/session.cpp:201-361 | in every run: the exact list of requests to connect, to close and to start TLS, event by event |
| `Connections.TlsStartsOnAgreement` | src/session.cpp:271-288 | over the whole life of a session TLS is started no more often than STARTTLS was sent |
| `Connections.FlagIsUnanswered` | src/session.cpp:271-288 | as long as no connect finds the flag set, it says that a STARTTLS of this connection is unanswered, and each start of TLS answers one |
| `Connections.TlsOnGreeting` | src/session.cpp:285-307 | whenever a connect finds the flag set, a greeting of two lines starts TLS with no STARTTLS sent on the connection |
| `Connections.TlsOutOfOrder` | src/session.cpp:285-326 | a run that keeps all rules in which that happens |
| `Connections.TlsInOrderIff` | src/session.cpp:271-308 | in all runs each start of TLS answers an unanswered STARTTLS of its own connection if and only if it is ruled out that a connect finds the flag set (or the mode is not STARTTLS) |
| `Links.AddedJobIsConnectedIff` | src/session.cpp:356-360 | a job added to a session that is not ready gets a connection if and only if the thread has no close pending that is not followed by a reconnect |
| `Links.WaitingJobsAreConnected` | src/session.cpp:310-361 | in every run in which no job is added while a close is pending and the network holds, a job that waits in a disconnected session has a connection coming once the pending calls have run |
| `Links.AddedBeforeClose` | src/sessionthread.cpp:101-132 | the run in which it has not: `open()` times out while connecting, and a job is added before the close has run |
| `Links.WaitingJobsAreConnectedIff` | src/session.cpp:310-361 | both conditions are needed: it holds in all runs if and only if both are kept |
| `ServerRecord.AddMethodsKeepsFirst` | src/session.cpp:52-60 | the methods known are the distinct ones heard, in the order of their first occurrence |
| `ServerRecord.SplitIsInverseOfJoin` | src/session.cpp:264 | splitting at spaces loses nothing and leaves no space |
| `ServerRecord.CapabilitiesAreWhatWasSaid` | src/session.cpp:258-269 | in every run, over all connections: the limit is the last SIZE, a flag is set if and only if its line was heard, the mechanisms are the distinct words of all AUTH lines |
| `ServerRecord.LoginUsesOfferedMechanism` | src/loginjob.cpp:156-174 | in every run, whatever the preference of a login: the selection picks a mechanism the server itself has listed, and fails if and only if the server has listed none of the three |
| `ServerRecord.LimitIsLastNumber` | src/session.cpp:258-260 | in every run, when `toInt` reads decimal numbers: the limit is the number in the last SIZE line heard, and none if that is missing or too large for an int |
| `JobStarts.SendStart` | src/sendjob.cpp:101-135 | in every run, when the turn of a send job comes: it becomes current and the log grows by its MAIL, if it has a text and a recipient, the last SIZE the server has stated is not positive or not below the text and one byte per dot after a line end, and the server has said SMTPUTF8 if a local part needs it; otherwise it is decided with an error and nothing is sent |
| `JobStarts.LoginStart` | src/loginjob.cpp:112-321 | in every run, when the turn of a login comes: the log grows by its AUTH, for its preference or else LOGIN or else PLAIN, whichever the server has listed by then, and it goes by the mechanism the library has named; if none is listed or the library refuses, it is decided with an error and nothing is sent; without the encryption asked for the process ends |
| `Beginnings.JobsHaveBegun` | src/session.cpp:370-387 | in every run, every job that is current or decided, unless it was told of a lost connection while it waited, was found first in the queue by a start event of the run and is what doStart made of it then |
| `SentMail.RunsAreConsistent` | src/session.cpp:298-406 | in every run, for every job that is current or decided, send job or login, successful or not: what was sent in its name, and its result, are those of its own dialogue with the replies it heard, as far as the connection lasted; or it never began, or was dropped, and nothing was sent |
| `SentMail.SuccessfulSendJob` | src/sendjob.cpp:101-193 | a send job that a session reports as successful was added by the user; n + 2 of the replies passed on to it were 25x, with no error before; and what was sent in its name is MAIL, RCPT for all its recipients in order, DATA, and the text once per 354; a server reads it as Mail from the sender, Rcpt to each recipient, Data |
| `SentMail.FailedSendJob` | src/sendjob.cpp:101-193 | a failed send job either never began and sent nothing, or was ended by an error and sent what the replies before it account for, or lost its connection and sent what all replies account for |
| `LoginRecords.DecidedLogin` | src/loginjob.cpp:112-149 | a decided login either never began and sent nothing, or was begun by a start event of the run: it sent AUTH for the best mechanism listed by then, and one response per challenge, by the mechanism the library named at that event, up to the reply that decided it, with the result that reply gives, or up to the loss of the connection |
| `Logins.AuthenticatedOnThisConnection` | src/loginjob.cpp:144-148 | in every run a session is authenticated if and only if a login has succeeded, on a 235, and since then there was no connect, no lost connection, no quit() and no negotiation |
| `Logins.AuthenticatedByLogin` | src/loginjob.cpp:144-148 | in every run, a login succeeds only if the last reply it heard is 235 |
| `ReplyParser.ParseResponse` | src/sessionthread.cpp:167-198 | cutting the copy in place comes to the parse of the line |
| `ReplyParser.ParseLine` | src/sessionthread.cpp:167-198 | any line of three digits, a mark and a text, however it ends, gives code, text and hyphen; with code 000 the text is the whole line |
| `ReplyParser.ParseBareCode` | src/sessionthread.cpp:190-195 | three digits alone, however the line ends, are a last line without text |
| `ReplyParser.ParseWithoutCode` | src/sessionthread.cpp:183-188 | a line whose first three bytes are no number is a reply with code 0 and no text |
| `ReplyParser.CutBack` | src/sessionthread.cpp:172-180 | a line is cut back to what stands before its first CR or LF |
| `ReplyParser.EmptyLineEnds` | src/sessionthread.cpp:172-180 | the line end of an empty line is not cut off whole |
| `ReplyParser.ParsePrinted` | src/sessionthread.cpp:167-198 | a printed reply line gives back its code, its text and its hyphen |
| `ReplyParser.ParseIsInverseOfPrint` | src/sessionthread.cpp:167-198 | printing any list of replies, of one line or many, and parsing gives all their lines back |
| `ReplyParser.LinesAppend` | src/sessionthread.cpp:86 | whole lines that arrive together are read one after the other |
| `ThreadModel.NothingIsLostOnTheWay` | src/sessionthread.cpp:56-76 | at every moment of every run, over any number of connections: bytes gone to earlier connections or to none, then written on this one, then queued, then posted, are all commands in order, each with CRLF; and while anything is queued a write is coming |
| `ThreadModel.AllWritten` | src/sessionthread.cpp:56-76 | when nothing is pending, all commands that are not gone have been written on this connection |
| `ThreadModel.NothingGoes` | src/sessionthread.cpp:69-108 | as long as an open socket is not closed, nothing is lost |
| `ThreadModel.NothingIsLostOnTheWayBack` | src/sessionthread.cpp:78-99 | at every moment, responses emitted on this connection and those of the lines still buffered are those of all lines that arrived on it, in order; and while anything is buffered a read is coming |
| `ThreadModel.RepliesArrive` | src/sessionthread.cpp:78-99 | whatever replies the server prints, and however they are batched, the session is given a prefix of their lines, and all of them in the end |
| `ThreadModel.WholeLinesAreNeeded` | src/sessionthread.cpp:86 | when each chunk is read to its end before the next arrives, the lines are those sent if and only if no chunk but the last ends inside a line |
| `LineReading.RightIffNoReadTooSoon` | src/sessionthread.cpp:78-99 | in every run, with bytes arriving in any pieces: the responses are those of the lines that arrived on this connection if and only if no read found an unfinished line at the front of the buffer of which more arrived later |
| `SessionThreads.SessionThread.WriteDataQueue` | src/sessionthread.cpp:69-76 | the loop writes all that is queued, in order, and empties the queue |
| `SessionThreads.SessionThread.ReadResponse` | src/sessionthread.cpp:78-99 | one line is consumed and emitted, and another read scheduled exactly when there is more |
| `SessionThreads.SessionThread.Dispatch` | src/sessionthread.cpp:56-99 | every event takes the object through the step of the model |
| `Delivery.LogGrows` | src/session.cpp:229-237 | a command once issued is never taken back or reordered |
| `Delivery.DueIsWaiting` | src/sendjob.cpp:158-169 | in every run, a send job whose sender and recipients are accepted is waiting for the 354 with the user's text |
| `Delivery.GoAheadSendsText` | src/sendjob.cpp:175-178 | the 354 makes the session issue the text and the terminator one right after the other |
| `Delivery.TextInTheStream` | src/sendjob.cpp:175-178 | wherever the two commands stand in the stream, the receiver that has read what precedes them gets the text and is left with what follows |
| `Delivery.TextArrives` | src/sessionthread.cpp:56-76 | end to end, for every run of a session and of its thread: after the 354, if nothing issued from then on went to another connection, the receiver gets the user's text + CRLF + CRLF and then the commands issued later, if and only if the text does not begin with a dot |
| `ServerVerdict.ServerDecides` | src/sessionthread.cpp:78-99 | end to end from the server: counting the lines it prints once a send job has started after the handshake, the job is reported as successful if and only if line n + 2 that accepts comes before any that refuses, as failed if and only if one that refuses comes first, and runs on otherwise |

The other methods of the four classes (setters, constructors, and the steps their
handlers are made of) are proved equal to functions of the model in the same way:

- `SendJobs.SendJob`: src/sendjob.cpp:43-287 and src/job.cpp:52-77.
- `LoginJobs.LoginJob`: src/loginjob.cpp:62-321 and src/job.cpp:52-77.
- `Sessions.SessionPrivate`: src/session.cpp:52-84, 201-237, 298-308, 338-346 and 363-414.
- `SessionThreads.SessionThread`: src/sessionthread.cpp:25-108.

## Left out

- Sockets, certificates, proxies, log files, threads and mutexes: writing appends to a byte array, arriving bytes are appended to another, and posted calls run one at a time.
- Sessions.SessionPrivate.Open: does not record `setConnectWithTls` and does not start the timer of the socket.
- Links: a socket that is connecting and one that is connected are not told apart, as `reconnect` does not; how the socket's own signals reach the session is left open, they may come at any time.
- The errors of the TLS handshake: the result of a negotiation is an event like any other.
- SASL, the JSON of XOAUTH2, base64, `toAce` and `toInt`: parameters, as said above; in particular whitespace, signs and overflow in `toInt` are whatever the parameter says.
- `SASL_INTERACT` rounds with the SASL library: a call and its rounds are one answer.
- The timer of the socket: a timeout is the same event as a disconnect; starting and stopping the timer, and the assertions on it, are not modelled.
- The choice of the host name for the greeting, with its `toAce`: a constant.
- Translated error texts: an error is its number.
- Surrogate pairs: a character of a QString is one code point, so an address with unpaired surrogates is not represented.
- Jobs deleted or added a second time by their owner, and the user's code running inside a step. `Sessions.SessionPrivate.JobDestroyed` is modelled and used for the jobs the session itself deletes.
- Sessions.SessionPrivate: a job in the queue is a value, not a reference to an object: the step functions of SendJob and LoginJob that it applies are the ones those objects are proved to follow, but sharing of a job between owner and session is not captured.
- Sessions.SessionPrivate.SocketDisconnected: asks that no crash has happened before, because nothing runs after one.
- JobEffects: a job's calls into the session are returned as a list and carried out after the job has updated its own fields; the code interleaves the two, which no job can observe, since it reads none of the session's fields that its calls change.
- Accessors, `SessionUiProxy`, the test server, the login test program, build files and translations: no property beyond their bodies.
