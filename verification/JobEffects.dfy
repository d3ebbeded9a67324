/**
 * What a job does to its session (job.cpp). A job calls back into the session
 * while it handles an event; here each step of a job returns those calls, in
 * order, as a list of effects, and the session carries them out in that order.
 */
module JobEffects {
  import opened ByteArrays
  import opened ReplyCodes

  /** KJob::UserDefinedError. */
  const USER_DEFINED_ERROR: nat := 100

  /** What ends the process, or would end a build with assertions. */
  datatype Crash =
    | LoginUnencrypted        // the qFatal of LoginJob::doStart
    | TakeFromEmptyList       // takeFirst on an empty list
    | JobDoneAssertion        // Q_ASSERT(job == m_currentJob)

  datatype Effect =
    | Send(command: Bytes)
    | Authenticate            // setState(Authenticated)
    | EmitResult(error: nat)
    | Abort(crash: Crash)

  /** What the session has learnt about the server. */
  datatype Capabilities = Capabilities(
    sizeLimit: int, allowsTls: bool, allowsDsn: bool, allowsSmtpUtf8: bool, authModes: seq<Bytes>)

  /**
   * What the SASL library answers to a challenge; `expired` when the challenge
   * is the XOAUTH2 status 400.
   */
  datatype SaslStep = SaslStep(expired: bool, ok: bool, out: Bytes)

  const NO_STEP := SaslStep(false, false, [])

  /** What a job hears: a reply, whether the session allows DSN then, and what the SASL library makes of the reply. */
  datatype Heard = Heard(reply: ServerResponse, allowsDsn: bool, step: SaslStep)

  function Commands(effects: seq<Effect>): seq<Bytes> {
    if effects == [] then []
    else (if effects[0].Send? then [effects[0].command] else []) + Commands(effects[1..])
  }

  function Results(effects: seq<Effect>): seq<nat> {
    if effects == [] then []
    else (if effects[0].EmitResult? then [effects[0].error] else []) + Results(effects[1..])
  }

  /**
   * The shape every step of a job has: commands and at most the change to
   * Authenticated, then possibly a result, and nothing after a result.
   */
  predicate WellFormed(effects: seq<Effect>) {
    && (forall i :: 0 <= i < |effects| ==> !effects[i].Abort?)
    && (forall i :: 0 <= i < |effects| - 1 ==> !effects[i].EmitResult?)
  }
}
