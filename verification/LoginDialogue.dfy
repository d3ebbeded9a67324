/**
 * The dialogue of a LoginJob (loginjob.cpp): choosing a mechanism the server
 * offers, and answering its challenges.
 *
 * The SASL library is not modelled. What it answers is a parameter of each
 * step, and every statement holds for all its answers; so is base64.
 */
module LoginDialogue {
  import opened ByteArrays
  import opened ReplyCodes
  import opened JobEffects
  import R = CommandReader

  datatype AuthMode = UnknownAuth | Plain | Login | CramMD5 | DigestMD5 | NTLM | GSSAPI | Anonymous | XOAuth2

  /** LoginJob::TokenExpired. */
  const TOKEN_EXPIRED: nat := USER_DEFINED_ERROR + 1

  // ---------------------------------------------------------------------
  // Mechanism names
  // ---------------------------------------------------------------------

  function AuthCommand(mode: AuthMode): Bytes {
    match mode
    case Plain => "PLAIN"
    case Login => "LOGIN"
    case CramMD5 => "CRAM-MD5"
    case DigestMD5 => "DIGEST-MD5"
    case GSSAPI => "GSSAPI"
    case NTLM => "NTLM"
    case Anonymous => "ANONYMOUS"
    case XOAuth2 => "XOAUTH2"
    case UnknownAuth => ""
  }

  function LowerCase(c: char): char {
    if 'A' <= c <= 'Z' then (c as int + 32) as char else c
  }

  /** qstrnicmp(mech, name, |name|) == 0, for a mech without NUL; a null mech equals nothing. */
  predicate StartsLike(mech: Option<Bytes>, name: Bytes) {
    && mech.Some?
    && |name| <= |mech.value|
    && forall i :: 0 <= i < |name| ==> LowerCase(mech.value[i]) == LowerCase(name[i])
  }

  function AuthModeFromCommand(mech: Option<Bytes>): AuthMode {
    if StartsLike(mech, "PLAIN") then Plain
    else if StartsLike(mech, "LOGIN") then Login
    else if StartsLike(mech, "CRAM-MD5") then CramMD5
    else if StartsLike(mech, "DIGEST-MD5") then DigestMD5
    else if StartsLike(mech, "GSSAPI") then GSSAPI
    else if StartsLike(mech, "NTLM") then NTLM
    else if StartsLike(mech, "ANONYMOUS") then Anonymous
    else if StartsLike(mech, "XOAUTH2") then XOAuth2
    else UnknownAuth
  }

  /** The string begins with this name, each capital of it also as a small letter. */
  predicate Spells(mech: Option<Bytes>, name: Bytes) {
    && mech.Some? && |name| <= |mech.value|
    && forall i :: 0 <= i < |name| ==>
         mech.value[i] == name[i] || ('A' <= name[i] <= 'Z' && mech.value[i] as int == name[i] as int + 32)
  }

  lemma SpellsCapitals(mech: Option<Bytes>, name: Bytes)
    requires forall i :: 0 <= i < |name| ==> !('a' <= name[i] <= 'z')
    ensures StartsLike(mech, name) <==> Spells(mech, name)
  {
  }

  /** The names have no small letters. */
  lemma CapitalNames(mode: AuthMode)
    ensures forall i :: 0 <= i < |AuthCommand(mode)| ==> !('a' <= AuthCommand(mode)[i] <= 'z')
  {
  }

  /**
   * The two tables are inverse: a known mode is recognised from exactly the
   * strings that start with its command, in any letter case and with anything
   * after it.
   */
  lemma ModeOfCommand(mode: AuthMode, mech: Option<Bytes>)
    requires mode != UnknownAuth
    ensures AuthModeFromCommand(mech) == mode <==> Spells(mech, AuthCommand(mode))
  {
    CapitalNames(mode);
    SpellsCapitals(mech, AuthCommand(mode));
    CommandOfMode(mode, mech);
  }

  lemma CommandOfMode(mode: AuthMode, mech: Option<Bytes>)
    requires mode != UnknownAuth
    ensures AuthModeFromCommand(mech) == mode <==> StartsLike(mech, AuthCommand(mode))
  {
    var found := AuthModeFromCommand(mech);
    if found != UnknownAuth {
      FoundByName(mech);
      FirstLetter(found, mech);
    }
    if StartsLike(mech, AuthCommand(mode)) {
      FirstLetter(mode, mech);
      NamedIsFound(mode, mech);
    }
  }

  lemma FoundByName(mech: Option<Bytes>)
    requires AuthModeFromCommand(mech) != UnknownAuth
    ensures StartsLike(mech, AuthCommand(AuthModeFromCommand(mech)))
  {
  }

  lemma NamedIsFound(mode: AuthMode, mech: Option<Bytes>)
    requires mode != UnknownAuth && StartsLike(mech, AuthCommand(mode))
    ensures AuthModeFromCommand(mech) != UnknownAuth
  {
  }

  function Initial(mode: AuthMode): char {
    match mode
    case Plain => 'p'
    case Login => 'l'
    case CramMD5 => 'c'
    case DigestMD5 => 'd'
    case GSSAPI => 'g'
    case NTLM => 'n'
    case Anonymous => 'a'
    case XOAuth2 => 'x'
    case UnknownAuth => '?'
  }

  /** The names have different first letters. */
  lemma FirstLetter(mode: AuthMode, mech: Option<Bytes>)
    requires mode != UnknownAuth && StartsLike(mech, AuthCommand(mode))
    ensures LowerCase(mech.value[0]) == Initial(mode)
  {
    assert LowerCase(AuthCommand(mode)[0]) == Initial(mode);
  }

  // ---------------------------------------------------------------------
  // The job
  // ---------------------------------------------------------------------

  /** The fields of LoginJobPrivate. */
  datatype LoginState = LoginState(
    userName: Bytes, password: Bytes, preferred: AuthMode, actual: AuthMode, error: nat)

  const NEW_LOGIN_JOB := LoginState([], [], Login, UnknownAuth, 0)

  function SetPreferred(job: LoginState, mode: AuthMode): LoginState {
    if mode == UnknownAuth then job else job.(preferred := mode)
  }

  /** selectAuthentication: the mode it settles on, or UnknownAuth when it fails. */
  function Selection(preferred: AuthMode, available: seq<Bytes>): AuthMode {
    if AuthCommand(preferred) in available then preferred
    else if AuthCommand(Login) in available then Login
    else if AuthCommand(Plain) in available then Plain
    else UnknownAuth
  }

  /** What the SASL library answers when asked to start. */
  datatype SaslStart =
    | LibraryFailed
    | ConnectionFailed
    | Answer(ok: bool, mech: Option<Bytes>, out: Bytes)

  function AuthLine(mode: AuthMode, out: Bytes, base64: Bytes -> Bytes): Bytes {
    "AUTH " + AuthCommand(mode) + if out == [] then [] else " " + base64(out)
  }

  function Failed(job: LoginState, error: nat): (LoginState, seq<Effect>) {
    (job.(error := error), [EmitResult(error)])
  }

  /** doStart and authenticate. `secured` is false when encryption was asked for and is not there. */
  function Start(job: LoginState, caps: Capabilities, secured: bool, sasl: SaslStart, base64: Bytes -> Bytes)
    : (LoginState, seq<Effect>)
  {
    if !secured then (job, [Abort(LoginUnencrypted)])
    else
      var mode := Selection(job.preferred, caps.authModes);
      if mode == UnknownAuth then Failed(job, USER_DEFINED_ERROR)
      else
        var selected := job.(actual := mode);
        match sasl
        case LibraryFailed => Failed(selected, USER_DEFINED_ERROR)
        case ConnectionFailed => Failed(selected, USER_DEFINED_ERROR)
        case Answer(ok, mech, out) =>
          var answered := selected.(actual := AuthModeFromCommand(mech));
          if !ok then Failed(answered, USER_DEFINED_ERROR)
          else (answered, [Send(AuthLine(mode, out, base64))])
  }

  function PlainCredentials(job: LoginState): Bytes {
    ['\0'] + job.userName + ['\0'] + job.password
  }

  /** What handleResponse does after handleErrors. */
  function Advance(job: LoginState, r: ServerResponse, sasl: SaslStep, base64: Bytes -> Bytes)
    : (LoginState, seq<Effect>)
  {
    if Matches(r.code, 334) then
      if job.actual == Plain then (job, [Send(base64(PlainCredentials(job)))])
      else if job.actual == XOAuth2 && sasl.expired then
        (job.(error := TOKEN_EXPIRED), [Send([]), EmitResult(TOKEN_EXPIRED)])
      else if !sasl.ok then Failed(job, USER_DEFINED_ERROR)
      else (job, [Send(base64(sasl.out))])
    else if Matches(r.code, 235) then (job, [Authenticate, EmitResult(job.error)])
    else (job, [])
  }

  function Handle(job: LoginState, r: ServerResponse, sasl: SaslStep, base64: Bytes -> Bytes)
    : (LoginState, seq<Effect>)
  {
    if IsError(r) then
      var (failed, result) := Failed(job, USER_DEFINED_ERROR);
      var (next, more) := Advance(failed, r, sasl, base64);
      (next, result + more)
    else Advance(job, r, sasl, base64)
  }

  /** For an error reply nothing more is done: the codes exclude each other. */
  lemma ErrorEndsStep(job: LoginState, r: ServerResponse, sasl: SaslStep, base64: Bytes -> Bytes)
    requires IsError(r)
    ensures Handle(job, r, sasl, base64) == Failed(job, USER_DEFINED_ERROR)
  {
    CodeRanges(r.code);
    var (failed, result) := Failed(job, USER_DEFINED_ERROR);
    assert Advance(failed, r, sasl, base64).1 == [];
    assert result + [] == result;
  }

  /**
   * A reply never gives two results, nothing follows a result, and the session
   * becomes authenticated on 235 and on nothing else.
   */
  lemma StepIsWellFormed(job: LoginState, r: ServerResponse, sasl: SaslStep, base64: Bytes -> Bytes)
    ensures WellFormed(Handle(job, r, sasl, base64).1)
    ensures Authenticate in Handle(job, r, sasl, base64).1 <==> r.code == 235
    ensures r.code == 235 ==> Results(Handle(job, r, sasl, base64).1) == [job.error]
    ensures r.code != 235 ==> forall e :: e in Results(Handle(job, r, sasl, base64).1) ==> e != 0
    ensures Results(Handle(job, r, sasl, base64).1) == [] ==> Handle(job, r, sasl, base64).0 == job
  {
    CodeRanges(r.code);
    var effects := Handle(job, r, sasl, base64).1;
    if IsError(r) {
      ErrorEndsStep(job, r, sasl, base64);
    }
    if |effects| > 0 {
      assert Results(effects) == (if effects[0].EmitResult? then [effects[0].error] else []) + Results(effects[1..]);
    }
    if |effects| == 2 {
      assert Results(effects[1..]) == [effects[1].error] + Results([]);
      assert r.code == 235 ==> effects[0] == Authenticate;
    }
  }

  // ---------------------------------------------------------------------
  // What a server reads
  // ---------------------------------------------------------------------

  /** The names under which the mechanisms are registered. */
  lemma RegisteredNames()
    ensures AuthCommand(Plain) == "PLAIN" && AuthCommand(Login) == "LOGIN" && AuthCommand(CramMD5) == "CRAM-MD5"
    ensures AuthCommand(DigestMD5) == "DIGEST-MD5" && AuthCommand(GSSAPI) == "GSSAPI" && AuthCommand(NTLM) == "NTLM"
    ensures AuthCommand(Anonymous) == "ANONYMOUS" && AuthCommand(XOAuth2) == "XOAUTH2"
  {
  }

  /** The AUTH line is read as the mechanism and, when the library has produced one, its initial response. */
  lemma AuthIsRead(mode: AuthMode, out: Bytes, base64: Bytes -> Bytes)
    ensures R.ReadCommand(AuthLine(mode, out, base64))
         == R.Auth(AuthCommand(mode), if out == [] then None else Some(base64(out)))
  {
    R.AuthLineIsRead(AuthCommand(mode), base64(out));
    assert "AUTH " + AuthCommand(mode) + [] == "AUTH " + AuthCommand(mode);
  }

  /** The name a login takes among those on offer: of the one preferred, else LOGIN, else PLAIN. */
  predicate Takes(preferred: AuthMode, offered: seq<Bytes>, name: Bytes) {
    && name in offered
    && (AuthCommand(preferred) in offered ==> name == AuthCommand(preferred))
    && (AuthCommand(preferred) !in offered && "LOGIN" in offered ==> name == "LOGIN")
    && (AuthCommand(preferred) !in offered && "LOGIN" !in offered ==> name == "PLAIN")
  }

  predicate CanTake(preferred: AuthMode, offered: seq<Bytes>) {
    AuthCommand(preferred) in offered || "LOGIN" in offered || "PLAIN" in offered
  }

  /** A line is read as AUTH with the mechanism taken and the library's initial response. */
  ghost predicate IsAuthOf(preferred: AuthMode, offered: seq<Bytes>, out: Bytes, base64: Bytes -> Bytes, line: Bytes) {
    exists name ::
      && Takes(preferred, offered, name)
      && R.ReadCommand(line) == R.Auth(name, if out == [] then None else Some(base64(out)))
  }

  /**
   * A login that is started sends AUTH exactly when it can take a mechanism and the
   * library goes along, and else fails without a word. From then on it goes by the
   * mechanism that the library has named.
   */
  lemma Begins(job: LoginState, caps: Capabilities, sasl: SaslStart, base64: Bytes -> Bytes)
    requires job.preferred != UnknownAuth
    ensures var (next, effects) := Start(job, caps, true, sasl, base64);
      if CanTake(job.preferred, caps.authModes) && sasl.Answer? && sasl.ok then
        && |effects| == 1 && effects[0].Send?
        && IsAuthOf(job.preferred, caps.authModes, sasl.out, base64, effects[0].command)
        && next == job.(actual := AuthModeFromCommand(sasl.mech))
      else
        effects == [EmitResult(USER_DEFINED_ERROR)]
  {
    RegisteredNames();
    var mode := Selection(job.preferred, caps.authModes);
    if mode != UnknownAuth && sasl.Answer? && sasl.ok {
      AuthIsRead(mode, sasl.out, base64);
      assert Takes(job.preferred, caps.authModes, AuthCommand(mode));
    }
  }

  /** What is sent on a challenge when the library has named `mech`. */
  function MechanismResponse(job: LoginState, mech: Option<Bytes>, h: Heard, base64: Bytes -> Bytes): Bytes {
    base64(if Spells(mech, "PLAIN") then ['\0'] + job.userName + ['\0'] + job.password else h.step.out)
  }

  function MechanismResponses(job: LoginState, mech: Option<Bytes>, heard: seq<Heard>, base64: Bytes -> Bytes)
    : seq<Bytes>
  {
    if heard == [] then []
    else
      var last := heard[|heard| - 1];
      MechanismResponses(job, mech, heard[..|heard| - 1], base64)
      + if last.reply.code == 334 then [MechanismResponse(job, mech, last, base64)] else []
  }

  /**
   * User name and password are sent on a challenge exactly when the library has
   * named PLAIN, in any letter case and with anything after it; and then a server
   * reads them back, if neither is empty or contains NUL. Otherwise what is sent is
   * the library's own step.
   */
  lemma {:induction false} ResponsesFollowMechanism(job: LoginState, mech: Option<Bytes>, heard: seq<Heard>,
                                                    base64: Bytes -> Bytes)
    ensures Responses(job.(actual := AuthModeFromCommand(mech)), heard, base64)
         == MechanismResponses(job, mech, heard, base64)
    ensures job.userName != [] && job.password != [] && '\0' !in job.userName && '\0' !in job.password ==>
      R.ReadPlain(PlainCredentials(job)) == Some(R.PlainMessage([], job.userName, job.password))
    decreases |heard|
  {
    R.PlainIsRead(job.userName, job.password);
    ModeOfCommand(Plain, mech);
    if heard != [] {
      ResponsesFollowMechanism(job, mech, heard[..|heard| - 1], base64);
    }
  }

  // ---------------------------------------------------------------------
  // Whole dialogues
  // ---------------------------------------------------------------------

  datatype Outcome = Outcome(job: LoginState, commands: seq<Bytes>, results: seq<nat>)

  /** The commands and results of a login that has sent AUTH; after a result it hears no more. */
  function Dialogue(job: LoginState, heard: seq<Heard>, base64: Bytes -> Bytes): Outcome
    decreases |heard|
  {
    if heard == [] then Outcome(job, [], [])
    else
      var before := Dialogue(job, heard[..|heard| - 1], base64);
      if before.results != [] then before
      else
        var last := heard[|heard| - 1];
        var (next, effects) := Handle(before.job, last.reply, last.step, base64);
        Outcome(next, before.commands + Commands(effects), Results(effects))
  }

  predicate Challenges(h: Heard) { h.reply.code == 334 }

  predicate TokenExpired(job: LoginState, h: Heard) {
    Challenges(h) && job.actual == XOAuth2 && h.step.expired
  }

  /** A challenge the job cannot answer. */
  predicate Gives(job: LoginState, h: Heard) {
    Challenges(h) && job.actual != Plain && (TokenExpired(job, h) || !h.step.ok)
  }

  /** The reply that decides the login: an error, 235, or a challenge it cannot answer. */
  predicate Decides(job: LoginState, h: Heard) {
    IsError(h.reply) || h.reply.code == 235 || Gives(job, h)
  }

  function Decision(job: LoginState, h: Heard): nat {
    if h.reply.code == 235 then 0
    else if TokenExpired(job, h) then TOKEN_EXPIRED
    else USER_DEFINED_ERROR
  }

  /** An expired token is acknowledged with an empty line. */
  function LastWord(job: LoginState, h: Heard): seq<Bytes> {
    if TokenExpired(job, h) then [[]] else []
  }

  function Response(job: LoginState, h: Heard, base64: Bytes -> Bytes): Bytes {
    base64(if job.actual == Plain then PlainCredentials(job) else h.step.out)
  }

  /** One response for each challenge, in order. */
  function Responses(job: LoginState, heard: seq<Heard>, base64: Bytes -> Bytes): seq<Bytes> {
    if heard == [] then []
    else
      var last := heard[|heard| - 1];
      Responses(job, heard[..|heard| - 1], base64) + if Challenges(last) then [Response(job, last, base64)] else []
  }

  predicate Undecided(job: LoginState, heard: seq<Heard>) {
    forall i :: 0 <= i < |heard| ==> !Decides(job, heard[i])
  }

  lemma OneResult(error: nat)
    ensures Commands([EmitResult(error)]) == [] && Results([EmitResult(error)]) == [error]
  {
    assert [EmitResult(error)][1..] == [];
  }

  lemma UndecidedReply(job: LoginState, h: Heard, base64: Bytes -> Bytes)
    requires !Decides(job, h)
    ensures var (next, effects) := Handle(job, h.reply, h.step, base64);
      && next == job && Results(effects) == []
      && Commands(effects) == if Challenges(h) then [Response(job, h, base64)] else []
  {
    CodeRanges(h.reply.code);
    if Challenges(h) {
      assert Handle(job, h.reply, h.step, base64).1 == [Send(Response(job, h, base64))];
      assert [Send(Response(job, h, base64))][1..] == [];
    }
  }

  lemma DecidingReply(job: LoginState, h: Heard, base64: Bytes -> Bytes)
    requires Decides(job, h) && job.error == 0
    ensures var effects := Handle(job, h.reply, h.step, base64).1;
      Commands(effects) == LastWord(job, h) && Results(effects) == [Decision(job, h)]
  {
    CodeRanges(h.reply.code);
    var effects := Handle(job, h.reply, h.step, base64).1;
    OneResult(Decision(job, h));
    if IsError(h.reply) {
      ErrorEndsStep(job, h.reply, h.step, base64);
    } else if h.reply.code == 235 {
      assert effects[1..] == [EmitResult(0)];
    } else if TokenExpired(job, h) {
      assert effects[1..] == [EmitResult(TOKEN_EXPIRED)];
    }
  }

  /** Until it is decided a login gives one response for each challenge. */
  lemma {:induction false} RespondsUntilDecided(job: LoginState, heard: seq<Heard>, base64: Bytes -> Bytes)
    requires Undecided(job, heard)
    ensures Dialogue(job, heard, base64) == Outcome(job, Responses(job, heard, base64), [])
    decreases |heard|
  {
    if heard != [] {
      var before, last := heard[..|heard| - 1], heard[|heard| - 1];
      RespondsUntilDecided(job, before, base64);
      UndecidedReply(job, last, base64);
    }
  }

  /** Once there is a result the dialogue stands still. */
  lemma {:induction false} Finished(job: LoginState, heard: seq<Heard>, k: nat, base64: Bytes -> Bytes)
    requires k <= |heard| && Dialogue(job, heard[..k], base64).results != []
    ensures Dialogue(job, heard, base64) == Dialogue(job, heard[..k], base64)
    decreases |heard|
  {
    if k == |heard| {
      assert heard[..k] == heard;
    } else {
      var before := heard[..|heard| - 1];
      assert before[..k] == heard[..k];
      Finished(job, before, k, base64);
    }
  }

  lemma HeardOneMore(job: LoginState, heard: seq<Heard>, h: Heard, base64: Bytes -> Bytes)
    requires Dialogue(job, heard, base64).results == []
    ensures var before := Dialogue(job, heard, base64);
      var (next, effects) := Handle(before.job, h.reply, h.step, base64);
      Dialogue(job, heard + [h], base64) == Outcome(next, before.commands + Commands(effects), Results(effects))
  {
    assert (heard + [h])[..|heard|] == heard;
  }

  /**
   * The first reply that decides the login gives its one result: 0 on 235, the
   * token's error on an expired token, the general error otherwise.
   */
  lemma DecidedBy(job: LoginState, heard: seq<Heard>, k: nat, base64: Bytes -> Bytes)
    requires job.error == 0 && k < |heard| && Undecided(job, heard[..k]) && Decides(job, heard[k])
    ensures Dialogue(job, heard, base64).results == [Decision(job, heard[k])]
    ensures Dialogue(job, heard, base64).commands == Responses(job, heard[..k], base64) + LastWord(job, heard[k])
  {
    RespondsUntilDecided(job, heard[..k], base64);
    DecidingReply(job, heard[k], base64);
    HeardOneMore(job, heard[..k], heard[k], base64);
    assert heard[..k + 1] == heard[..k] + [heard[k]];
    Finished(job, heard, k + 1, base64);
  }

  /** The first deciding reply, if there is one. */
  lemma {:induction false} FirstDeciding(job: LoginState, heard: seq<Heard>) returns (k: nat)
    ensures k <= |heard| && Undecided(job, heard[..k])
    ensures k < |heard| ==> Decides(job, heard[k])
    decreases |heard|
  {
    if heard == [] {
      k := 0;
    } else {
      var before := heard[..|heard| - 1];
      k := FirstDeciding(job, before);
      assert before[..k] == heard[..k];
      if k == |before| && !Decides(job, heard[k]) {
        k := |heard|;
        assert heard[..k] == heard;
      }
    }
  }

  /**
   * With a known preference (and setPreferedAuthMode keeps it known) the AUTH
   * command names a mechanism the server offers; the preferred one when offered,
   * else LOGIN, else PLAIN; and selection fails exactly when all three are missing.
   */
  lemma MechanismIsOffered(job: LoginState, mode: AuthMode, available: seq<Bytes>)
    requires job.preferred != UnknownAuth
    ensures var preferred := SetPreferred(job, mode).preferred;
      var chosen := Selection(preferred, available);
      && preferred != UnknownAuth
      && (chosen != UnknownAuth ==> AuthCommand(chosen) in available)
      && (chosen == UnknownAuth <==>
           forall m :: m in {preferred, Login, Plain} ==> AuthCommand(m) !in available)
      && (AuthCommand(preferred) in available ==> chosen == preferred)
      && preferred == (if mode == UnknownAuth then job.preferred else mode)
      && (chosen == Plain && preferred != Plain ==> AuthCommand(Login) !in available)
  {
    var preferred := SetPreferred(job, mode).preferred;
    if Selection(preferred, available) != UnknownAuth {
      assert Selection(preferred, available) in {preferred, Login, Plain};
    }
  }
}
