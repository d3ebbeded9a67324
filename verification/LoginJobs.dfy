/** The LoginJob object (loginjob.cpp), proved against the functions of LoginDialogue. */
module LoginJobs {
  import opened ByteArrays
  import opened ReplyCodes
  import opened JobEffects
  import opened LoginDialogue

  class LoginJob {
    var userName: Bytes
    var password: Bytes
    var preferredAuthMode: AuthMode
    var actualAuthMode: AuthMode
    var error: nat
    const base64: Bytes -> Bytes

    function State(): LoginState
      reads this
    {
      LoginState(userName, password, preferredAuthMode, actualAuthMode, error)
    }

    /** The preference is never UnknownAuth. */
    predicate Valid()
      reads this
    {
      preferredAuthMode != UnknownAuth
    }

    constructor (base64: Bytes -> Bytes)
      ensures Valid() && State() == NEW_LOGIN_JOB && this.base64 == base64
    {
      userName, password := [], [];
      preferredAuthMode, actualAuthMode, error := Login, UnknownAuth, 0;
      this.base64 := base64;
    }

    method SetPreferredAuthMode(mode: AuthMode)
      modifies this
      ensures State() == SetPreferred(old(State()), mode)
      ensures old(Valid()) ==> Valid()
    {
      if mode == UnknownAuth {
        return;
      }
      preferredAuthMode := mode;
    }

    method SelectAuthentication(available: seq<Bytes>) returns (selected: bool)
      requires Valid()
      modifies this
      ensures selected == (Selection(old(preferredAuthMode), available) != UnknownAuth)
      ensures selected ==> State() == old(State()).(actual := Selection(old(preferredAuthMode), available))
      ensures !selected ==> State() == old(State()).(error := USER_DEFINED_ERROR)
    {
      if AuthCommand(preferredAuthMode) in available {
        actualAuthMode := preferredAuthMode;
      } else if AuthCommand(Login) in available {
        actualAuthMode := Login;
      } else if AuthCommand(Plain) in available {
        actualAuthMode := Plain;
      } else {
        error := USER_DEFINED_ERROR;
        return false;
      }
      return true;
    }

    /** authenticate: the command to send, or none when it fails. */
    method DoAuthenticate(caps: Capabilities, sasl: SaslStart) returns (ok: bool, effects: seq<Effect>)
      requires Valid()
      modifies this
      ensures Valid()
      ensures var (next, all) := Start(old(State()), caps, true, sasl, base64);
        State() == next && all == effects + if ok then [] else [EmitResult(error)]
    {
      var selected := SelectAuthentication(caps.authModes);
      if !selected {
        return false, [];
      }
      if sasl.LibraryFailed? || sasl.ConnectionFailed? {
        error := USER_DEFINED_ERROR;
        return false, [];
      }
      var authMode := actualAuthMode;
      actualAuthMode := AuthModeFromCommand(sasl.mech);
      if !sasl.ok {
        error := USER_DEFINED_ERROR;
        return false, [];
      }
      assert "AUTH " + AuthCommand(authMode) + [] == "AUTH " + AuthCommand(authMode);
      if sasl.out == [] {
        effects := [Send("AUTH " + AuthCommand(authMode))];
      } else {
        effects := [Send("AUTH " + AuthCommand(authMode) + (" " + base64(sasl.out)))];
      }
      ok := true;
    }

    method DoStart(caps: Capabilities, secured: bool, sasl: SaslStart) returns (effects: seq<Effect>)
      requires Valid()
      modifies this
      ensures Valid()
      ensures (State(), effects) == Start(old(State()), caps, secured, sasl, base64)
    {
      if !secured {
        return [Abort(LoginUnencrypted)];
      }
      var ok;
      ok, effects := DoAuthenticate(caps, sasl);
      if !ok {
        effects := effects + [EmitResult(error)];
      } else {
        assert effects + [] == effects;
      }
    }

    /** sasl_challenge. */
    method SaslChallenge(sasl: SaslStep) returns (ok: bool, effects: seq<Effect>)
      modifies this
      ensures var s := old(State());
        if s.actual == XOAuth2 && sasl.expired then
          !ok && State() == s.(error := TOKEN_EXPIRED) && effects == [Send([])]
        else if !sasl.ok then !ok && State() == s.(error := USER_DEFINED_ERROR) && effects == []
        else ok && State() == s && effects == [Send(base64(sasl.out))]
    {
      if actualAuthMode == XOAuth2 && sasl.expired {
        error := TOKEN_EXPIRED;
        return false, [Send([])];
      }
      if !sasl.ok {
        error := USER_DEFINED_ERROR;
        return false, [];
      }
      return true, [Send(base64(sasl.out))];
    }

    method HandleErrors(r: ServerResponse) returns (effects: seq<Effect>)
      modifies this
      ensures (State(), effects)
           == if IsError(r) then Failed(old(State()), USER_DEFINED_ERROR) else (old(State()), [])
    {
      var transient := IsCode(r, 4);
      var permanent := IsCode(r, 5);
      if transient || permanent {
        error := USER_DEFINED_ERROR;
        effects := [EmitResult(error)];
      } else {
        effects := [];
      }
    }

    method HandleResponse(r: ServerResponse, sasl: SaslStep) returns (effects: seq<Effect>)
      modifies this
      ensures (State(), effects) == Handle(old(State()), r, sasl, base64)
    {
      effects := HandleErrors(r);
      ghost var checked, before := State(), effects;
      var challenge := IsCode(r, 334);
      var more := [];
      if challenge {
        if actualAuthMode == Plain {
          more := [Send(base64(['\0'] + userName + ['\0'] + password))];
        } else {
          var ok;
          ok, more := SaslChallenge(sasl);
          if !ok {
            assert [] + [EmitResult(error)] == [EmitResult(error)];
            assert [Send([])] + [EmitResult(error)] == [Send([]), EmitResult(error)];
            more := more + [EmitResult(error)];
          }
        }
      } else {
        var agreed := IsCode(r, 235);
        if agreed {
          more := [Authenticate, EmitResult(error)];
        }
      }
      assert (State(), more) == Advance(checked, r, sasl, base64);
      assert [] + more == more;
      effects := effects + more;
    }

    /** Job::connectionLost. */
    method ConnectionLost() returns (effects: seq<Effect>)
      modifies this
      ensures (State(), effects) == Failed(old(State()), USER_DEFINED_ERROR)
    {
      error := USER_DEFINED_ERROR;
      effects := [EmitResult(error)];
    }
  }
}
