/** The SendJob object (sendjob.cpp), proved against the functions of SendDialogue. */
module SendJobs {
  import opened ByteArrays
  import opened ReplyCodes
  import opened JobEffects
  import opened Addresses
  import opened Transparency
  import opened SendDialogue

  class SendJob {
    var returnPath: string
    var recipients: seq<string>
    var data: Bytes
    var recipientsCopy: seq<string>
    var status: Status
    var dsn: bool
    var smtputf8: bool
    var punycode: bool
    var error: nat
    const ace: string -> Bytes

    function State(): SendState
      reads this
    {
      SendState(returnPath, recipients, data, recipientsCopy, status, dsn, Encoding(smtputf8, punycode), error)
    }

    constructor (ace: string -> Bytes)
      ensures State() == NEW_SEND_JOB && this.ace == ace
    {
      returnPath, recipients, data := [], [], [];
      recipientsCopy, status := [], Idle;
      dsn, smtputf8, punycode, error := false, false, false, 0;
      this.ace := ace;
    }

    method SetFrom(from: string)
      modifies this
      ensures State() == old(State()).(returnPath := ReturnPath(from))
    {
      var start := IndexOf(from, '<', 0);
      if start > -1 {
        var end := Max(start, IndexOf(from, '>', start));
        returnPath := "<" + Mid(from, start + 1, end - start - 1) + ">";
      } else {
        returnPath := "<" + from + ">";
      }
    }

    /** setTo, setCc and setBcc. */
    method AddRecipients(list: seq<string>)
      modifies this
      ensures State() == old(State()).(recipients := old(recipients) + AddedRecipients(list))
    {
      var i := 0;
      while i < |list|
        invariant 0 <= i <= |list|
        invariant State() == old(State()).(recipients := old(recipients) + AddedRecipients(list[..i]))
      {
        var rcpt := list[i];
        OneMoreEntry(list, i);
        if rcpt != "" {
          recipients := recipients + [BareAddress(rcpt)];
        }
        i := i + 1;
      }
      assert list[..|list|] == list;
    }

    method SetData(text: Bytes)
      modifies this
      ensures State() == old(State()).(data := Encode(text))
    {
      data := text;
      data := Replace(data, LINE_DOT, LINE_TWO_DOTS);
    }

    method SetDeliveryStatusNotification(enabled: bool)
      modifies this
      ensures State() == old(State()).(dsn := enabled)
    {
      dsn := enabled;
    }

    function Size(): nat
      reads this
    {
      |data|
    }

    method Prepare() returns (ok: bool)
      modifies this
      ensures ok == (data != [] && recipients != [])
      ensures State() == old(State()).(recipientsCopy := if data == [] then old(recipientsCopy) else recipients)
    {
      if data == [] {
        return false;
      }
      recipientsCopy := recipients;
      return recipients != [];
    }

    /** analyzeAddresses: the flags for the sender and all recipients. */
    method AnalyzeAddresses()
      modifies this
      ensures State() == old(State()).(encoding := Analysis(AllAddresses(old(State()))))
    {
      var addresses := recipients;
      if returnPath != "" {
        addresses := [Mid(returnPath, 1, |returnPath| - 2)] + addresses;
      }
      assert addresses == AllAddresses(State());
      smtputf8, punycode := ScanAddresses(addresses);
    }

    function AddressToSend(address: string): Bytes
      reads this
    {
      AddressForSmtp(address, Encoding(smtputf8, punycode), ace)
    }

    method DoStart(caps: Capabilities) returns (effects: seq<Effect>)
      modifies this
      ensures (State(), effects) == Start(old(State()), caps, ace)
    {
      var prepared := Prepare();
      if !prepared {
        error := USER_DEFINED_ERROR;
        return [EmitResult(error)];
      }
      if caps.sizeLimit > 0 && Size() > caps.sizeLimit {
        error := USER_DEFINED_ERROR;
        return [EmitResult(error)];
      }
      AnalyzeAddresses();
      if smtputf8 && !caps.allowsSmtpUtf8 {
        error := USER_DEFINED_ERROR;
        return [EmitResult(error)];
      }
      status := SendingReturnPath;
      var mailFrom := MailFromCommand();
      effects := [Send(mailFrom)];
    }

    method MailFromCommand() returns (mailFrom: Bytes)
      ensures mailFrom == MailFrom(State(), ace)
    {
      var bareFrom := Mid(returnPath, 1, |returnPath| - 2);
      mailFrom := "MAIL FROM:<" + AddressToSend(bareFrom) + ">";
      if smtputf8 {
        mailFrom := mailFrom + " SMTPUTF8";
      } else {
        assert mailFrom + "" == mailFrom;
      }
    }

    method SendNextRecipient(allowsDsn: bool) returns (effects: seq<Effect>)
      modifies this
      ensures (State(), effects) == NextRecipient(old(State()), allowsDsn, ace)
    {
      if recipientsCopy == [] {
        return [Abort(TakeFromEmptyList)];
      }
      var dsnSupport := if allowsDsn then dsn else false;
      var recipient := recipientsCopy[0];
      recipientsCopy := recipientsCopy[1..];
      effects := [Send("RCPT TO:<" + AddressToSend(recipient) + ">"
                       + (if dsnSupport then " NOTIFY=success,failure" else ""))];
    }

    method HandleErrors(r: ServerResponse) returns (effects: seq<Effect>)
      modifies this
      ensures (State(), effects) == if IsError(r) then Failed(old(State())) else (old(State()), [])
    {
      var transient := IsCode(r, 4);
      var permanent := IsCode(r, 5);
      if transient || permanent {
        error := USER_DEFINED_ERROR;
        effects := [EmitResult(error)];
      } else {
        effects := [];
      }
    }

    method HandleResponse(r: ServerResponse, allowsDsn: bool) returns (effects: seq<Effect>)
      modifies this
      ensures (State(), effects) == Handle(old(State()), r, allowsDsn, ace)
    {
      effects := HandleErrors(r);
      ghost var checked := State();
      var ok := IsCode(r, 25);
      var more := [];
      match status {
        case Idle =>
        case SendingReturnPath =>
          if ok {
            status := SendingRecipients;
            more := SendNextRecipient(allowsDsn);
          }
        case SendingRecipients =>
          if ok {
            if recipientsCopy == [] {
              more := [Send("DATA")];
              status := SendingData;
            } else {
              more := SendNextRecipient(allowsDsn);
            }
          }
        case SendingData =>
          var goAhead := IsCode(r, 354);
          if goAhead {
            more := [Send(data), Send(LINE_DOT)];
          }
          if ok {
            more := more + [EmitResult(error)];
          } else {
            assert more + [] == more;
          }
      }
      assert (State(), more) == Advance(checked, r, allowsDsn, ace);
      assert [] + more == more;
      effects := effects + more;
    }

    /** Job::connectionLost. */
    method ConnectionLost() returns (effects: seq<Effect>)
      modifies this
      ensures (State(), effects) == Failed(old(State()))
    {
      error := USER_DEFINED_ERROR;
      effects := [EmitResult(error)];
    }
  }

  lemma OneMoreEntry(list: seq<string>, i: nat)
    requires i < |list|
    ensures AddedRecipients(list[..i + 1])
         == AddedRecipients(list[..i]) + if list[i] == "" then [] else [BareAddress(list[i])]
  {
    assert list[..i + 1] == list[..i] + [list[i]];
    AddedRecipientsAppend(list[..i], [list[i]]);
    assert [list[i]][1..] == [];
  }

  /** The loop of analyzeAddresses, with its early exit. */
  method ScanAddresses(addresses: seq<string>) returns (smtputf8: bool, punycode: bool)
    ensures Encoding(smtputf8, punycode) == Analysis(addresses)
  {
    smtputf8, punycode := false, false;
    var i := 0;
    while i < |addresses|
      invariant 0 <= i <= |addresses|
      invariant Analysis(addresses[..i]) == Encoding(false, punycode)
    {
      var localNonAscii, domainNonAscii := NonAsciiLocalPart(addresses[i]), NonAsciiDomain(addresses[i]);
      if localNonAscii {
        ScanStops(addresses, i);
        return true, punycode;
      }
      if domainNonAscii {
        punycode := true;
      }
      ScanGoesOn(addresses, i);
      i := i + 1;
    }
    assert addresses[..|addresses|] == addresses;
  }

  /** A non-ASCII local part settles it. */
  lemma ScanStops(addresses: seq<string>, i: nat)
    requires i < |addresses| && NonAsciiLocalPart(addresses[i]) && !Analysis(addresses[..i]).smtputf8
    ensures Analysis(addresses) == Encoding(true, Analysis(addresses[..i]).punycode)
  {
    assert addresses[i] in addresses;
    forall j | 0 <= j < i
      ensures !NonAsciiLocalPart(addresses[j]) && NoLocalUpTo(addresses, j) && NoLocalUpTo(addresses[..i], j)
    {
      assert addresses[..i][j] == addresses[j] && addresses[j] in addresses[..i];
      forall l | 0 <= l <= j ensures !NonAsciiLocalPart(addresses[l]) {
        assert addresses[..i][l] == addresses[l] && addresses[l] in addresses[..i];
      }
    }
    assert forall j | i <= j < |addresses| :: !NoLocalUpTo(addresses, j);
    if Analysis(addresses[..i]).punycode {
      var j :| 0 <= j < i && NonAsciiDomain(addresses[..i][j]);
      assert NonAsciiDomain(addresses[j]) && NoLocalUpTo(addresses, j);
    }
  }

  /** Otherwise the next address adds its domain. */
  lemma ScanGoesOn(addresses: seq<string>, i: nat)
    requires i < |addresses| && !NonAsciiLocalPart(addresses[i]) && !Analysis(addresses[..i]).smtputf8
    ensures Analysis(addresses[..i + 1])
         == Encoding(false, Analysis(addresses[..i]).punycode || NonAsciiDomain(addresses[i]))
  {
    var before, more := addresses[..i], addresses[..i + 1];
    assert more == before + [addresses[i]];
    assert !Analysis(more).smtputf8;
    AnalysisWithoutLocal(before);
    AnalysisWithoutLocal(more);
    assert addresses[i] in more;
  }
}
