/**
 * What a server reads in a command line: section 4.1.1 of RFC 5321, with AUTH from
 * section 4 of RFC 4954 and STARTTLS from section 4 of RFC 3207. A verb is only
 * recognised in upper case, as the client writes it.
 */
module CommandReader {
  import opened ByteArrays

  datatype ClientCommand =
    | Ehlo(domain: Bytes)
    | Helo(domain: Bytes)
    | Mail(sender: Bytes, parameters: seq<Bytes>)
    | Rcpt(recipient: Bytes, parameters: seq<Bytes>)
    | Data
    | Quit
    | StartTls
    | Auth(mechanism: Bytes, initial: Option<Bytes>)
    | Unrecognized

  /**
   * Where a path that begins before position i ends: at the first '>' that is not
   * inside a quoted string (in which a backslash takes the next character as it is).
   */
  function PathEnd(s: Bytes, i: nat, quoted: bool): (end: int)
    requires i <= |s|
    ensures end == -1 || (i <= end < |s| && s[end] == '>')
    decreases |s| - i
  {
    if i == |s| then -1
    else if !quoted && s[i] == '>' then i
    else if quoted && s[i] == '\\' then (if i + 1 < |s| then PathEnd(s, i + 2, true) else -1)
    else PathEnd(s, i + 1, if s[i] == '"' then !quoted else quoted)
  }

  /** What follows the verb and '<' of MAIL and RCPT: the path and the parameters. */
  function ReadPath(s: Bytes): Option<(Bytes, seq<Bytes>)> {
    var end := PathEnd(s, 0, false);
    if end < 0 then None
    else
      var after := s[end + 1..];
      if after == [] then Some((s[..end], []))
      else if after[0] == ' ' then Some((s[..end], Split(after[1..])))
      else None
  }

  function ReadAuth(s: Bytes): ClientCommand {
    var i := IndexOf(s, ' ', 0);
    if i < 0 then Auth(s, None) else Auth(s[..i], Some(s[i + 1..]))
  }

  function ReadCommand(line: Bytes): ClientCommand {
    if "EHLO " <= line then Ehlo(line[5..])
    else if "HELO " <= line then Helo(line[5..])
    else if "MAIL FROM:<" <= line then
      match ReadPath(line[11..])
      case Some((path, parameters)) => Mail(path, parameters)
      case None => Unrecognized
    else if "RCPT TO:<" <= line then
      match ReadPath(line[9..])
      case Some((path, parameters)) => Rcpt(path, parameters)
      case None => Unrecognized
    else if line == "DATA" then Data
    else if line == "QUIT" then Quit
    else if line == "STARTTLS" then StartTls
    else if "AUTH " <= line then ReadAuth(line[5..])
    else Unrecognized
  }

  function ReadAll(lines: seq<Bytes>): (commands: seq<ClientCommand>)
    ensures |commands| == |lines|
    ensures forall i :: 0 <= i < |lines| ==> commands[i] == ReadCommand(lines[i])
  {
    seq(|lines|, (i: nat) requires i < |lines| => ReadCommand(lines[i]))
  }

  /** An address that can stand between angle brackets: the path does not end before the closing one, nor after it. */
  predicate FitsBrackets(address: Bytes) {
    PathEnd(address + ">", 0, false) == |address|
  }

  lemma {:induction false} PathEndStays(s: Bytes, more: Bytes, i: nat, quoted: bool)
    requires i <= |s| && PathEnd(s, i, quoted) >= 0
    ensures PathEnd(s + more, i, quoted) == PathEnd(s, i, quoted)
    decreases |s| - i
  {
    assert (s + more)[i] == s[i];
    if !quoted && s[i] == '>' {
    } else if quoted && s[i] == '\\' {
      PathEndStays(s, more, i + 2, true);
    } else {
      PathEndStays(s, more, i + 1, if s[i] == '"' then !quoted else quoted);
    }
  }

  /** Where no path ends, it does not end earlier with more input. */
  lemma {:induction false} PathEndLater(s: Bytes, more: Bytes, i: nat, quoted: bool)
    requires i <= |s| && PathEnd(s, i, quoted) == -1
    ensures var end := PathEnd(s + more, i, quoted); end == -1 || end >= |s|
    decreases |s| - i
  {
    if i < |s| {
      assert (s + more)[i] == s[i];
      if quoted && s[i] == '\\' {
        if i + 1 < |s| {
          PathEndLater(s, more, i + 2, true);
        }
      } else {
        PathEndLater(s, more, i + 1, if s[i] == '"' then !quoted else quoted);
      }
    }
  }

  /** A path is read back exactly when its address fits between the brackets. */
  lemma PathIsRead(address: Bytes, parameter: Bytes)
    requires ' ' !in parameter
    ensures ReadPath(address + ">" + (if parameter == [] then [] else [' '] + parameter))
         == Some((address, if parameter == [] then [] else [parameter]))
       <==> FitsBrackets(address)
  {
    var option := if parameter == [] then [] else [' '] + parameter;
    var closed, s := address + ">", address + ">" + option;
    if PathEnd(closed, 0, false) >= 0 {
      PathEndStays(closed, option, 0, false);
    } else {
      PathEndLater(closed, option, 0, false);
    }
    if FitsBrackets(address) {
      assert s[..|address|] == address && s[|address| + 1..] == option;
      if parameter != [] {
        assert option[1..] == parameter && parameter[0..] == parameter;
      }
    }
  }

  /** Most addresses do: all that have neither a quote nor a '>'. */
  lemma {:induction false} PlainFits(address: Bytes, i: nat)
    requires i <= |address| && '>' !in address && '"' !in address
    ensures PathEnd(address + ">", i, false) == |address|
    decreases |address| - i
  {
    if i < |address| {
      assert (address + ">")[i] == address[i] && address[i] in address;
      PlainFits(address, i + 1);
    }
  }

  lemma MailLine(s: Bytes)
    ensures ReadCommand("MAIL FROM:<" + s) == match ReadPath(s)
      case Some((path, parameters)) => Mail(path, parameters)
      case None => Unrecognized
  {
    var line := "MAIL FROM:<" + s;
    assert line[0] == 'M' && "EHLO "[0] == 'E' && "HELO "[0] == 'H';
    assert line[..11] == "MAIL FROM:<" && line[11..] == s;
  }

  lemma RcptLine(s: Bytes)
    ensures ReadCommand("RCPT TO:<" + s) == match ReadPath(s)
      case Some((path, parameters)) => Rcpt(path, parameters)
      case None => Unrecognized
  {
    var line := "RCPT TO:<" + s;
    assert line[0] == 'R' && "EHLO "[0] == 'E' && "HELO "[0] == 'H' && "MAIL FROM:<"[0] == 'M';
    assert line[..9] == "RCPT TO:<" && line[9..] == s;
  }

  lemma DataLine()
    ensures ReadCommand("DATA") == Data
  {
    assert "DATA"[0] == 'D' && "EHLO "[0] == 'E' && "HELO "[0] == 'H' && "MAIL FROM:<"[0] == 'M';
    assert "RCPT TO:<"[0] == 'R';
  }

  lemma GreetingLine(domain: Bytes)
    ensures ReadCommand("EHLO " + domain) == Ehlo(domain)
    ensures ReadCommand("HELO " + domain) == Helo(domain)
  {
    var ehlo, helo := "EHLO " + domain, "HELO " + domain;
    assert ehlo[..5] == "EHLO " && ehlo[5..] == domain;
    assert helo[..5] == "HELO " && helo[5..] == domain && helo[0] == 'H' && "EHLO "[0] == 'E';
  }

  lemma SessionLines()
    ensures ReadCommand("QUIT") == Quit && ReadCommand("STARTTLS") == StartTls
  {
    assert "EHLO "[0] == 'E' && "HELO "[0] == 'H' && "MAIL FROM:<"[0] == 'M' && "RCPT TO:<"[0] == 'R';
    assert "QUIT"[0] == 'Q' && "STARTTLS"[0] == 'S' && "DATA"[0] == 'D';
  }

  lemma AuthLineIsRead(mechanism: Bytes, initial: Bytes)
    requires ' ' !in mechanism
    ensures ReadCommand("AUTH " + mechanism) == Auth(mechanism, None)
    ensures ReadCommand("AUTH " + mechanism + (" " + initial)) == Auth(mechanism, Some(initial))
  {
    WordIsRead(mechanism, initial);
    AuthArguments(mechanism);
    AuthArguments(mechanism + (" " + initial));
    Joined("AUTH ", mechanism, " " + initial);
  }

  lemma Joined(a: Bytes, b: Bytes, c: Bytes)
    ensures a + b + c == a + (b + c)
  {
  }

  lemma WordIsRead(mechanism: Bytes, initial: Bytes)
    requires ' ' !in mechanism
    ensures ReadAuth(mechanism) == Auth(mechanism, None)
    ensures ReadAuth(mechanism + (" " + initial)) == Auth(mechanism, Some(initial))
  {
    var both := mechanism + (" " + initial);
    assert mechanism[0..] == mechanism;
    FirstSpace(both, |mechanism|);
    assert both[..|mechanism|] == mechanism && both[|mechanism| + 1..] == initial;
  }

  lemma AuthArguments(s: Bytes)
    ensures ReadCommand("AUTH " + s) == ReadAuth(s)
  {
    var line := "AUTH " + s;
    assert line[0] == 'A' && line[..5] == "AUTH " && line[5..] == s;
    assert "EHLO "[0] == 'E' && "HELO "[0] == 'H' && "MAIL FROM:<"[0] == 'M' && "RCPT TO:<"[0] == 'R';
    assert "QUIT"[0] == 'Q' && "STARTTLS"[0] == 'S' && "DATA"[0] == 'D';
  }

  lemma FirstSpace(s: Bytes, i: nat)
    requires i < |s| && s[i] == ' ' && forall k :: 0 <= k < i ==> s[k] != ' '
    ensures IndexOf(s, ' ', 0) == i
  {
    assert s[0..][i] == ' ';
  }

  /** The message of the PLAIN mechanism (section 2 of RFC 4616). */
  datatype PlainMessage = PlainMessage(authzid: Bytes, authcid: Bytes, passwd: Bytes)

  function ReadPlain(message: Bytes): Option<PlainMessage> {
    var i := IndexOf(message, '\0', 0);
    if i < 0 then None else ReadNames(message[..i], message[i + 1..])
  }

  /** The two names after the first NUL, neither of them empty. */
  function ReadNames(authzid: Bytes, rest: Bytes): Option<PlainMessage> {
    var j := IndexOf(rest, '\0', 0);
    if j <= 0 || rest[j + 1..] == [] || '\0' in rest[j + 1..] then None
    else Some(PlainMessage(authzid, rest[..j], rest[j + 1..]))
  }

  lemma NulAt(s: Bytes, more: Bytes)
    requires '\0' !in s
    ensures IndexOf(s + ['\0'] + more, '\0', 0) == |s|
    ensures (s + ['\0'] + more)[..|s|] == s && (s + ['\0'] + more)[|s| + 1..] == more
  {
    var both := s + ['\0'] + more;
    assert both[0..][|s|] == '\0';
    assert forall k :: 0 <= k < |s| ==> both[k] == s[k];
  }

  /** User and password are read back exactly when neither is empty nor contains NUL. */
  lemma PlainIsRead(user: Bytes, password: Bytes)
    ensures ReadPlain(['\0'] + user + ['\0'] + password) == Some(PlainMessage([], user, password))
       <==> user != [] && password != [] && '\0' !in user && '\0' !in password
  {
    var rest := user + ['\0'] + password;
    assert ['\0'] + user + ['\0'] + password == [] + ['\0'] + rest;
    NulAt([], rest);
    NamesAreRead(user, password);
  }

  lemma NamesAreRead(user: Bytes, password: Bytes)
    ensures ReadNames([], user + ['\0'] + password) == Some(PlainMessage([], user, password))
       <==> user != [] && password != [] && '\0' !in user && '\0' !in password
  {
    if '\0' !in user {
      NulAt(user, password);
    } else {
      EarlierNul(user, password);
    }
  }

  /** A NUL inside the user's name ends it early. */
  lemma EarlierNul(user: Bytes, password: Bytes)
    requires '\0' in user
    ensures 0 <= IndexOf(user + ['\0'] + password, '\0', 0) < |user|
  {
    var rest := user + ['\0'] + password;
    var k :| 0 <= k < |user| && user[k] == '\0';
    assert rest[0..][k] == '\0' && rest[k] == '\0';
  }
}
