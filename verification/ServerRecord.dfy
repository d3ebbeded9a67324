/**
 * What the session knows about the server is exactly what the server said: a
 * declarative reading of all lines of 25x replies ever heard in the handshake.
 */
module ServerRecord {
  import opened ByteArrays
  import opened ReplyCodes
  import opened JobEffects
  import opened SessionModel
  import opened RequestLog
  import opened Scheduling
  import opened Handshakes
  import LD = LoginDialogue
  import RP = ReplyParser

  /** The texts of the 25x lines heard in Handshake, over all connections of the run. */
  function Lines(cfg: Config, events: seq<Event>): seq<Bytes> {
    if events == [] then []
    else
      var before, last := events[..|events| - 1], events[|events| - 1];
      Lines(cfg, before)
      + if last.Reply? && After(cfg, before).state == Handshake && Matches(last.r.code, 25) then [last.r.text] else []
  }

  predicate IsSize(line: Bytes) { "SIZE " <= line }

  predicate IsAuth(line: Bytes) { "AUTH " <= line }

  /** The value of the last SIZE line, 0 before there is one. */
  function LastSize(cfg: Config, lines: seq<Bytes>): int {
    if lines == [] then 0
    else
      var last := lines[|lines| - 1];
      if IsSize(last) then SizeValue(cfg, last) else LastSize(cfg, lines[..|lines| - 1])
  }

  /** The words after AUTH, of all AUTH lines. */
  function Mechanisms(lines: seq<Bytes>): seq<Bytes> {
    if lines == [] then []
    else
      var last := lines[|lines| - 1];
      Mechanisms(lines[..|lines| - 1]) + if IsAuth(last) then Split(RemoveFirst(last, 5)) else []
  }

  /** `chosen` lists the distinct elements of `all`, in the order of their first occurrence. */
  ghost predicate FirstOccurrences(chosen: seq<Bytes>, all: seq<Bytes>) {
    && (forall x :: x in chosen <==> x in all)
    && (forall i, j :: 0 <= i < j < |chosen| ==>
          chosen[i] in all && chosen[j] in all && FirstIndex(all, chosen[i]) < FirstIndex(all, chosen[j]))
  }

  function FirstIndex(all: seq<Bytes>, x: Bytes): (i: nat)
    requires x in all
    ensures i < |all| && all[i] == x && x !in all[..i]
  {
    if all[0] == x then 0 else
      assert all == [all[0]] + all[1..];
      var k := FirstIndex(all[1..], x);
      assert all[..k + 1] == [all[0]] + all[1..][..k];
      k + 1
  }

  lemma {:induction false} FirstIndexKept(all: seq<Bytes>, more: seq<Bytes>, x: Bytes)
    requires x in all
    ensures FirstIndex(all + more, x) == FirstIndex(all, x)
  {
    if all[0] != x {
      assert (all + more)[1..] == all[1..] + more;
      FirstIndexKept(all[1..], more, x);
    }
  }

  lemma {:induction false} AddMethodsInTurn(modes: seq<Bytes>, first: seq<Bytes>, second: seq<Bytes>)
    ensures AddMethods(AddMethods(modes, first), second) == AddMethods(modes, first + second)
    decreases |second|
  {
    if second == [] {
      assert first + second == first;
    } else {
      var before := second[..|second| - 1];
      AddMethodsInTurn(modes, first, before);
      assert (first + second)[..|first + second| - 1] == first + before;
    }
  }

  /** Adding methods one by one keeps the first occurrence of each. */
  lemma {:induction false} AddMethodsKeepsFirst(all: seq<Bytes>)
    ensures FirstOccurrences(AddMethods([], all), all)
    decreases |all|
  {
    if all != [] {
      var before, last := all[..|all| - 1], all[|all| - 1];
      var chosen := AddMethods([], before);
      AddMethodsKeepsFirst(before);
      assert all == before + [last];
      forall x | x in before ensures FirstIndex(all, x) == FirstIndex(before, x) {
        FirstIndexKept(before, [last], x);
      }
      if last !in chosen {
        forall k | 0 <= k < |before| ensures all[k] != last {
          assert all[k] == before[k];
        }
        assert FirstIndex(all, last) == |before|;
      }
    }
  }

  lemma {:induction false} SplitLines(modes: seq<Bytes>, lines: seq<Bytes>, line: Bytes)
    requires modes == AddMethods([], Mechanisms(lines)) && IsAuth(line)
    ensures AddMethods(modes, Split(RemoveFirst(line, 5))) == AddMethods([], Mechanisms(lines + [line]))
  {
    assert (lines + [line])[..|lines|] == lines;
    AddMethodsInTurn([], Mechanisms(lines), Split(RemoveFirst(line, 5)));
  }

  predicate Records(cfg: Config, caps: Capabilities, lines: seq<Bytes>) {
    && caps.sizeLimit == LastSize(cfg, lines)
    && (caps.allowsTls <==> "STARTTLS" in lines)
    && (caps.allowsDsn <==> "DSN" in lines)
    && (caps.allowsSmtpUtf8 <==> "SMTPUTF8" in lines)
    && caps.authModes == AddMethods([], Mechanisms(lines))
  }

  lemma LineKinds(line: Bytes)
    ensures IsSize(line) ==> line[0] == 'S' && line[1] == 'I'
    ensures IsAuth(line) ==> line[0] == 'A'
    ensures "STARTTLS"[1] == 'T' && "DSN"[0] == 'D' && "SMTPUTF8"[1] == 'M' && "SMTPUTF8"[0] == 'S'
  {
    assert "SIZE "[0] == 'S' && "SIZE "[1] == 'I' && "AUTH "[0] == 'A';
  }

  lemma NoteRecords(cfg: Config, caps: Capabilities, lines: seq<Bytes>, line: Bytes)
    requires Records(cfg, caps, lines)
    ensures Records(cfg, Note(cfg, caps, line), lines + [line])
  {
    assert (lines + [line])[..|lines|] == lines;
    LineKinds(line);
    if IsAuth(line) {
      SplitLines(caps.authModes, lines, line);
    } else {
      assert Mechanisms(lines + [line]) == Mechanisms(lines);
    }
  }

  /**
   * In every run, over any number of connections: the size limit is the last
   * SIZE value, each flag is set exactly when its line was heard, and the
   * mechanisms are the words of all AUTH lines, each once, in the order of their
   * first occurrence.
   */
  lemma {:induction false} CapabilitiesAreWhatWasSaid(cfg: Config, events: seq<Event>)
    requires IsRun(cfg, events)
    ensures var caps, lines := After(cfg, events).caps, Lines(cfg, events);
      && caps.sizeLimit == LastSize(cfg, lines)
      && (caps.allowsTls <==> "STARTTLS" in lines)
      && (caps.allowsDsn <==> "DSN" in lines)
      && (caps.allowsSmtpUtf8 <==> "SMTPUTF8" in lines)
      && FirstOccurrences(caps.authModes, Mechanisms(lines))
  {
    SessionRecords(cfg, events);
    AddMethodsKeepsFirst(Mechanisms(Lines(cfg, events)));
  }

  lemma {:induction false} SessionRecords(cfg: Config, events: seq<Event>)
    requires IsRun(cfg, events)
    ensures Records(cfg, After(cfg, events).caps, Lines(cfg, events))
    decreases |events|
  {
    if events != [] {
      var before, last := events[..|events| - 1], events[|events| - 1];
      SessionRecords(cfg, before);
      JobsAreDecidedInOrder(cfg, before);
      StepFrame(cfg, After(cfg, before), Added(before), last);
      if Lines(cfg, events) != Lines(cfg, before) {
        NoteRecords(cfg, After(cfg, before).caps, Lines(cfg, before), last.r.text);
      }
    }
  }

  // ---------------------------------------------------------------------
  // The size limit
  // ---------------------------------------------------------------------

  /** The largest value of an int. */
  const MAX_INT := 0x7fff_ffff

  /** toInt reads digits as a decimal number, and reports failure when an int cannot hold it. */
  ghost predicate ReadsNumbers(toInt: Bytes -> Option<int>) {
    && toInt([]) == None
    && forall s: Bytes :: s != [] && RP.AllDigits(s) ==>
         toInt(s) == if RP.DigitsValue(s) <= MAX_INT then Some(RP.DigitsValue(s)) else None
  }

  predicate NoSize(lines: seq<Bytes>) {
    forall i :: 0 <= i < |lines| ==> !IsSize(lines[i])
  }

  lemma {:induction false} LastSizeIs(cfg: Config, earlier: seq<Bytes>, line: Bytes, later: seq<Bytes>)
    requires IsSize(line) && NoSize(later)
    ensures LastSize(cfg, earlier + [line] + later) == SizeValue(cfg, line)
    decreases |later|
  {
    var lines := earlier + [line] + later;
    if later == [] {
      assert lines[|lines| - 1] == line;
    } else {
      assert lines[..|lines| - 1] == earlier + [line] + later[..|later| - 1];
      assert !IsSize(later[|later| - 1]);
      LastSizeIs(cfg, earlier, line, later[..|later| - 1]);
    }
  }

  lemma {:induction false} NoLastSize(cfg: Config, lines: seq<Bytes>)
    requires NoSize(lines)
    ensures LastSize(cfg, lines) == 0
    decreases |lines|
  {
    if lines != [] {
      assert !IsSize(lines[|lines| - 1]);
      NoLastSize(cfg, lines[..|lines| - 1]);
    }
  }

  /**
   * In every run, the limit is the number in the last SIZE line; there is none, which
   * is 0, before there is such a line, when it holds no number, and when the number
   * is too large for an int.
   */
  lemma LimitIsLastNumber(cfg: Config, events: seq<Event>, earlier: seq<Bytes>, digits: Bytes, later: seq<Bytes>)
    requires IsRun(cfg, events) && ReadsNumbers(cfg.toInt)
    requires RP.AllDigits(digits) && NoSize(later)
    ensures Lines(cfg, events) == earlier + ["SIZE " + digits] + later ==>
      After(cfg, events).caps.sizeLimit
        == if digits != [] && RP.DigitsValue(digits) <= MAX_INT then RP.DigitsValue(digits) else 0
    ensures NoSize(Lines(cfg, events)) ==> After(cfg, events).caps.sizeLimit == 0
  {
    var line := "SIZE " + digits;
    CapabilitiesAreWhatWasSaid(cfg, events);
    LastSizeIs(cfg, earlier, line, later);
    assert RemoveFirst(line, 5) == digits;
    if NoSize(Lines(cfg, events)) {
      NoLastSize(cfg, Lines(cfg, events));
    }
  }

  // ---------------------------------------------------------------------
  // Words
  // ---------------------------------------------------------------------

  function Join(words: seq<Bytes>): Bytes
    requires words != []
  {
    if |words| == 1 then words[0] else words[0] + [' '] + Join(words[1..])
  }

  /** Splitting at spaces: the words have none, and joined by single spaces they are the text again. */
  lemma {:induction false} SplitIsInverseOfJoin(text: Bytes)
    ensures Split(text) != [] && Join(Split(text)) == text
    ensures forall word :: word in Split(text) ==> ' ' !in word
    decreases |text|
  {
    var i := IndexOf(text, ' ', 0);
    if i < 0 {
      assert text[0..] == text;
    } else {
      var first, rest := text[..i], text[i + 1..];
      SplitIsInverseOfJoin(rest);
      JoinFirst(first, Split(rest));
      assert text == first + [' '] + rest;
    }
  }

  lemma JoinFirst(first: Bytes, words: seq<Bytes>)
    requires words != []
    ensures Join([first] + words) == first + [' '] + Join(words)
  {
    assert ([first] + words)[1..] == words;
  }

  /** A login that starts names a mechanism that the server itself has listed. */
  lemma LoginUsesOfferedMechanism(cfg: Config, events: seq<Event>, login: LD.LoginState)
    requires IsRun(cfg, events) && login.preferred != LD.UnknownAuth
    ensures var mode := LD.Selection(login.preferred, After(cfg, events).caps.authModes);
      var offered := Mechanisms(Lines(cfg, events));
      && (mode != LD.UnknownAuth ==> LD.AuthCommand(mode) in offered)
      && (mode == LD.UnknownAuth <==>
           forall m :: m in {login.preferred, LD.Login, LD.Plain} ==> LD.AuthCommand(m) !in offered)
  {
    CapabilitiesAreWhatWasSaid(cfg, events);
    LD.MechanismIsOffered(login, login.preferred, After(cfg, events).caps.authModes);
  }
}
