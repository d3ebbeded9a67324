/**
 * Transparency of the message data: what SendJob does to the text before it
 * puts it on the wire, and what a receiver following section 4.5.2 of RFC 5321
 * makes of it.
 */
module Transparency {
  import opened ByteArrays

  const LINE_DOT: Bytes := "\r\n."
  const LINE_TWO_DOTS: Bytes := "\r\n.."

  /** What setData stores. */
  function Encode(data: Bytes): Bytes {
    Replace(data, LINE_DOT, LINE_TWO_DOTS)
  }

  /** The thread ends every command with CRLF. */
  function OnWire(commands: seq<Bytes>): Bytes {
    if commands == [] then [] else commands[0] + CRLF + OnWire(commands[1..])
  }

  lemma {:induction false} OnWireAppend(a: seq<Bytes>, b: seq<Bytes>)
    ensures OnWire(a + b) == OnWire(a) + OnWire(b)
  {
    if a == [] {
      assert a + b == b;
    } else {
      assert (a + b)[1..] == a[1..] + b;
      OnWireAppend(a[1..], b);
      assert a[0] + CRLF + (OnWire(a[1..]) + OnWire(b)) == a[0] + CRLF + OnWire(a[1..]) + OnWire(b);
    }
  }

  /** The two commands SendJob issues on a 354 reply. */
  function BodyCommands(encoded: Bytes): seq<Bytes> {
    [encoded, LINE_DOT]
  }

  // ---------------------------------------------------------------------
  // The receiver of section 4.5.2 of RFC 5321
  // ---------------------------------------------------------------------

  predicate CrlfAt(s: Bytes, i: nat) {
    i + 2 <= |s| && s[i] == '\r' && s[i + 1] == '\n'
  }

  /** The position of the first CRLF at or after `from`, or -1. */
  function FindCrlf(s: Bytes, from: nat): (i: int)
    requires from <= |s|
    ensures i == -1 || (from <= i && CrlfAt(s, i))
    ensures i == -1 ==> forall k :: from <= k ==> !CrlfAt(s, k)
    ensures forall k :: from <= k < i ==> !CrlfAt(s, k)
    decreases |s| - from
  {
    if |s| < from + 2 then -1
    else if CrlfAt(s, from) then from
    else FindCrlf(s, from + 1)
  }

  datatype Mail = Mail(text: Bytes, rest: Bytes)

  /**
   * Lines are read up to CRLF. A line that is a single period ends the text; of
   * any other line a leading period is deleted. The result is the text with its
   * line ends and the input that follows the terminator, or None when the
   * terminator has not arrived.
   */
  function Receive(wire: Bytes): Option<Mail>
    decreases |wire|
  {
    var i := FindCrlf(wire, 0);
    if i < 0 then None
    else
      var line, rest := wire[..i], wire[i + 2..];
      if line == "." then Some(Mail([], rest))
      else
        var kept := if line != [] && line[0] == '.' then line[1..] else line;
        match Receive(rest)
        case None => None
        case Some(mail) => Some(Mail(kept + CRLF + mail.text, mail.rest))
  }

  // ---------------------------------------------------------------------
  // Proof of the round trip
  // ---------------------------------------------------------------------

  predicate StartsWithDot(s: Bytes) { s != [] && s[0] == '.' }

  /** A text as it is sent when it is not the first line: with its leading dot doubled. */
  function Stuffed(s: Bytes): Bytes {
    ExtraDot(s) + Encode(s)
  }

  function ExtraDot(s: Bytes): Bytes {
    if StartsWithDot(s) then "." else []
  }

  /** Without a CRLF nothing is rewritten. */
  lemma {:induction false} EncodeOneLine(s: Bytes)
    requires FindCrlf(s, 0) == -1
    ensures Encode(s) == s
  {
    if s != [] {
      assert !CrlfAt(s, 0);
      forall k | 0 <= k ensures !CrlfAt(s[1..], k) {
        assert !CrlfAt(s, k + 1);
      }
      EncodeOneLine(s[1..]);
    }
  }

  lemma EncodeLineStart(s: Bytes)
    requires CrlfAt(s, 0)
    ensures Encode(s) == CRLF + Stuffed(s[2..])
  {
    var tail := s[2..];
    if StartsWithDot(tail) {
      assert s[..3] == LINE_DOT;
      assert tail[1..] == s[3..];
      assert Encode(tail) == "." + Encode(s[3..]);
      assert Encode(s) == LINE_TWO_DOTS + Encode(s[3..]);
      assert LINE_TWO_DOTS + Encode(s[3..]) == CRLF + ("." + ("." + Encode(s[3..])));
    } else {
      assert !(LINE_DOT <= s);
      assert s[1..][0] == '\n' && s[1..][1..] == tail;
      assert Encode(s) == [s[0]] + Encode(s[1..]);
      assert Encode(s[1..]) == [s[1]] + Encode(tail);
      assert Stuffed(tail) == Encode(tail);
      assert [s[0]] + ([s[1]] + Encode(tail)) == CRLF + Encode(tail);
    }
  }

  /** The encoding works line by line: every line after the first is stuffed. */
  lemma {:induction false} EncodeLines(s: Bytes, i: nat)
    requires FindCrlf(s, 0) == i
    ensures Encode(s) == s[..i] + (CRLF + Stuffed(s[i + 2..]))
    decreases i
  {
    assert CrlfAt(s, i);
    if i == 0 {
      EncodeLineStart(s);
    } else {
      assert !CrlfAt(s, 0);
      var t := s[1..];
      assert CrlfAt(t, i - 1);
      forall k | 0 <= k < i - 1 ensures !CrlfAt(t, k) {
        assert !CrlfAt(s, k + 1);
      }
      EncodeLines(t, i - 1);
      assert t[i - 1 + 2..] == s[i + 2..];
      assert [s[0]] + t[..i - 1] == s[..i];
      Assoc([s[0]], t[..i - 1], CRLF + Stuffed(s[i + 2..]));
    }
  }

  lemma Assoc(a: Bytes, b: Bytes, c: Bytes)
    ensures (a + b) + c == a + (b + c)
  {
  }

  /** The receiver takes a whole line off the wire, and its stuffing off the line. */
  lemma ReceiveLine(line: Bytes, rest: Bytes)
    requires FindCrlf(line, 0) == -1 && line != "."
    ensures Receive(line + CRLF + rest) == match Receive(rest)
      case None => None
      case Some(mail) => Some(Mail((if StartsWithDot(line) then line[1..] else line) + CRLF + mail.text, mail.rest))
  {
    FirstLine(line, rest);
  }

  lemma FirstLine(line: Bytes, rest: Bytes)
    requires FindCrlf(line, 0) == -1
    ensures FindCrlf(line + CRLF + rest, 0) == |line|
    ensures (line + CRLF + rest)[..|line|] == line
    ensures (line + CRLF + rest)[|line| + 2..] == rest
  {
    var wire := line + CRLF + rest;
    assert CrlfAt(wire, |line|);
    forall k | 0 <= k < |line| ensures !CrlfAt(wire, k) {
      assert !CrlfAt(line, k);
    }
  }

  /** What follows the text on the wire: its last CRLF, then the terminator command. */
  const END: Bytes := CRLF + (LINE_DOT + CRLF)

  lemma ReceiveEnd(rest: Bytes)
    ensures Receive(LINE_DOT + CRLF + rest) == Some(Mail(CRLF, rest))
  {
    var dot := "." + CRLF + rest;
    FirstLine(".", rest);
    assert Receive(dot) == Some(Mail([], rest));
    ReceiveLine([], dot);
    assert [] + CRLF + dot == LINE_DOT + CRLF + rest;
    assert [] + CRLF + [] == CRLF;
  }

  /** The first line of a text, as the receiver sees it. */
  lemma StuffedFirstLine(s: Bytes, line: Bytes)
    requires FindCrlf(line, 0) == -1 && line <= s && (line == [] ==> !StartsWithDot(s))
    ensures FindCrlf(ExtraDot(s) + line, 0) == -1 && ExtraDot(s) + line != "."
    ensures (if StartsWithDot(ExtraDot(s) + line) then (ExtraDot(s) + line)[1..] else ExtraDot(s) + line) == line
  {
    var sent := ExtraDot(s) + line;
    forall k | 0 <= k ensures !CrlfAt(sent, k) {
      if !StartsWithDot(s) {
        assert sent == line && !CrlfAt(line, k);
      } else if k > 0 {
        assert !CrlfAt(line, k - 1);
      }
    }
    if line != [] {
      assert line[0] == s[0];
      assert if StartsWithDot(s) then |sent| >= 2 else sent[0] != '.';
    }
  }

  /** The text up to its first CRLF. */
  lemma LineOf(s: Bytes, i: nat)
    requires FindCrlf(s, 0) == i
    ensures FindCrlf(s[..i], 0) == -1
    ensures s == s[..i] + CRLF + s[i + 2..]
    ensures i == 0 ==> !StartsWithDot(s)
  {
    assert CrlfAt(s, i);
    forall k | 0 <= k ensures !CrlfAt(s[..i], k) {
      if k < i { assert !CrlfAt(s, k); }
    }
  }

  /** A stuffed text and the terminator are read back as the text, then CRLF twice. */
  lemma {:induction false} ReceiveStuffed(s: Bytes, rest: Bytes)
    ensures Receive(Stuffed(s) + (END + rest)) == Some(Mail(s + CRLF + CRLF, rest))
    decreases |s|
  {
    var i := FindCrlf(s, 0);
    var line, after := FirstLineOnWire(s, rest);
    StuffedFirstLine(s, line);
    ReceiveLine(ExtraDot(s) + line, after);
    Assoc(ExtraDot(s), Encode(s), END + rest);
    Assoc(ExtraDot(s), line + CRLF, after);
    Assoc(ExtraDot(s), line, CRLF);
    if i < 0 {
      ReceiveEnd(rest);
    } else {
      ReceiveStuffed(s[i + 2..], rest);
      JoinText(line, s[i + 2..]);
    }
  }

  lemma JoinText(line: Bytes, tail: Bytes)
    ensures line + CRLF + (tail + CRLF + CRLF) == (line + CRLF + tail) + CRLF + CRLF
  {
    Assoc(line + CRLF, tail + CRLF, CRLF);
    Assoc(line + CRLF, tail, CRLF);
  }

  /**
   * The first line of the text and what follows it on the wire: the terminator,
   * or the stuffed rest of the text.
   */
  lemma FirstLineOnWire(s: Bytes, rest: Bytes) returns (line: Bytes, after: Bytes)
    ensures Encode(s) + (END + rest) == line + CRLF + after
    ensures FindCrlf(line, 0) == -1 && line <= s && (line == [] ==> !StartsWithDot(s))
    ensures var i := FindCrlf(s, 0);
      if i < 0 then line == s && after == LINE_DOT + CRLF + rest
      else line == s[..i] && after == Stuffed(s[i + 2..]) + (END + rest) && s == line + CRLF + s[i + 2..]
  {
    var i := FindCrlf(s, 0);
    if i < 0 {
      line, after := s, LINE_DOT + CRLF + rest;
      EncodeOneLine(s);
      Assoc(CRLF, LINE_DOT + CRLF, rest);
      Assoc(s, CRLF, after);
    } else {
      line, after := s[..i], Stuffed(s[i + 2..]) + (END + rest);
      LineOf(s, i);
      EncodeLines(s, i);
      Assoc(line, CRLF + Stuffed(s[i + 2..]), END + rest);
      Assoc(CRLF, Stuffed(s[i + 2..]), END + rest);
      Assoc(line, CRLF, after);
    }
  }

  /** Without a doubled dot at its start, a text that begins with a dot loses it or ends there. */
  lemma ReceiveLeadingDot(s: Bytes, rest: Bytes)
    requires StartsWithDot(s)
    ensures Receive(Encode(s) + (END + rest)) != Some(Mail(s + CRLF + CRLF, rest))
  {
    var i := FindCrlf(s, 0);
    var line, after := FirstLineOnWire(s, rest);
    if i < 0 {
      ReceiveEnd(rest);
    } else {
      ReceiveStuffed(s[i + 2..], rest);
    }
    if line == "." {
      FirstLine(line, after);
    } else {
      ReceiveLine(line, after);
      assert StartsWithDot(line);
      var text := Receive(after).value.text;
      assert |line[1..] + CRLF + text| < |line| + 2 + |text|;
      assert |line| + 2 + |text| == |s + CRLF + CRLF|;
    }
  }

  /**
   * The round trip over the actual wire bytes. For every text and whatever
   * follows, the receiver gets the text with its closing CRLF and one empty
   * line, stops at the job's own terminator and leaves the rest alone, exactly
   * when the text does not begin with a dot.
   */
  lemma RoundTrip(data: Bytes, rest: Bytes)
    ensures Receive(OnWire(BodyCommands(Encode(data))) + rest) == Some(Mail(data + CRLF + CRLF, rest))
       <==> !StartsWithDot(data)
  {
    var encoded := Encode(data);
    assert BodyCommands(encoded)[1..] == [LINE_DOT];
    assert OnWire([LINE_DOT]) == LINE_DOT + CRLF;
    assert OnWire(BodyCommands(encoded)) == encoded + CRLF + (LINE_DOT + CRLF);
    assert OnWire(BodyCommands(encoded)) + rest == encoded + (END + rest);
    if StartsWithDot(data) {
      ReceiveLeadingDot(data, rest);
    } else {
      assert Stuffed(data) == encoded;
      ReceiveStuffed(data, rest);
    }
  }

  // ---------------------------------------------------------------------
  // Size
  // ---------------------------------------------------------------------

  /** Where CRLF and a dot stand in a text. */
  function DotPositions(s: Bytes): set<nat> {
    set i: nat | i < |s| && LINE_DOT <= s[i..]
  }

  lemma PositionsMore(s: Bytes)
    requires s != []
    ensures |DotPositions(s)| == |DotPositions(s[1..])| + if LINE_DOT <= s then 1 else 0
  {
    var rest := set i: nat | i < |s| && LINE_DOT <= s[i..] && i > 0;
    ShiftedSize(DotPositions(s[1..]), rest, s);
    if LINE_DOT <= s {
      assert s[0..] == s;
      assert DotPositions(s) == rest + {0};
    } else {
      assert s[0..] == s;
      assert DotPositions(s) == rest;
    }
  }

  lemma ShiftedSize(tail: set<nat>, rest: set<nat>, s: Bytes)
    requires s != [] && tail == DotPositions(s[1..])
    requires rest == set i: nat | i < |s| && LINE_DOT <= s[i..] && i > 0
    ensures |tail| == |rest|
  {
    forall i: nat | i in tail ensures i + 1 in rest {
      assert s[1..][i..] == s[i + 1..];
    }
    forall i: nat | i in rest ensures i > 0 && i - 1 in tail {
      assert s[1..][i - 1..] == s[i..];
    }
    ShiftSize(tail, rest);
  }

  lemma {:induction false} ShiftSize(a: set<nat>, b: set<nat>)
    requires forall i: nat :: i in a ==> i + 1 in b
    requires forall i: nat :: i in b ==> i > 0 && i - 1 in a
    ensures |a| == |b|
    decreases |a|
  {
    if a == {} {
      assert b == {};
    } else {
      var i :| i in a;
      ShiftSize(a - {i}, b - {i + 1});
    }
  }

  /** Replacing left to right misses no occurrence: they do not overlap. */
  lemma {:induction false} OccurrencesArePositions(s: Bytes)
    ensures Occurrences(s, LINE_DOT) == |DotPositions(s)|
  {
    if s == [] {
      assert DotPositions(s) == {};
    } else {
      PositionsMore(s);
      if LINE_DOT <= s {
        OccurrencesArePositions(s[3..]);
        assert s[1] == '\n' && s[2] == '.';
        assert s[1..][1..] == s[2..] && s[2..][1..] == s[3..];
        PositionsMore(s[1..]);
        PositionsMore(s[2..]);
      } else {
        OccurrencesArePositions(s[1..]);
      }
    }
  }

  /**
   * Each occurrence costs one byte, and there is at most one occurrence in
   * three bytes, so the encoded size never exceeds four thirds of the text.
   */
  lemma EncodedSize(data: Bytes)
    ensures |Encode(data)| == |data| + Occurrences(data, LINE_DOT)
    ensures Occurrences(data, LINE_DOT) == |DotPositions(data)|
    ensures 3 * Occurrences(data, LINE_DOT) <= |data|
  {
    ReplacedSize(data);
    OccurrencesArePositions(data);
  }

  lemma {:induction false} ReplacedSize(data: Bytes)
    ensures |Encode(data)| == |data| + Occurrences(data, LINE_DOT)
    ensures 3 * Occurrences(data, LINE_DOT) <= |data|
  {
    if data == [] {
    } else if LINE_DOT <= data {
      ReplacedSize(data[3..]);
    } else {
      ReplacedSize(data[1..]);
    }
  }
}
