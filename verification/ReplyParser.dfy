/**
 * Reading replies off the socket (parseResponse in sessionthread.cpp), against
 * the reply lines of section 4.2.1 of RFC 5321.
 */
module ReplyParser {
  import opened ByteArrays
  import opened ReplyCodes

  /** QByteArray::toInt, None when it reports failure; all that is asked of it is to read up to three digits. */
  type ToInt = Bytes -> Option<int>

  predicate AllDigits(s: Bytes) {
    forall i :: 0 <= i < |s| ==> '0' <= s[i] <= '9'
  }

  function DigitsValue(s: Bytes): nat
    requires AllDigits(s)
  {
    if s == [] then 0
    else 10 * DigitsValue(s[..|s| - 1]) + (s[|s| - 1] as int - '0' as int)
  }

  ghost predicate ReadsDigits(toInt: ToInt) {
    forall s: Bytes :: 0 < |s| <= 3 && AllDigits(s) ==> toInt(s) == Some(DigitsValue(s))
  }

  /** The line without its line end, as parseResponse cuts it: a CR or LF in front is not seen. */
  function CutLineEnd(line: Bytes): Bytes {
    var cr, lf := IndexOf(line, '\r', 0), IndexOf(line, '\n', 0);
    var cut := if cr > 0 then Truncate(line, cr) else line;
    if lf > 0 then Truncate(cut, lf) else cut
  }

  function Parse(line: Bytes, toInt: ToInt): ServerResponse {
    var response := CutLineEnd(line);
    match toInt(Truncate(response, 3))
    case None => ServerResponse(0, [], false)
    case Some(code) =>
      ServerResponse(code, if code != 0 then RemoveFirst(response, 4) else response,
                     |response| > 3 && response[3] == '-')
  }

  /** parseResponse, which cuts its copy of the line in place. */
  method ParseResponse(line: Bytes, toInt: ToInt) returns (reply: ServerResponse)
    ensures reply == Parse(line, toInt)
  {
    var response := line;
    var indexOfCR := IndexOf(response, '\r', 0);
    var indexOfLF := IndexOf(response, '\n', 0);
    if indexOfCR > 0 {
      response := Truncate(response, indexOfCR);
    }
    if indexOfLF > 0 {
      response := Truncate(response, indexOfLF);
    }
    var code := toInt(Truncate(response, 3));
    if code.None? {
      return ServerResponse(0, [], false);
    }
    var multiline := |response| > 3 && response[3] == '-';
    if code.value != 0 {
      response := RemoveFirst(response, 4);
    }
    reply := ServerResponse(code.value, response, multiline);
  }

  // ---------------------------------------------------------------------
  // Printing
  // ---------------------------------------------------------------------

  /** A reply: one line of text for each line of it. */
  datatype Reply = Reply(code: int, lines: seq<Bytes>)

  predicate IsText(s: Bytes) { '\r' !in s && '\n' !in s }

  predicate Printable(reply: Reply) {
    && 1 <= reply.code <= 999
    && reply.lines != []
    && forall i :: 0 <= i < |reply.lines| ==> IsText(reply.lines[i])
  }

  /** Every line but the last has a hyphen after the code. */
  function PrintLine(code: int, text: Bytes, more: bool): Bytes
    requires 1 <= code <= 999
  {
    ThreeDigits(code) + [if more then '-' else ' '] + text + CRLF
  }

  function PrintFrom(reply: Reply, i: nat): seq<Bytes>
    requires Printable(reply) && i <= |reply.lines|
    decreases |reply.lines| - i
  {
    if i == |reply.lines| then []
    else [PrintLine(reply.code, reply.lines[i], i + 1 < |reply.lines|)] + PrintFrom(reply, i + 1)
  }

  /** What the client should make of a reply: one response for each line. */
  function ResponsesFrom(reply: Reply, i: nat): seq<ServerResponse>
    requires i <= |reply.lines|
    decreases |reply.lines| - i
  {
    if i == |reply.lines| then []
    else [ServerResponse(reply.code, reply.lines[i], i + 1 < |reply.lines|)] + ResponsesFrom(reply, i + 1)
  }

  function PrintAll(replies: seq<Reply>): seq<Bytes>
    requires forall i :: 0 <= i < |replies| ==> Printable(replies[i])
  {
    if replies == [] then [] else PrintFrom(replies[0], 0) + PrintAll(replies[1..])
  }

  function ResponsesOf(replies: seq<Reply>): seq<ServerResponse> {
    if replies == [] then [] else ResponsesFrom(replies[0], 0) + ResponsesOf(replies[1..])
  }

  function ParseAll(lines: seq<Bytes>, toInt: ToInt): seq<ServerResponse> {
    if lines == [] then [] else [Parse(lines[0], toInt)] + ParseAll(lines[1..], toInt)
  }

  lemma {:induction false} ParseAllAppend(a: seq<Bytes>, b: seq<Bytes>, toInt: ToInt)
    ensures ParseAll(a + b, toInt) == ParseAll(a, toInt) + ParseAll(b, toInt)
  {
    if a == [] {
      assert a + b == b;
    } else {
      assert (a + b)[1..] == a[1..] + b;
      ParseAllAppend(a[1..], b, toInt);
    }
  }

  lemma ThreeDigitsValue(code: int)
    requires 0 <= code <= 999
    ensures AllDigits(ThreeDigits(code)) && DigitsValue(ThreeDigits(code)) == code
  {
    var s := ThreeDigits(code);
    assert s[..2] == [s[0], s[1]] && s[..2][..1] == [s[0]] && s[..2][..1][..0] == [];
    assert DigitsValue([s[0]]) == code / 100;
    assert DigitsValue(s[..2]) == code / 10;
  }

  /** What may follow the content of a line: nothing, or anything that begins with CR or LF. */
  predicate IsEnd(end: Bytes) { end == [] || end[0] == '\r' || end[0] == '\n' }

  /** A line is cut back to what stands before its first CR or LF. */
  lemma CutBack(content: Bytes, end: Bytes)
    requires IsText(content) && content != [] && IsEnd(end)
    ensures CutLineEnd(content + end) == content
  {
    var line := content + end;
    forall k | 0 <= k < |content| ensures line[k] != '\r' && line[k] != '\n' {
      assert line[k] == content[k];
    }
    assert line[..|content|] == content;
    if end != [] {
      assert line[|content|] == end[0];
      FirstIs(line, end[0], |content|);
      CutShort(line, |content|);
    } else {
      assert line == content && line[0..] == content;
    }
  }

  lemma CutShort(line: Bytes, n: nat)
    requires 0 < n < |line| && (line[n] == '\r' || line[n] == '\n')
    requires IsText(line[..n])
    ensures CutLineEnd(line) == line[..n]
  {
    FirstIs(line, line[n], n);
    NotBefore(line, '\r', n);
    NotBefore(line, '\n', n);
    var cr, lf := IndexOf(line, '\r', 0), IndexOf(line, '\n', 0);
    if cr > 0 && lf > 0 {
      if cr < lf {
        assert Truncate(line[..cr], lf) == line[..cr];
      } else {
        assert line[..cr][..lf] == line[..lf];
      }
    }
  }

  lemma NotBefore(line: Bytes, c: char, n: nat)
    requires n <= |line| && c !in line[..n]
    ensures IndexOf(line, c, 0) == -1 || IndexOf(line, c, 0) >= n
  {
    forall k | 0 <= k < n ensures line[k] != c {
      assert line[..n][k] == line[k];
    }
  }

  /** The line end of an empty line is not cut off whole. */
  lemma EmptyLineEnds()
    ensures CutLineEnd(CRLF) == "\r" && CutLineEnd("\n") == "\n"
  {
    FirstIs(CRLF, '\r', 0);
    FirstIs(CRLF, '\n', 1);
    FirstIs("\n", '\n', 0);
    assert "\n"[0..] == "\n";
  }

  lemma FirstIs(s: seq<char>, c: char, i: nat)
    requires i < |s| && s[i] == c
    requires forall k :: 0 <= k < i ==> s[k] != c
    ensures IndexOf(s, c, 0) == i
  {
    assert s[0..][i] == c;
  }

  /**
   * Any line of a reply, however it ends: three digits, a mark and a text give the
   * code, the text, and whether the mark is a hyphen; but with code 000 the text
   * is the whole line.
   */
  lemma ParseLine(code: int, mark: char, text: Bytes, end: Bytes, toInt: ToInt)
    requires 0 <= code <= 999 && IsText([mark] + text) && IsEnd(end) && ReadsDigits(toInt)
    ensures var content := ThreeDigits(code) + [mark] + text;
      Parse(content + end, toInt) == ServerResponse(code, if code == 0 then content else text, mark == '-')
  {
    var content := ThreeDigits(code) + [mark] + text;
    assert mark in [mark] + text;
    assert IsText(content);
    CutBack(content, end);
    ThreeDigitsValue(code);
    ContentParts(ThreeDigits(code), mark, text);
  }

  /** A line of three digits alone is the last line of its reply, without a text. */
  lemma ParseBareCode(code: int, end: Bytes, toInt: ToInt)
    requires 0 <= code <= 999 && IsEnd(end) && ReadsDigits(toInt)
    ensures Parse(ThreeDigits(code) + end, toInt)
         == ServerResponse(code, if code == 0 then "000" else [], false)
  {
    CutBack(ThreeDigits(code), end);
    ThreeDigitsValue(code);
  }

  /** A line whose first three bytes are no number is a reply without code and text. */
  lemma ParseWithoutCode(content: Bytes, end: Bytes, toInt: ToInt)
    requires IsText(content) && content != [] && IsEnd(end)
    requires toInt(if |content| < 3 then content else content[..3]) == None
    ensures Parse(content + end, toInt) == ServerResponse(0, [], false)
  {
    CutBack(content, end);
    assert |content| == 3 ==> content[..3] == content;
  }

  /** A printed line is parsed back to its code, its text and its hyphen. */
  lemma ParsePrinted(code: int, text: Bytes, more: bool, toInt: ToInt)
    requires 1 <= code <= 999 && IsText(text) && ReadsDigits(toInt)
    ensures Parse(PrintLine(code, text, more), toInt) == ServerResponse(code, text, more)
  {
    ParseLine(code, if more then '-' else ' ', text, CRLF, toInt);
  }

  lemma ContentParts(digits: Bytes, mark: char, text: Bytes)
    requires |digits| == 3
    ensures var content := digits + [mark] + text;
      && Truncate(content, 3) == digits && content[3] == mark && RemoveFirst(content, 4) == text
  {
  }

  lemma {:induction false} ParseReply(reply: Reply, i: nat, toInt: ToInt)
    requires Printable(reply) && i <= |reply.lines| && ReadsDigits(toInt)
    ensures ParseAll(PrintFrom(reply, i), toInt) == ResponsesFrom(reply, i)
    decreases |reply.lines| - i
  {
    if i < |reply.lines| {
      ParsePrinted(reply.code, reply.lines[i], i + 1 < |reply.lines|, toInt);
      ParseReply(reply, i + 1, toInt);
      var lines := PrintFrom(reply, i);
      assert lines[1..] == PrintFrom(reply, i + 1);
    }
  }

  /** Printing and parsing any list of replies gives all their lines back. */
  lemma {:induction false} ParseIsInverseOfPrint(replies: seq<Reply>, toInt: ToInt)
    requires forall i :: 0 <= i < |replies| ==> Printable(replies[i])
    requires ReadsDigits(toInt)
    ensures ParseAll(PrintAll(replies), toInt) == ResponsesOf(replies)
  {
    if replies != [] {
      ParseReply(replies[0], 0, toInt);
      ParseIsInverseOfPrint(replies[1..], toInt);
      ParseAllAppend(PrintFrom(replies[0], 0), PrintAll(replies[1..]), toInt);
    }
  }

  // ---------------------------------------------------------------------
  // Lines
  // ---------------------------------------------------------------------

  /** QIODevice::readLine: up to and including the first LF, or everything. */
  function FirstLine(buffer: Bytes): (line: Bytes)
    requires buffer != []
    ensures line != [] && line <= buffer
  {
    var i := IndexOf(buffer, '\n', 0);
    if i < 0 then buffer else buffer[..i + 1]
  }

  function Lines(buffer: Bytes): seq<Bytes>
    decreases |buffer|
  {
    if buffer == [] then []
    else [FirstLine(buffer)] + Lines(buffer[|FirstLine(buffer)|..])
  }

  /** The buffer ends at the end of a line. */
  predicate Whole(buffer: Bytes) {
    buffer == [] || buffer[|buffer| - 1] == '\n'
  }

  lemma FirstLineOf(buffer: Bytes, more: Bytes)
    requires buffer != [] && Whole(buffer)
    ensures FirstLine(buffer + more) == FirstLine(buffer)
    ensures Whole(buffer[|FirstLine(buffer)|..])
  {
    var i := IndexOf(buffer, '\n', 0);
    assert buffer[0..] == buffer && buffer[|buffer| - 1] in buffer;
    forall k | 0 <= k < i ensures (buffer + more)[k] != '\n' {
      assert buffer[k] != '\n';
    }
    FirstIs(buffer + more, '\n', i);
  }

  lemma LinesStep(buffer: Bytes, more: Bytes)
    requires buffer != [] && Whole(buffer)
    ensures var line, rest := FirstLine(buffer), buffer[|FirstLine(buffer)|..];
      Whole(rest) && |rest| < |buffer| && Lines(buffer + more) == [line] + Lines(rest + more)
  {
    FirstLineOf(buffer, more);
    var line := FirstLine(buffer);
    assert (buffer + more)[|line|..] == buffer[|line|..] + more;
  }

  /** Whole lines that arrive together are read one after the other. */
  lemma {:induction false} LinesAppend(a: Bytes, b: Bytes)
    requires Whole(a)
    ensures Lines(a + b) == Lines(a) + Lines(b)
    decreases |a|
  {
    if a == [] {
      assert a + b == b;
    } else {
      var line, rest := FirstLine(a), a[|FirstLine(a)|..];
      LinesStep(a, b);
      LinesAppend(rest, b);
      InFront(line, Lines(rest), Lines(b));
    }
  }

  lemma InFront(line: Bytes, a: seq<Bytes>, b: seq<Bytes>)
    ensures [line] + (a + b) == [line] + a + b
  {
  }

  lemma PrintedIsOneLine(code: int, text: Bytes, more: bool)
    requires 1 <= code <= 999 && IsText(text)
    ensures var line := PrintLine(code, text, more); Whole(line) && Lines(line) == [line]
  {
    var line := PrintLine(code, text, more);
    var content := ThreeDigits(code) + [if more then '-' else ' '] + text;
    assert line == content + CRLF && IsText(content);
    forall k | 0 <= k < |line| - 1 ensures line[k] != '\n' {
      assert k < |content| ==> line[k] == content[k];
    }
    FirstIs(line, '\n', |line| - 1);
    assert line[..|line|] == line && line[|line|..] == [];
  }

  lemma WholeAppend(a: Bytes, b: Bytes)
    requires Whole(a) && Whole(b)
    ensures Whole(a + b)
  {
  }

  lemma {:induction false} PrintedLinesFrom(reply: Reply, i: nat)
    requires Printable(reply) && i <= |reply.lines|
    ensures Whole(Concat(PrintFrom(reply, i))) && Lines(Concat(PrintFrom(reply, i))) == PrintFrom(reply, i)
    decreases |reply.lines| - i
  {
    if i < |reply.lines| {
      var line, rest := PrintLine(reply.code, reply.lines[i], i + 1 < |reply.lines|), PrintFrom(reply, i + 1);
      PrintedIsOneLine(reply.code, reply.lines[i], i + 1 < |reply.lines|);
      PrintedLinesFrom(reply, i + 1);
      LinesAppend(line, Concat(rest));
      WholeAppend(line, Concat(rest));
      assert ([line] + rest)[1..] == rest;
    }
  }

  lemma {:induction false} PrintedLines(replies: seq<Reply>)
    requires forall i :: 0 <= i < |replies| ==> Printable(replies[i])
    ensures Whole(Concat(PrintAll(replies))) && Lines(Concat(PrintAll(replies))) == PrintAll(replies)
  {
    if replies != [] {
      PrintedLinesFrom(replies[0], 0);
      PrintedLines(replies[1..]);
      ConcatAppend(PrintFrom(replies[0], 0), PrintAll(replies[1..]));
      LinesAppend(Concat(PrintFrom(replies[0], 0)), Concat(PrintAll(replies[1..])));
      WholeAppend(Concat(PrintFrom(replies[0], 0)), Concat(PrintAll(replies[1..])));
    }
  }
}
