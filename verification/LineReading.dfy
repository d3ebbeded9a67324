/**
 * Lines that arrive in pieces. The reader takes what has arrived for a line even
 * when its end has not arrived; exactly when that goes wrong, for every run of the
 * thread.
 */
module LineReading {
  import opened ByteArrays
  import opened ReplyCodes
  import opened ReplyParser
  import opened ThreadModel

  /** What has been emitted and what is buffered are the responses to what has arrived. */
  predicate Right(t: Thread, arrived: Bytes, toInt: ToInt) {
    t.emitted + ParseAll(Lines(t.inbox), toInt) == ParseAll(Lines(arrived), toInt)
  }

  /** The start of an unfinished line has been read, and nothing has arrived since. */
  predicate Torn(t: Thread, arrived: Bytes) {
    t.inbox == [] && !Whole(arrived)
  }

  /** How often, on this connection, more arrived of a line whose start had been read. */
  function Cuts(events: seq<Event>, toInt: ToInt): nat {
    if events == [] then 0
    else
      var before, last := events[..|events| - 1], events[|events| - 1];
      if Resets(last) then 0
      else Cuts(before, toInt)
           + if last.Arrive? && last.chunk != [] && Torn(After(before, toInt), Arrived(before)) then 1 else 0
  }

  // ---------------------------------------------------------------------
  // Every cut costs a response too many
  // ---------------------------------------------------------------------

  predicate IsRest(inbox: Bytes, arrived: Bytes) {
    |inbox| <= |arrived| && arrived[|arrived| - |inbox|..] == inbox
  }

  /** The part of what has arrived that has been read. */
  function ReadPart(inbox: Bytes, arrived: Bytes): Bytes
    requires |inbox| <= |arrived|
  {
    arrived[..|arrived| - |inbox|]
  }

  predicate Uncut(emitted: seq<ServerResponse>, inbox: Bytes, arrived: Bytes, toInt: ToInt) {
    && |inbox| <= |arrived|
    && emitted == ParseAll(Lines(ReadPart(inbox, arrived)), toInt)
    && (Whole(ReadPart(inbox, arrived)) || inbox == [])
  }

  predicate Accounted(t: Thread, arrived: Bytes, cuts: nat, toInt: ToInt) {
    && IsRest(t.inbox, arrived)
    && |t.emitted| + |Lines(t.inbox)| == |Lines(arrived)| + cuts
    && (cuts == 0 ==> Uncut(t.emitted, t.inbox, arrived, toInt))
  }

  lemma RightWhenUncut(t: Thread, arrived: Bytes, toInt: ToInt)
    requires IsRest(t.inbox, arrived) && Uncut(t.emitted, t.inbox, arrived, toInt)
    ensures Right(t, arrived, toInt)
  {
    var read := ReadPart(t.inbox, arrived);
    assert arrived == read + t.inbox;
    LinesTogether(read, t.inbox, toInt);
  }

  /** The lines of two parts, the first of which is whole, or the second empty. */
  lemma LinesTogether(a: Bytes, b: Bytes, toInt: ToInt)
    requires Whole(a) || b == []
    ensures ParseAll(Lines(a + b), toInt) == ParseAll(Lines(a), toInt) + ParseAll(Lines(b), toInt)
  {
    if b == [] {
      assert a + b == a;
      NothingAccounted(toInt);
    } else {
      LinesAppend(a, b);
      ParseAllAppend(Lines(a), Lines(b), toInt);
    }
  }

  lemma WrongWhenCut(t: Thread, arrived: Bytes, cuts: nat, toInt: ToInt)
    requires Accounted(t, arrived, cuts, toInt) && cuts > 0
    ensures !Right(t, arrived, toInt)
  {
    ParseAllLength(Lines(t.inbox), toInt);
    ParseAllLength(Lines(arrived), toInt);
  }

  lemma RestEnds(inbox: Bytes, arrived: Bytes)
    requires IsRest(inbox, arrived) && inbox != []
    ensures Whole(inbox) <==> Whole(arrived)
  {
    assert arrived[|arrived| - |inbox|..][|inbox| - 1] == arrived[|arrived| - 1];
  }

  /** More bytes. */
  lemma ArriveCounts(inbox: Bytes, arrived: Bytes, chunk: Bytes)
    requires IsRest(inbox, arrived) && chunk != []
    ensures IsRest(inbox + chunk, arrived + chunk)
    ensures |Lines(inbox + chunk)| - |Lines(inbox)|
         == |Lines(arrived + chunk)| - |Lines(arrived)| + if inbox == [] && !Whole(arrived) then 1 else 0
  {
    RestOfMore(inbox, arrived, chunk);
    LineCount(arrived, chunk);
    LineCount(inbox, chunk);
    if inbox != [] {
      RestEnds(inbox, arrived);
    }
  }

  lemma RestOfMore(inbox: Bytes, arrived: Bytes, chunk: Bytes)
    requires IsRest(inbox, arrived)
    ensures IsRest(inbox + chunk, arrived + chunk)
  {
    assert (arrived + chunk)[|arrived| - |inbox|..] == arrived[|arrived| - |inbox|..] + chunk;
  }

  lemma ArriveAccounted(t: Thread, arrived: Bytes, cuts: nat, chunk: Bytes, toInt: ToInt)
    requires Accounted(t, arrived, cuts, toInt) && chunk != []
    ensures Accounted(Step(t, Arrive(chunk), toInt), arrived + chunk,
                      cuts + if Torn(t, arrived) then 1 else 0, toInt)
  {
    ArriveCounts(t.inbox, arrived, chunk);
    OtherEvents(t, Arrive(chunk), toInt);
    if cuts == 0 && !Torn(t, arrived) {
      ArriveUncut(t.emitted, t.inbox, arrived, chunk, toInt);
    }
  }

  lemma ArriveUncut(emitted: seq<ServerResponse>, inbox: Bytes, arrived: Bytes, chunk: Bytes, toInt: ToInt)
    requires IsRest(inbox, arrived) && Uncut(emitted, inbox, arrived, toInt) && (inbox == [] ==> Whole(arrived))
    ensures Uncut(emitted, inbox + chunk, arrived + chunk, toInt)
  {
    assert ReadPart(inbox + chunk, arrived + chunk) == ReadPart(inbox, arrived);
    assert inbox == [] ==> ReadPart(inbox, arrived) == arrived;
  }

  /** A line taken from the buffer. */
  lemma OneLine(inbox: Bytes)
    requires inbox != []
    ensures var line := FirstLine(inbox);
      && Lines(line) == [line] && |line| <= |inbox|
      && Lines(inbox) == [line] + Lines(inbox[|line|..])
      && (Whole(line) || inbox[|line|..] == [])
  {
    FirstOfFirst(inbox);
    LinesOfOne(FirstLine(inbox));
  }

  lemma FirstOfFirst(inbox: Bytes)
    requires inbox != []
    ensures var line := FirstLine(inbox);
      FirstLine(line) == line && (if '\n' in inbox then Whole(line) else line == inbox)
  {
    var line, i := FirstLine(inbox), IndexOf(inbox, '\n', 0);
    assert inbox[0..] == inbox;
    if i >= 0 {
      FirstIs(line, '\n', i);
    }
  }

  lemma LinesOfOne(line: Bytes)
    requires line != [] && FirstLine(line) == line
    ensures Lines(line) == [line]
  {
    assert line[|line|..] == [];
  }

  lemma ReadAccounted(t: Thread, arrived: Bytes, cuts: nat, toInt: ToInt)
    requires Accounted(t, arrived, cuts, toInt) && t.inbox != []
    ensures Accounted(Read(t, toInt), arrived, cuts, toInt)
  {
    var line, rest := TakeLine(t.inbox, arrived);
    ReadParts(t, toInt);
    if cuts == 0 {
      ReadUncut(t.emitted, t.inbox, arrived, line, rest, toInt);
    }
  }

  lemma ReadParts(t: Thread, toInt: ToInt)
    requires t.inbox != []
    ensures var line, next := FirstLine(t.inbox), Read(t, toInt);
      next.inbox == t.inbox[|line|..] && next.emitted == t.emitted + [Parse(line, toInt)]
  {
  }

  lemma TakeLine(inbox: Bytes, arrived: Bytes) returns (line: Bytes, rest: Bytes)
    requires IsRest(inbox, arrived) && inbox != []
    ensures line == FirstLine(inbox) && rest == inbox[|line|..] && inbox == line + rest
    ensures IsRest(rest, arrived)
    ensures |Lines(inbox)| == 1 + |Lines(rest)|
    ensures Lines(line) == [line] && (Whole(line) || rest == [])
  {
    line := FirstLine(inbox);
    rest := inbox[|line|..];
    OneLine(inbox);
    assert arrived[|arrived| - |rest|..] == arrived[|arrived| - |inbox|..][|line|..];
  }

  lemma ReadUncut(emitted: seq<ServerResponse>, inbox: Bytes, arrived: Bytes, line: Bytes, rest: Bytes, toInt: ToInt)
    requires IsRest(inbox, arrived) && Uncut(emitted, inbox, arrived, toInt)
    requires inbox == line + rest && line != [] && Lines(line) == [line] && (Whole(line) || rest == [])
    ensures Uncut(emitted + [Parse(line, toInt)], rest, arrived, toInt)
  {
    var read := ReadPart(inbox, arrived);
    ReadMore(inbox, arrived, line, rest);
    LinesTogether(read, line, toInt);
    OneParsed(line, toInt);
    if Whole(line) {
      WholeAppend(read, line);
    }
  }

  lemma ReadMore(inbox: Bytes, arrived: Bytes, line: Bytes, rest: Bytes)
    requires IsRest(inbox, arrived) && inbox == line + rest
    ensures IsRest(rest, arrived) && ReadPart(rest, arrived) == ReadPart(inbox, arrived) + line
  {
    assert arrived == ReadPart(inbox, arrived) + inbox;
  }

  lemma OneParsed(line: Bytes, toInt: ToInt)
    ensures ParseAll([line], toInt) == [Parse(line, toInt)]
  {
    assert [line][1..] == [];
  }

  lemma {:induction false} CutsAreCounted(events: seq<Event>, toInt: ToInt)
    ensures Accounted(After(events, toInt), Arrived(events), Cuts(events, toInt), toInt)
    decreases |events|
  {
    if events != [] {
      var before, last := events[..|events| - 1], events[|events| - 1];
      var t, arrived := After(before, toInt), Arrived(before);
      CutsAreCounted(before, toInt);
      StepAccounted(t, arrived, Cuts(before, toInt), last, toInt);
    }
  }

  lemma StepAccounted(t: Thread, arrived: Bytes, cuts: nat, e: Event, toInt: ToInt)
    requires Accounted(t, arrived, cuts, toInt)
    ensures Accounted(Step(t, e, toInt),
                      if Resets(e) then [] else arrived + if e.Arrive? then e.chunk else [],
                      if Resets(e) then 0
                      else cuts + if e.Arrive? && e.chunk != [] && Torn(t, arrived) then 1 else 0,
                      toInt)
  {
    if e.Arrive? && e.chunk != [] {
      ArriveAccounted(t, arrived, cuts, e.chunk, toInt);
    } else if e.RunRead? {
      assert arrived + [] == arrived;
      if t.readTimers > 0 && t.inbox != [] {
        ReadAccounted(t.(readTimers := t.readTimers - 1), arrived, cuts, toInt);
      }
    } else {
      OtherEvents(t, e, toInt);
      assert arrived + [] == arrived && t.inbox + [] == t.inbox;
      NothingAccounted(toInt);
    }
  }

  lemma NothingAccounted(toInt: ToInt)
    ensures Lines([]) == [] && ParseAll([], toInt) == [] && Whole([])
  {
  }

  // ---------------------------------------------------------------------
  // In terms of reads
  // ---------------------------------------------------------------------

  /** A read now takes an unfinished line. */
  predicate Unfinished(t: Thread) {
    t.readTimers > 0 && t.inbox != [] && '\n' !in t.inbox
  }

  /** Event i is a read that finds an unfinished line at the front of the buffer; the connection lasts on. */
  predicate ReadsUnfinished(events: seq<Event>, i: nat, toInt: ToInt) {
    && i < |events| && events[i].RunRead? && Unfinished(After(events[..i], toInt))
    && forall m :: i < m < |events| ==> !Resets(events[m])
  }

  /** And with event j more of that line arrives. */
  predicate ReadsTooSoon(events: seq<Event>, i: nat, j: nat, toInt: ToInt) {
    ReadsUnfinished(events, i, toInt) && i < j < |events| && events[j].Arrive? && events[j].chunk != []
  }

  /** The bytes that have arrived after one more event. */
  function ArrivedNext(arrived: Bytes, e: Event): Bytes {
    if Resets(e) then [] else arrived + if e.Arrive? then e.chunk else []
  }

  lemma ReadTears(t: Thread, arrived: Bytes, toInt: ToInt)
    requires IsRest(t.inbox, arrived) && t.inbox != []
    ensures Torn(Read(t, toInt), arrived) <==> '\n' !in t.inbox
  {
    RestEnds(t.inbox, arrived);
    FirstOfFirst(t.inbox);
    var line := FirstLine(t.inbox);
    if t.inbox[|line|..] == [] {
      assert line == t.inbox;
    }
    if '\n' !in t.inbox {
      assert t.inbox[|t.inbox| - 1] in t.inbox;
    }
  }

  /** What makes a line torn, and what leaves it torn. */
  lemma TornIff(t: Thread, arrived: Bytes, e: Event, toInt: ToInt)
    requires IsRest(t.inbox, arrived)
    ensures Torn(Step(t, e, toInt), ArrivedNext(arrived, e)) <==>
      && !Resets(e)
      && if e.Arrive? then e.chunk == [] && Torn(t, arrived)
         else if e.RunRead? && t.readTimers > 0 && t.inbox != [] then Unfinished(t)
         else Torn(t, arrived)
  {
    if e.RunRead? {
      assert arrived + [] == arrived;
      if t.readTimers > 0 && t.inbox != [] {
        ReadTears(t.(readTimers := t.readTimers - 1), arrived, toInt);
      }
    } else {
      OtherEvents(t, e, toInt);
      assert arrived + [] == arrived;
    }
  }

  predicate TornAfter(events: seq<Event>, toInt: ToInt) {
    Torn(After(events, toInt), Arrived(events))
  }

  lemma TornStep(events: seq<Event>, toInt: ToInt)
    requires events != []
    ensures var before, e := events[..|events| - 1], events[|events| - 1];
      var t := After(before, toInt);
      TornAfter(events, toInt) <==>
        && !Resets(e)
        && if e.Arrive? then e.chunk == [] && TornAfter(before, toInt)
           else if e.RunRead? && t.readTimers > 0 && t.inbox != [] then Unfinished(t)
           else TornAfter(before, toInt)
  {
    var before, e := events[..|events| - 1], events[|events| - 1];
    CutsAreCounted(before, toInt);
    TornIff(After(before, toInt), Arrived(before), e, toInt);
  }

  lemma ReadKept(events: seq<Event>, i: nat, toInt: ToInt)
    requires events != [] && i < |events| - 1
    ensures ReadsUnfinished(events, i, toInt)
       <==> ReadsUnfinished(events[..|events| - 1], i, toInt) && !Resets(events[|events| - 1])
  {
    var before := events[..|events| - 1];
    assert before[..i] == events[..i];
    if ReadsUnfinished(events, i, toInt) {
      forall m | i < m < |before| ensures !Resets(before[m]) {
        assert before[m] == events[m];
      }
    }
    if ReadsUnfinished(before, i, toInt) && !Resets(events[|events| - 1]) {
      forall m | i < m < |events| ensures !Resets(events[m]) {
        if m < |before| { assert before[m] == events[m]; }
      }
    }
  }

  lemma {:induction false} TornByRead(events: seq<Event>, toInt: ToInt) returns (i: nat)
    requires TornAfter(events, toInt)
    ensures ReadsUnfinished(events, i, toInt)
    decreases |events|
  {
    var before, last := events[..|events| - 1], events[|events| - 1];
    TornStep(events, toInt);
    if last.RunRead? && After(before, toInt).readTimers > 0 && After(before, toInt).inbox != [] {
      i := |before|;
    } else {
      i := TornByRead(before, toInt);
      ReadKept(events, i, toInt);
    }
  }

  lemma CutsStep(events: seq<Event>, toInt: ToInt)
    requires events != []
    ensures var before, e := events[..|events| - 1], events[|events| - 1];
      Cuts(events, toInt) > 0 <==>
        !Resets(e) && (Cuts(before, toInt) > 0 || (e.Arrive? && e.chunk != [] && TornAfter(before, toInt)))
  {
  }

  lemma {:induction false} CutMeansTooSoon(events: seq<Event>, toInt: ToInt) returns (i: nat, j: nat)
    requires Cuts(events, toInt) > 0
    ensures ReadsTooSoon(events, i, j, toInt)
    decreases |events|
  {
    var before := events[..|events| - 1];
    CutsStep(events, toInt);
    if Cuts(before, toInt) > 0 {
      i, j := CutMeansTooSoon(before, toInt);
    } else {
      i := TornByRead(before, toInt);
      j := |before|;
    }
    ReadKept(events, i, toInt);
  }

  lemma {:induction false} TornUntilCut(events: seq<Event>, i: nat, toInt: ToInt)
    requires ReadsUnfinished(events, i, toInt)
    ensures TornAfter(events, toInt) || Cuts(events, toInt) > 0
    decreases |events|
  {
    var before := events[..|events| - 1];
    TornStep(events, toInt);
    CutsStep(events, toInt);
    if i < |before| {
      ReadKept(events, i, toInt);
      TornUntilCut(before, i, toInt);
    }
  }

  lemma {:induction false} TooSoonMeansCut(events: seq<Event>, i: nat, j: nat, toInt: ToInt)
    requires ReadsTooSoon(events, i, j, toInt)
    ensures Cuts(events, toInt) > 0
    decreases |events|
  {
    var before := events[..|events| - 1];
    ReadKept(events, i, toInt);
    CutsStep(events, toInt);
    if j == |before| {
      TornUntilCut(before, i, toInt);
    } else {
      TooSoonMeansCut(before, i, j, toInt);
    }
  }

  /**
   * In every run of the thread, with bytes arriving in any pieces: what has been
   * emitted, then what is buffered, are the responses to the lines that have
   * arrived on this connection, exactly when no read has found an unfinished line
   * at the front of the buffer of which more arrived later.
   */
  lemma RightIffNoReadTooSoon(events: seq<Event>, toInt: ToInt)
    ensures Right(After(events, toInt), Arrived(events), toInt)
       <==> !exists i, j :: ReadsTooSoon(events, i, j, toInt)
  {
    CutsAreCounted(events, toInt);
    if Cuts(events, toInt) > 0 {
      WrongWhenCut(After(events, toInt), Arrived(events), Cuts(events, toInt), toInt);
      var i, j := CutMeansTooSoon(events, toInt);
      assert ReadsTooSoon(events, i, j, toInt);
    } else {
      RightWhenUncut(After(events, toInt), Arrived(events), toInt);
      forall i, j | ReadsTooSoon(events, i, j, toInt) ensures false {
        TooSoonMeansCut(events, i, j, toInt);
      }
    }
  }
}
