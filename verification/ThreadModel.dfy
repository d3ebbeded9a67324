/**
 * The socket's thread (sessionthread.cpp) as a state machine: commands posted to
 * it, the queue of data it writes when a timer fires, and the lines it reads.
 *
 * The socket is two byte arrays: what has been written on the connection it has
 * now, and what has arrived there and not been read. What was written on earlier
 * connections, or while there was none, is gone. Posted calls run in order; timers
 * fire at any time.
 */
module ThreadModel {
  import opened ByteArrays
  import opened ReplyCodes
  import opened ReplyParser
  import T = Transparency

  datatype Thread = Thread(
    posted: seq<Bytes>, dataQueue: seq<Bytes>, writeTimers: nat, open: bool, gone: Bytes, written: Bytes,
    inbox: Bytes, readTimers: nat, emitted: seq<ServerResponse>)

  const NEW_THREAD := Thread([], [], 0, false, [], [], [], 0, [])

  /** sendData: the payload gets its CRLF, and a write is scheduled. */
  function Enqueue(t: Thread, payload: Bytes): Thread {
    t.(dataQueue := t.dataQueue + [payload + CRLF], writeTimers := t.writeTimers + 1)
  }

  /** writeDataQueue: everything queued is written, to no effect when the socket is closed. */
  function Write(t: Thread): Thread {
    if t.open then t.(written := t.written + Concat(t.dataQueue), dataQueue := [])
    else t.(gone := t.gone + Concat(t.dataQueue), dataQueue := [])
  }

  /** The peer has closed the connection: what has arrived can still be read. */
  function PeerClose(t: Thread): Thread {
    t.(open := false, gone := t.gone + t.written, written := [])
  }

  /** close(), or a new connection: what the socket held is not read any more. */
  function Close(t: Thread): Thread {
    PeerClose(t).(inbox := [], emitted := [])
  }

  /** readResponse: one line, and another read if there is more. */
  function Read(t: Thread, toInt: ToInt): Thread {
    if t.inbox == [] then t
    else
      var line := FirstLine(t.inbox);
      var rest := t.inbox[|line|..];
      t.(inbox := rest, emitted := t.emitted + [Parse(line, toInt)],
         readTimers := t.readTimers + if rest == [] then 0 else 1)
  }

  datatype Event =
    | Post(payload: Bytes)     // the session posts a call of sendData
    | RunSend                  // which runs
    | RunWrite                 // a timer for writeDataQueue fires
    | Opened                   // the socket is connected, anew
    | PeerClosed               // the server has closed the connection
    | Closed                   // close() was called
    | Arrive(chunk: Bytes)     // bytes arrive; readyRead is posted
    | RunRead                  // a readResponse runs

  function Step(t: Thread, e: Event, toInt: ToInt): Thread {
    match e
    case Post(payload) => t.(posted := t.posted + [payload])
    case RunSend => if t.posted == [] then t else Enqueue(t.(posted := t.posted[1..]), t.posted[0])
    case RunWrite => if t.writeTimers == 0 then t else Write(t.(writeTimers := t.writeTimers - 1))
    case Opened => Close(t).(open := true)
    case PeerClosed => PeerClose(t)
    case Closed => Close(t)
    case Arrive(chunk) => t.(inbox := t.inbox + chunk, readTimers := t.readTimers + 1)
    case RunRead => if t.readTimers == 0 then t else Read(t.(readTimers := t.readTimers - 1), toInt)
  }

  function After(events: seq<Event>, toInt: ToInt): Thread {
    if events == [] then NEW_THREAD
    else Step(After(events[..|events| - 1], toInt), events[|events| - 1], toInt)
  }

  /** All payloads posted in a run. */
  function Posted(events: seq<Event>): seq<Bytes> {
    if events == [] then []
    else
      var last := events[|events| - 1];
      Posted(events[..|events| - 1]) + if last.Post? then [last.payload] else []
  }

  /** The events with which reading begins anew. */
  predicate Resets(e: Event) { e.Opened? || e.Closed? }

  /** All bytes that arrived since the connection was made. */
  function Arrived(events: seq<Event>): Bytes {
    if events == [] then []
    else
      var last := events[|events| - 1];
      if Resets(last) then []
      else Arrived(events[..|events| - 1]) + if last.Arrive? then last.chunk else []
  }

  // ---------------------------------------------------------------------
  // Writing
  // ---------------------------------------------------------------------

  /** What is gone, then written, queued and still posted bytes, in this order. */
  function Pipeline(t: Thread): Bytes {
    t.gone + t.written + Concat(t.dataQueue) + T.OnWire(t.posted)
  }

  lemma SendMoves(t: Thread)
    requires t.posted != []
    ensures Pipeline(Enqueue(t.(posted := t.posted[1..]), t.posted[0])) == Pipeline(t)
  {
    var line := t.posted[0] + CRLF;
    ConcatAppend(t.dataQueue, [line]);
    assert Concat([line]) == line + Concat([]);
    var before := t.gone + t.written;
    assert before + (Concat(t.dataQueue) + line) + T.OnWire(t.posted[1..])
        == before + Concat(t.dataQueue) + (line + T.OnWire(t.posted[1..]));
  }

  lemma PostMoves(t: Thread, payload: Bytes, posted: seq<Bytes>)
    requires Pipeline(t) == T.OnWire(posted)
    ensures Pipeline(t.(posted := t.posted + [payload])) == T.OnWire(posted + [payload])
  {
    T.OnWireAppend(t.posted, [payload]);
    T.OnWireAppend(posted, [payload]);
    Regroup(t.gone + t.written + Concat(t.dataQueue), T.OnWire(t.posted), T.OnWire([payload]));
  }

  lemma WriteMoves(t: Thread)
    requires !t.open ==> t.written == []
    ensures Pipeline(Write(t)) == Pipeline(t)
  {
    if t.open {
      Regroup(t.gone, t.written, Concat(t.dataQueue));
      Regroup(t.gone + t.written, Concat(t.dataQueue), []);
    } else {
      Regroup(t.gone, Concat(t.dataQueue), []);
      Regroup(t.gone, [], []);
    }
  }

  lemma CloseMoves(t: Thread)
    ensures Pipeline(PeerClose(t)) == Pipeline(Close(t)) == Pipeline(Close(t).(open := true)) == Pipeline(t)
  {
    Regroup(t.gone, t.written, []);
    Regroup(t.gone + t.written, [], []);
  }

  lemma Regroup(a: Bytes, b: Bytes, c: Bytes)
    ensures a + (b + c) == a + b + c
    ensures a + b + [] == a + b
  {
  }

  lemma StepMoves(t: Thread, e: Event, posted: seq<Bytes>, toInt: ToInt)
    requires Pipeline(t) == T.OnWire(posted) && (t.dataQueue != [] ==> t.writeTimers > 0)
    requires !t.open ==> t.written == []
    ensures var next := Step(t, e, toInt);
      && Pipeline(next) == T.OnWire(posted + if e.Post? then [e.payload] else [])
      && (next.dataQueue != [] ==> next.writeTimers > 0)
      && (!next.open ==> next.written == [])
  {
    assert posted + [] == posted;
    match e
    case Post(payload) => PostMoves(t, payload, posted);
    case RunSend =>
      if t.posted != [] {
        SendMoves(t);
      }
    case RunWrite =>
      if t.writeTimers > 0 {
        WriteMoves(t.(writeTimers := t.writeTimers - 1));
      }
    case Opened => CloseMoves(t);
    case PeerClosed => CloseMoves(t);
    case Closed => CloseMoves(t);
    case Arrive(chunk) =>
    case RunRead =>
  }

  /**
   * At every moment of every run, over any number of connections: what is gone,
   * then what has been written on this connection, then what is queued, then what
   * is still posted, are exactly the commands posted so far, in order, each with
   * its CRLF; and while anything is queued a write is scheduled.
   */
  lemma {:induction false} NothingIsLostOnTheWay(events: seq<Event>, toInt: ToInt)
    ensures var t := After(events, toInt);
      && Pipeline(t) == T.OnWire(Posted(events))
      && (t.dataQueue != [] ==> t.writeTimers > 0)
      && (!t.open ==> t.written == [])
    decreases |events|
  {
    if events != [] {
      var before, last := events[..|events| - 1], events[|events| - 1];
      NothingIsLostOnTheWay(before, toInt);
      StepMoves(After(before, toInt), last, Posted(before), toInt);
    }
  }

  /** When nothing is pending, everything that is not gone has been written on this connection. */
  lemma AllWritten(events: seq<Event>, toInt: ToInt)
    requires After(events, toInt).posted == [] && After(events, toInt).writeTimers == 0
    ensures var t := After(events, toInt); t.gone + t.written == T.OnWire(Posted(events))
  {
    NothingIsLostOnTheWay(events, toInt);
    var t := After(events, toInt);
    Regroup(t.gone + t.written, [], []);
  }

  predicate NeverClosed(events: seq<Event>) {
    forall i :: 0 <= i < |events| ==> !events[i].PeerClosed? && !Resets(events[i])
  }

  /** While the socket is open and is not closed, nothing is lost. */
  lemma {:induction false} NothingGoes(before: seq<Event>, events: seq<Event>, toInt: ToInt)
    requires After(before, toInt).open && NeverClosed(events)
    ensures After(before + events, toInt).open
    ensures After(before + events, toInt).gone == After(before, toInt).gone
    decreases |events|
  {
    if events == [] {
      assert before + events == before;
    } else {
      var most, last := events[..|events| - 1], events[|events| - 1];
      NothingGoes(before, most, toInt);
      assert before + events == (before + most) + [last];
      assert ((before + most) + [last])[..|before + most|] == before + most;
      StepLosesNothing(After(before + most, toInt), last, toInt);
    }
  }

  lemma StepLosesNothing(t: Thread, e: Event, toInt: ToInt)
    requires t.open && !e.PeerClosed? && !Resets(e)
    ensures Step(t, e, toInt).open && Step(t, e, toInt).gone == t.gone
  {
  }

  // ---------------------------------------------------------------------
  // Reading
  // ---------------------------------------------------------------------

  predicate WholeChunks(events: seq<Event>) {
    forall i :: 0 <= i < |events| && events[i].Arrive? ==> Whole(events[i].chunk)
  }

  lemma ReadMoves(t: Thread, toInt: ToInt)
    requires t.inbox != []
    ensures var next := Read(t, toInt);
      next.emitted + ParseAll(Lines(next.inbox), toInt) == t.emitted + ParseAll(Lines(t.inbox), toInt)
  {
    var line, rest := FirstLine(t.inbox), Lines(t.inbox[|FirstLine(t.inbox)|..]);
    assert ([line] + rest)[1..] == rest;
    assert t.emitted + ([Parse(line, toInt)] + ParseAll(rest, toInt))
        == t.emitted + [Parse(line, toInt)] + ParseAll(rest, toInt);
  }

  lemma WholeRest(buffer: Bytes)
    requires buffer != [] && Whole(buffer)
    ensures Whole(buffer[|FirstLine(buffer)|..])
  {
    FirstLineOf(buffer, []);
  }

  /** What has been emitted and what is buffered are all that has arrived, and the buffer will be read. */
  predicate ReadInOrder(t: Thread, arrived: Bytes, toInt: ToInt) {
    InOrder(t.emitted, t.inbox, arrived, toInt) && (t.inbox != [] ==> t.readTimers > 0)
  }

  predicate InOrder(emitted: seq<ServerResponse>, inbox: Bytes, arrived: Bytes, toInt: ToInt) {
    && emitted + ParseAll(Lines(inbox), toInt) == ParseAll(Lines(arrived), toInt)
    && Whole(inbox) && Whole(arrived)
  }

  lemma StepReads(t: Thread, e: Event, arrived: Bytes, toInt: ToInt)
    requires ReadInOrder(t, arrived, toInt) && (e.Arrive? ==> Whole(e.chunk))
    ensures ReadInOrder(Step(t, e, toInt),
                        if Resets(e) then [] else arrived + if e.Arrive? then e.chunk else [], toInt)
  {
    if e.RunRead? {
      assert arrived + [] == arrived;
      ReadReads(t, arrived, toInt);
    } else {
      OtherEvents(t, e, toInt);
      if e.Arrive? {
        ArriveInOrder(t.emitted, t.inbox, arrived, e.chunk, toInt);
      } else if Resets(e) {
        NothingInOrder(toInt);
      } else {
        assert arrived + [] == arrived;
      }
    }
  }

  lemma NothingInOrder(toInt: ToInt)
    ensures InOrder([], [], [], toInt)
  {
  }

  /** What the events that do not read leave to be read. */
  lemma OtherEvents(t: Thread, e: Event, toInt: ToInt)
    requires !e.RunRead?
    ensures var next := Step(t, e, toInt);
      && next.emitted == (if Resets(e) then [] else t.emitted)
      && next.inbox == (if Resets(e) then [] else if e.Arrive? then t.inbox + e.chunk else t.inbox)
      && next.readTimers == t.readTimers + if e.Arrive? then 1 else 0
  {
  }

  lemma ReadReads(t: Thread, arrived: Bytes, toInt: ToInt)
    requires ReadInOrder(t, arrived, toInt)
    ensures ReadInOrder(Step(t, RunRead, toInt), arrived, toInt)
  {
    if t.readTimers > 0 {
      DrainStep(t, toInt);
      ReadLeaves(t, toInt);
      var next := Step(t, RunRead, toInt);
      StillInOrder(t.emitted, t.inbox, next.emitted, next.inbox, arrived, toInt);
    }
  }

  lemma StillInOrder(emitted: seq<ServerResponse>, inbox: Bytes, emittedNext: seq<ServerResponse>, inboxNext: Bytes,
                     arrived: Bytes, toInt: ToInt)
    requires InOrder(emitted, inbox, arrived, toInt) && Whole(inboxNext)
    requires emittedNext + ParseAll(Lines(inboxNext), toInt) == emitted + ParseAll(Lines(inbox), toInt)
    ensures InOrder(emittedNext, inboxNext, arrived, toInt)
  {
  }

  lemma ReadLeaves(t: Thread, toInt: ToInt)
    requires Whole(t.inbox)
    ensures Whole(Step(t, RunRead, toInt).inbox)
  {
    if t.readTimers > 0 && t.inbox != [] {
      WholeRest(t.inbox);
    }
  }

  lemma ArriveInOrder(emitted: seq<ServerResponse>, inbox: Bytes, arrived: Bytes, chunk: Bytes, toInt: ToInt)
    requires InOrder(emitted, inbox, arrived, toInt) && Whole(chunk)
    ensures InOrder(emitted, inbox + chunk, arrived + chunk, toInt)
  {
    LinesArrive(inbox, chunk, toInt);
    LinesArrive(arrived, chunk, toInt);
    AppendBoth(emitted, ParseAll(Lines(inbox), toInt), ParseAll(Lines(arrived), toInt), ParseAll(Lines(chunk), toInt));
  }

  lemma LinesArrive(buffer: Bytes, chunk: Bytes, toInt: ToInt)
    requires Whole(buffer) && Whole(chunk)
    ensures Whole(buffer + chunk)
    ensures ParseAll(Lines(buffer + chunk), toInt) == ParseAll(Lines(buffer), toInt) + ParseAll(Lines(chunk), toInt)
  {
    LinesAppend(buffer, chunk);
    ParseAllAppend(Lines(buffer), Lines(chunk), toInt);
  }

  lemma AppendBoth(a: seq<ServerResponse>, b: seq<ServerResponse>, all: seq<ServerResponse>, more: seq<ServerResponse>)
    requires a + b == all
    ensures a + (b + more) == all + more
  {
  }

  /**
   * At every moment of every run in which lines arrive whole, in chunks of any
   * size: the responses emitted since the connection was made, then those still in
   * the buffer, are those of all lines that have arrived since, in order; and while
   * there is anything in the buffer a read is pending.
   */
  lemma {:induction false} NothingIsLostOnTheWayBack(events: seq<Event>, toInt: ToInt)
    requires WholeChunks(events)
    ensures ReadInOrder(After(events, toInt), Arrived(events), toInt)
    decreases |events|
  {
    if events != [] {
      var before, last := events[..|events| - 1], events[|events| - 1];
      NothingIsLostOnTheWayBack(before, toInt);
      StepReads(After(before, toInt), last, Arrived(before), toInt);
    }
  }

  /**
   * Whatever replies the server prints, single-line or multi-line, and in
   * whatever batches of whole lines they arrive: the session is given a prefix
   * of their lines at every moment, and all of them once no read is pending.
   */
  lemma RepliesArrive(events: seq<Event>, replies: seq<Reply>, toInt: ToInt)
    requires WholeChunks(events) && ReadsDigits(toInt)
    requires forall i :: 0 <= i < |replies| ==> Printable(replies[i])
    requires Arrived(events) == Concat(PrintAll(replies))
    ensures After(events, toInt).emitted <= ResponsesOf(replies)
    ensures After(events, toInt).readTimers == 0 ==> After(events, toInt).emitted == ResponsesOf(replies)
  {
    NothingIsLostOnTheWayBack(events, toInt);
    PrintedLines(replies);
    ParseIsInverseOfPrint(replies, toInt);
  }

  // ---------------------------------------------------------------------
  // Lines that arrive in pieces
  // ---------------------------------------------------------------------

  /** The pending reads run until there is none. */
  function DrainReads(t: Thread, toInt: ToInt): Thread
    decreases |t.inbox| + t.readTimers
  {
    if t.readTimers == 0 then t
    else
      DrainStep(t, toInt);
      DrainReads(Step(t, RunRead, toInt), toInt)
  }

  lemma {:induction false} DrainEmits(t: Thread, toInt: ToInt)
    requires t.inbox != [] ==> t.readTimers > 0
    ensures var end := DrainReads(t, toInt);
      && end.emitted == t.emitted + ParseAll(Lines(t.inbox), toInt)
      && end.inbox == [] && end.readTimers == 0
    decreases |t.inbox| + t.readTimers
  {
    if t.readTimers > 0 {
      DrainStep(t, toInt);
      DrainEmits(Step(t, RunRead, toInt), toInt);
    }
  }

  lemma DrainStep(t: Thread, toInt: ToInt)
    requires t.readTimers > 0
    ensures var next := Step(t, RunRead, toInt);
      && next.emitted + ParseAll(Lines(next.inbox), toInt) == t.emitted + ParseAll(Lines(t.inbox), toInt)
      && (next.inbox != [] ==> next.readTimers > 0)
      && |next.inbox| + next.readTimers < |t.inbox| + t.readTimers
  {
    var fired := t.(readTimers := t.readTimers - 1);
    if t.inbox != [] {
      ReadMoves(fired, toInt);
      ReadShrinks(fired, toInt);
    }
  }

  lemma ReadShrinks(t: Thread, toInt: ToInt)
    requires t.inbox != []
    ensures var next := Read(t, toInt);
      && |next.inbox| + next.readTimers <= |t.inbox| + t.readTimers
      && (next.inbox != [] ==> next.readTimers > 0)
  {
  }

  /** Each chunk is read to its end before the next arrives. */
  function Feed(t: Thread, chunks: seq<Bytes>, toInt: ToInt): Thread
    decreases |chunks|
  {
    if chunks == [] then t
    else Feed(DrainReads(Step(t, Arrive(chunks[0]), toInt), toInt), chunks[1..], toInt)
  }

  function LinesOfEach(chunks: seq<Bytes>): seq<Bytes> {
    if chunks == [] then [] else Lines(chunks[0]) + LinesOfEach(chunks[1..])
  }

  lemma {:induction false} FeedEmits(t: Thread, chunks: seq<Bytes>, toInt: ToInt)
    requires t.inbox == []
    ensures Feed(t, chunks, toInt).emitted == t.emitted + ParseAll(LinesOfEach(chunks), toInt)
    decreases |chunks|
  {
    if chunks != [] {
      var first, rest := Lines(chunks[0]), LinesOfEach(chunks[1..]);
      FeedOne(t, chunks[0], toInt);
      FeedEmits(DrainReads(Step(t, Arrive(chunks[0]), toInt), toInt), chunks[1..], toInt);
      ParseAllAppend(first, rest, toInt);
      AppendBoth(t.emitted, ParseAll(first, toInt), t.emitted + ParseAll(first, toInt), ParseAll(rest, toInt));
    }
  }

  lemma FeedOne(t: Thread, chunk: Bytes, toInt: ToInt)
    requires t.inbox == []
    ensures var next := DrainReads(Step(t, Arrive(chunk), toInt), toInt);
      next.inbox == [] && next.emitted == t.emitted + ParseAll(Lines(chunk), toInt)
  {
    assert [] + chunk == chunk;
    DrainEmits(Step(t, Arrive(chunk), toInt), toInt);
  }

  predicate AllButLastWhole(chunks: seq<Bytes>) {
    forall i :: 0 <= i < |chunks| - 1 ==> Whole(chunks[i])
  }

  /** The number of line ends. */
  function Lfs(s: Bytes): nat {
    if s == [] then 0 else Lfs(s[..|s| - 1]) + if s[|s| - 1] == '\n' then 1 else 0
  }

  lemma {:induction false} LfsAppend(a: Bytes, b: Bytes)
    ensures Lfs(a + b) == Lfs(a) + Lfs(b)
    decreases |b|
  {
    if b == [] {
      assert a + b == a;
    } else {
      assert (a + b)[..|a + b| - 1] == a + b[..|b| - 1];
      LfsAppend(a, b[..|b| - 1]);
    }
  }

  lemma {:induction false} NoLfs(s: Bytes)
    requires '\n' !in s
    ensures Lfs(s) == 0
    decreases |s|
  {
    if s != [] {
      NoLfs(s[..|s| - 1]);
    }
  }

  /** The first line has one line end, or is all there is. */
  lemma FirstLineLfs(buffer: Bytes)
    requires buffer != []
    ensures var line := FirstLine(buffer);
      if '\n' in buffer then Lfs(line) == 1 && (Whole(buffer) <==> Whole(buffer[|line|..]))
      else line == buffer && Lfs(buffer) == 0 && !Whole(buffer)
  {
    assert buffer[0..] == buffer;
    var i := IndexOf(buffer, '\n', 0);
    if i >= 0 {
      assert FirstLine(buffer)[..i] == buffer[..i];
      NoLfs(buffer[..i]);
    } else {
      NoLfs(buffer);
    }
  }

  /** There is a line for each line end, and one more for an unfinished rest. */
  lemma {:induction false} LineTotal(buffer: Bytes)
    ensures |Lines(buffer)| == Lfs(buffer) + if Whole(buffer) then 0 else 1
    decreases |buffer|
  {
    if buffer != [] {
      var line := FirstLine(buffer);
      var rest := buffer[|line|..];
      FirstLineLfs(buffer);
      LineTotal(rest);
      LfsAppend(line, rest);
      assert buffer == line + rest;
    }
  }

  /** A line cut in two is counted twice. */
  lemma LineCount(a: Bytes, b: Bytes)
    requires b != []
    ensures |Lines(a + b)| == |Lines(a)| + |Lines(b)| - (if Whole(a) then 0 else 1)
  {
    LineTotal(a);
    LineTotal(b);
    LineTotal(a + b);
    LfsAppend(a, b);
  }

  lemma {:induction false} LinesOfEachCount(chunks: seq<Bytes>)
    requires forall i :: 0 <= i < |chunks| ==> chunks[i] != []
    ensures if AllButLastWhole(chunks) then LinesOfEach(chunks) == Lines(Concat(chunks))
            else |LinesOfEach(chunks)| > |Lines(Concat(chunks))|
    ensures chunks != [] ==> Concat(chunks) != []
    decreases |chunks|
  {
    if |chunks| == 1 {
      assert chunks[1..] == [];
      assert Concat(chunks) == chunks[0] + [];
      assert chunks[0] + [] == chunks[0];
    } else if |chunks| > 1 {
      var first, rest := chunks[0], chunks[1..];
      LinesOfEachCount(rest);
      LineCount(first, Concat(rest));
      if Whole(first) {
        LinesAppend(first, Concat(rest));
        if AllButLastWhole(rest) {
          forall i | 0 <= i < |chunks| - 1 ensures Whole(chunks[i]) {
            if i > 0 { assert Whole(rest[i - 1]); }
          }
        } else {
          var i :| 0 <= i < |rest| - 1 && !Whole(rest[i]);
          assert !Whole(chunks[i + 1]);
        }
      }
    }
  }

  lemma {:induction false} ParseAllLength(lines: seq<Bytes>, toInt: ToInt)
    ensures |ParseAll(lines, toInt)| == |lines|
  {
    if lines != [] {
      ParseAllLength(lines[1..], toInt);
    }
  }

  /**
   * The reader takes what has arrived for a line even when its end has not
   * arrived: reading as soon as bytes come in gives the lines the server sent
   * exactly when no chunk but the last ends inside a line.
   */
  lemma WholeLinesAreNeeded(chunks: seq<Bytes>, toInt: ToInt)
    requires forall i :: 0 <= i < |chunks| ==> chunks[i] != []
    ensures Feed(NEW_THREAD, chunks, toInt).emitted == ParseAll(Lines(Concat(chunks)), toInt)
       <==> AllButLastWhole(chunks)
  {
    FeedEmits(NEW_THREAD, chunks, toInt);
    LinesOfEachCount(chunks);
    ParseAllLength(LinesOfEach(chunks), toInt);
    ParseAllLength(Lines(Concat(chunks)), toInt);
    assert [] + ParseAll(LinesOfEach(chunks), toInt) == ParseAll(LinesOfEach(chunks), toInt);
  }
}
