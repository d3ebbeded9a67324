/** The SessionThread object (sessionthread.cpp), proved against the functions of ThreadModel. */
module SessionThreads {
  import opened ByteArrays
  import opened ReplyCodes
  import opened ReplyParser
  import opened ThreadModel

  class SessionThread {
    var posted: seq<Bytes>           // calls of SendData that the session has posted
    var dataQueue: seq<Bytes>
    var writeTimers: nat             // pending calls of WriteDataQueue
    var open: bool                   // the socket is connected
    var gone: Bytes                  // what was written on earlier connections, or on none
    var written: Bytes               // what this connection has been given
    var inbox: Bytes                 // what the socket holds to be read
    var readTimers: nat              // pending calls of ReadResponse
    var emitted: seq<ServerResponse> // responseReceived, on this connection
    const toInt: ToInt

    function State(): Thread
      reads this
    {
      Thread(posted, dataQueue, writeTimers, open, gone, written, inbox, readTimers, emitted)
    }

    constructor (toInt: ToInt)
      ensures State() == NEW_THREAD && this.toInt == toInt
    {
      posted, dataQueue, writeTimers := [], [], 0;
      open, gone, written := false, [], [];
      inbox, readTimers, emitted := [], 0, [];
      this.toInt := toInt;
    }

    method SendData(payload: Bytes)
      modifies this
      ensures State() == Enqueue(old(State()), payload)
    {
      dataQueue := dataQueue + [payload + CRLF];
      writeTimers := writeTimers + 1;
    }

    method WriteDataQueue()
      modifies this
      ensures State() == Write(old(State()))
    {
      ghost var before := State();
      assert (if open then written else gone) + Concat(dataQueue) == Sunk(Write(before));
      while dataQueue != []
        invariant State() == before.(written := written, gone := gone, dataQueue := dataQueue)
        invariant if open then gone == before.gone else written == before.written
        invariant (if open then written else gone) + Concat(dataQueue) == Sunk(Write(before))
        decreases |dataQueue|
      {
        WriteToSocket(dataQueue[0]);
        dataQueue := dataQueue[1..];
      }
      assert (if open then written else gone) + [] == if open then written else gone;
    }

    /** A write on the socket. */
    method WriteToSocket(data: Bytes)
      requires dataQueue != [] && dataQueue[0] == data
      modifies `written, `gone
      ensures if open then written == old(written) + data && gone == old(gone)
              else gone == old(gone) + data && written == old(written)
      ensures (if open then written else gone) + Concat(dataQueue[1..])
           == (if open then old(written) else old(gone)) + Concat(dataQueue)
    {
      Regroup(if open then written else gone, data, Concat(dataQueue[1..]));
      if open {
        written := written + data;
      } else {
        gone := gone + data;
      }
    }

    method PeerCloses()
      modifies this
      ensures State() == PeerClose(old(State()))
    {
      open := false;
      gone := gone + written;
      written := [];
    }

    method DoCloseSocket()
      modifies this
      ensures State() == Close(old(State()))
    {
      PeerCloses();
      inbox := [];
      emitted := [];
    }

    method ReadResponse()
      modifies this
      ensures State() == Read(old(State()), toInt)
    {
      if inbox == [] {
        return;
      }
      var line := FirstLine(inbox);
      inbox := inbox[|line|..];
      var response := ParseResponse(line, toInt);
      emitted := emitted + [response];
      if inbox != [] {
        readTimers := readTimers + 1;
      }
    }

    /** One turn of the event loop. */
    method Dispatch(e: Event)
      modifies this
      ensures State() == Step(old(State()), e, toInt)
    {
      match e
      case Post(payload) =>
        posted := posted + [payload];
      case RunSend =>
        if posted != [] {
          var payload := posted[0];
          posted := posted[1..];
          SendData(payload);
        }
      case RunWrite =>
        if writeTimers > 0 {
          writeTimers := writeTimers - 1;
          WriteDataQueue();
        }
      case Opened =>
        DoCloseSocket();
        open := true;
      case PeerClosed =>
        PeerCloses();
      case Closed =>
        DoCloseSocket();
      case Arrive(chunk) =>
        inbox := inbox + chunk;
        readTimers := readTimers + 1;
      case RunRead =>
        if readTimers > 0 {
          readTimers := readTimers - 1;
          ReadResponse();
        }
    }
  }

  /** Where what is written goes. */
  function Sunk(t: Thread): Bytes {
    if t.open then t.written else t.gone
  }
}
