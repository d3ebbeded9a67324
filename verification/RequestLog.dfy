/** Reading the log of what the session has asked of the thread. */
module RequestLog {
  import opened ByteArrays
  import opened SessionModel

  /** The commands of one origin, in order. */
  function CommandsBy(requests: seq<Request>, origin: Origin): seq<Bytes> {
    if requests == [] then []
    else
      var last := requests[|requests| - 1];
      CommandsBy(requests[..|requests| - 1], origin)
      + if last.Command? && last.origin == origin then [last.payload] else []
  }

  /** All commands, in the order in which they are posted to the thread. */
  function AllCommands(requests: seq<Request>): seq<Bytes> {
    if requests == [] then []
    else
      var last := requests[|requests| - 1];
      AllCommands(requests[..|requests| - 1]) + if last.Command? then [last.payload] else []
  }

  /** The requests for the commands of one job. */
  function Commanded(id: nat, commands: seq<Bytes>): seq<Request> {
    seq(|commands|, (i: nat) requires i < |commands| => Command(FromJob(id), commands[i]))
  }

  lemma OneMore(requests: seq<Request>, request: Request, origin: Origin)
    ensures CommandsBy(requests + [request], origin)
         == CommandsBy(requests, origin)
            + if request.Command? && request.origin == origin then [request.payload] else []
  {
    assert (requests + [request])[..|requests|] == requests;
  }

  lemma {:induction false} JobSends(requests: seq<Request>, id: nat, commands: seq<Bytes>, origin: Origin)
    ensures CommandsBy(requests + Commanded(id, commands), origin)
         == CommandsBy(requests, origin) + if origin == FromJob(id) then commands else []
    decreases |commands|
  {
    if commands == [] {
      assert requests + Commanded(id, commands) == requests;
    } else {
      var before, last := commands[..|commands| - 1], Command(FromJob(id), commands[|commands| - 1]);
      JobSends(requests, id, before, origin);
      OneMore(requests + Commanded(id, before), last, origin);
      LastCommanded(requests, id, commands);
      assert commands == before + [commands[|commands| - 1]];
    }
  }

  lemma LastCommanded(requests: seq<Request>, id: nat, commands: seq<Bytes>)
    requires commands != []
    ensures requests + Commanded(id, commands)
         == requests + Commanded(id, commands[..|commands| - 1]) + [Command(FromJob(id), commands[|commands| - 1])]
  {
  }
}
