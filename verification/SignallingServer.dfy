// The signalling layer: one active client at a time, and a queue of tasks that the
// signalling thread runs one by one.
module SignallingServer {
  import opened Common

  type Client = nat     // a signalling connection
  type SessionId = nat  // zero is no session

  datatype Task =
    | Startup(client: Client)
    | Send(client: Client, session: SessionId)
    | Close(client: Client)

  // What the signalling thread is in the middle of.
  datatype Io =
    | IoIdle
    | Opening(client: Client)          // recorded as active, startup not posted yet
    | Connecting(client: Client)       // startup found it active
    | CreatingOffer(session: SessionId)
    | Applying(session: SessionId)     // answer accepted, not handed to the peer yet
    | Disconnecting                    // active client reset, session not torn down yet

  // What a task does once it runs.
  datatype Action =
    | Nothing
    | StartSession(client: Client)
    | SendPayload(client: Client, session: SessionId)
    | CloseConnection(client: Client)

  datatype Signalling = Signalling(
    activeClient: Option<Client>,
    known: set<Client>,  // every connection that was ever opened
    live: set<Client>,   // those whose close handler has not run
    io: Io,
    tasks: seq<Task>
  ) {
    // A weak handle counts only while its connection lives.
    predicate IsActive(c: Client) {
      activeClient == Some(c) && c in live
    }

    // The startup of this client is still to come.
    predicate Pending(c: Client) {
      Startup(c) in tasks || io == Opening(c) || io == Connecting(c)
    }

    function Opened(c: Client): Signalling {
      this.(activeClient := Some(c), known := known + {c}, live := live + {c}, io := Opening(c))
    }

    function StartupPosted(): Signalling
      requires io.Opening?
    {
      this.(io := IoIdle, tasks := tasks + [Startup(io.client)])
    }

    function Closed(c: Client): Signalling {
      if IsActive(c) then this.(activeClient := None, live := live - {c}, io := Disconnecting)
      else this.(live := live - {c})
    }

    function Posted(task: Task): Signalling {
      this.(tasks := tasks + [task])
    }

    function CloseRequested(): Signalling {
      if activeClient.Some? && activeClient.value in live then Posted(Close(activeClient.value)) else this
    }

    // Every task looks again whether its client is the active one.
    function ActionOf(task: Task): Action {
      if !IsActive(task.client) then Nothing
      else
        match task
        case Startup(c) => StartSession(c)
        case Send(c, session) => SendPayload(c, session)
        case Close(c) => CloseConnection(c)
    }
  }

  const NO_CLIENTS := Signalling(None, {}, {}, IoIdle, [])

  class SignallingHandler {
    var client: Option<Client>
    var knownConnections: set<Client>
    var liveConnections: set<Client>
    var postedTasks: seq<Task>

    constructor ()
      ensures View() == NO_CLIENTS
    {
      client, knownConnections, liveConnections, postedTasks := None, {}, {}, [];
    }

    // Between two handlers.
    function View(): Signalling
      reads this
    {
      Signalling(client, knownConnections, liveConnections, IoIdle, postedTasks)
    }

    // A newer client takes over at once; the one before it is closed as superseded.
    method OnOpen(c: Client) returns (superseded: Option<Client>)
      modifies this
      ensures View() == old(View()).Opened(c).StartupPosted()
      ensures superseded == if old(client).Some? && old(client).value in old(liveConnections) then old(client) else None
    {
      superseded := if client.Some? && client.value in liveConnections then client else None;
      client := Some(c);
      knownConnections, liveConnections := knownConnections + {c}, liveConnections + {c};
      postedTasks := postedTasks + [Startup(c)];
    }

    // Says whether the server is told that its client has gone.
    method OnClose(c: Client) returns (closedActiveClient: bool)
      modifies this
      ensures closedActiveClient <==> old(View()).IsActive(c)
      ensures View() == old(View()).Closed(c).(io := IoIdle)
    {
      closedActiveClient := client == Some(c) && c in liveConnections;
      if closedActiveClient {
        client := None;
      }
      liveConnections := liveConnections - {c};
    }

    method CloseActiveClient()
      modifies this
      ensures View() == old(View()).CloseRequested()
    {
      if client.None? || client.value !in liveConnections {
        return;
      }
      postedTasks := postedTasks + [Close(client.value)];
    }

    method RunTask() returns (action: Action)
      requires postedTasks != []
      modifies this
      ensures action == old(View()).ActionOf(old(postedTasks)[0])
      ensures View() == old(View()).(tasks := old(postedTasks)[1..])
    {
      var task := postedTasks[0];
      postedTasks := postedTasks[1..];
      if client != Some(task.client) || task.client !in liveConnections {
        return Nothing;
      }
      match task
      case Startup(c) => action := StartSession(c);
      case Send(c, session) => action := SendPayload(c, session);
      case Close(c) => action := CloseConnection(c);
    }
  }

  // What a task does: nothing unless its client is the active one and its
  // connection lives; otherwise exactly what it was posted for.
  lemma TasksInWords(sig: Signalling, task: Task)
    ensures sig.activeClient != Some(task.client) || task.client !in sig.live ==> sig.ActionOf(task) == Nothing
    ensures sig.activeClient == Some(task.client) && task.client in sig.live ==>
      && (task.Startup? ==> sig.ActionOf(task) == StartSession(task.client))
      && (task.Send? ==> sig.ActionOf(task) == SendPayload(task.client, task.session))
      && (task.Close? ==> sig.ActionOf(task) == CloseConnection(task.client))
  {
  }
}
