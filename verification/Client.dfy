/** The reconnecting stream clients: tcp, and ws with a handshake after the connect. */
module Client {
  import opened Bytes
  import opened Framing
  import opened Ids
  import opened ClientLog
  import Routing

  datatype Task =
    | Drop(target: nat)
    | Publish(data: Payload)
    | PublishEx(ids: seq<ID>, data: Payload)
    | Send(ids: seq<ID>, data: Payload)

  /** The one thing a client is waiting for. */
  datatype Token = Connecting | Handshaking | Reading(c: nat) | Dropping(c: nat) | Waiting

  function Drops(tasks: seq<Task>): seq<nat> {
    if tasks == [] then [] else (if tasks[0].Drop? then [tasks[0].target] else []) + Drops(tasks[1..])
  }

  lemma {:induction false} DropsAppend(tasks: seq<Task>, t: Task)
    ensures Drops(tasks + [t]) == Drops(tasks) + if t.Drop? then [t.target] else []
  {
    if tasks == [] {
      assert tasks + [t] == [t];
    } else {
      DropsAppend(tasks[1..], t);
      assert (tasks + [t])[1..] == tasks[1..] + [t];
    }
  }

  class Service {
    const websocket: bool
    const self: nat
    const printer: nat

    var connection: Option<nat>
    /** Outstanding operations: connects, handshakes, reads (by connection), timer waits; and the posted tasks. */
    var attempts: nat
    var handshakes: nat
    var chains: seq<nat>
    var timers: nat
    var tasks: seq<Task>
    var next: nat

    var log: seq<Event>
    /** Payloads handed to `connection->write`, with the connection. */
    var writes: seq<(nat, Payload)>

    ghost function Outstanding(): nat
      reads this
    {
      attempts + handshakes + |chains| + |Drops(tasks)| + timers
    }

    ghost function Current(): Token
      reads this
    {
      if attempts > 0 then Connecting else if handshakes > 0 then Handshaking
      else if chains != [] then Reading(chains[0])
      else if Drops(tasks) != [] then Dropping(Drops(tasks)[0]) else Waiting
    }

    /** In every state exactly one thing is outstanding, so the client neither stalls nor attempts twice; the connection
        object is there exactly while it is read from or its drop is posted; the callbacks alternate. */
    ghost predicate Valid()
      reads this
    {
      && Outstanding() == 1
      && (handshakes > 0 ==> websocket)
      && connection == (match Current() case Reading(c) => Some(c) case Dropping(c) => Some(c) case _ => None)
      && (connection.Some? ==> connection.value < next)
      && PhaseOf(log, false) == if connection.Some? then In else Out
    }

    constructor (websocket: bool, self: nat, printer: nat)
      ensures Valid() && Current() == Connecting && log == [] && writes == [] && tasks == []
      ensures this.websocket == websocket && this.self == self && this.printer == printer && next == 0
    {
      this.websocket, this.self, this.printer := websocket, self, printer;
      connection, attempts, handshakes, chains, timers, tasks, next := None, 0, 0, [], 0, [], 0;
      log, writes := [], [];
      new;
      Attempt();
    }

    method Attempt()
      modifies `attempts
      ensures attempts == old(attempts) + 1
    {
      attempts := attempts + 1;
    }

    method Reconnect()
      modifies `timers
      ensures timers == 1
    {
      timers := 0;
      timers := timers + 1;
    }

    /** A new connection object, announced, and its first read: for tcp started before `on_connect`, for ws after. */
    method Establish()
      requires Outstanding() == 0 && connection.None? && PhaseOf(log, false) == Out
      modifies `connection, `next, `log, `chains
      ensures Valid() && Current() == Reading(old(next)) && log == old(log) + [Ready, Connect] && next == old(next) + 1
    {
      connection := Some(next);
      next := next + 1;
      PhaseAppend(log, Ready, false);
      PhaseAppend(log + [Ready], Connect, false);
      log := log + [Ready];
      if websocket {
        log := log + [Connect];
        chains := chains + [connection.value];
      } else {
        chains := chains + [connection.value];
        log := log + [Connect];
      }
      assert log == old(log) + [Ready] + [Connect];
    }

    method Connected(failed: bool)
      requires Valid() && attempts > 0
      modifies `attempts, `handshakes, `timers, `connection, `next, `log, `chains
      ensures Valid()
      ensures Current() == if failed then Waiting else if websocket then Handshaking else Reading(old(next))
      ensures log == old(log) + if failed || websocket then [] else [Ready, Connect]
      ensures next == old(next) + if failed || websocket then 0 else 1
    {
      attempts := attempts - 1;
      if failed {
        Reconnect();
        return;
      }
      if websocket {
        handshakes := handshakes + 1;
      } else {
        Establish();
      }
    }

    method HandshakeDone(failed: bool)
      requires Valid() && handshakes > 0
      modifies `handshakes, `timers, `connection, `next, `log, `chains
      ensures Valid() && Current() == if failed then Waiting else Reading(old(next))
      ensures log == old(log) + if failed then [] else [Ready, Connect]
      ensures next == old(next) + if failed then 0 else 1
    {
      handshakes := handshakes - 1;
      if failed {
        Reconnect();
        return;
      }
      Establish();
    }

    method MessageRead(payload: seq<byte>)
      requires Valid() && chains != []
      modifies `log
      ensures Valid() && Current() == old(Current()) && log == old(log) + [Message(payload)]
    {
      PhaseAppend(log, Message(payload), false);
      log := log + [Message(payload)];
    }

    /** The read chain ends; the connection lives on until the posted drop runs. */
    method ChainEnded()
      requires Valid() && chains != []
      modifies `chains, `tasks
      ensures Valid() && Current() == Dropping(old(chains)[0]) && tasks == old(tasks) + [Drop(old(chains)[0])]
    {
      var c := chains[0];
      DropsAppend(tasks, Drop(c));
      chains := chains[1..];
      tasks := tasks + [Drop(c)];
    }

    method TimerFired()
      requires Valid() && timers > 0
      modifies `timers, `attempts
      ensures Valid() && Current() == Connecting
    {
      timers := timers - 1;
      Attempt();
    }

    method PostWrite(task: Task)
      requires Valid() && !task.Drop?
      modifies `tasks
      ensures Valid() && Current() == old(Current()) && tasks == old(tasks) + [task]
    {
      DropsAppend(tasks, task);
      tasks := tasks + [task];
    }

    ghost function RemoteId(): Option<ID>
      reads this
    {
      if connection.Some? then Some(ID(self, connection.value, printer)) else None
    }

    method HasRemoteId(ids: seq<ID>) returns (has: bool)
      ensures has <==> RemoteId().Some? && RemoteId().value in ids
    {
      if connection.None? {
        return false;
      }
      return ID(self, connection.value, printer) in ids;
    }

    method WriteIfConnected(data: Payload)
      modifies `writes
      ensures writes == old(writes) + if connection.Some? then [(connection.value, data)] else []
    {
      if connection.Some? {
        writes := writes + [(connection.value, data)];
      }
    }

    ghost function Abs(): State
      reads this
    {
      State(Current(), next, tasks, log, writes)
    }

    /** The posted half of `disconnect`. */
    method DropNow(target: nat)
      modifies `log, `connection, `timers
      ensures timers == 1
      ensures if old(connection) == Some(target)
                then connection.None? && log == old(log) + [Disconnect]
                     && PhaseOf(log, false) == After(PhaseOf(old(log), false), Disconnect, false)
                else connection == old(connection) && log == old(log)
    {
      if connection == Some(target) {
        PhaseAppend(log, Disconnect, false);
        log := log + [Disconnect];
        connection := None;
      }
      Reconnect();
    }

    /** The strand runs its first task. A drop always finds that the connection is still its target. */
    method RunTask()
      requires Valid() && tasks != []
      modifies `tasks, `log, `connection, `timers, `writes
      ensures Valid() && tasks == old(tasks)[1..]
      ensures if old(tasks)[0].Drop? then
                && old(connection) == Some(old(tasks)[0].target) && Current() == Waiting
                && log == old(log) + [Disconnect] && writes == old(writes)
              else
                && Current() == old(Current()) && log == old(log)
                && writes == old(writes) + if old(connection).Some? && Addressed(old(RemoteId()), old(tasks)[0])
                                           then [(old(connection).value, old(tasks)[0].data)] else []
    {
      hide ClientLog.PhaseOf, Addressed;
      var task := tasks[0];
      tasks := tasks[1..];
      match task
      case Drop(target) => DropNow(target);
      case _ => WriteTask(task);
    }

    /** The tasks of `publish`, `publish_ex` and `send`. */
    method WriteTask(task: Task)
      requires !task.Drop?
      modifies `writes
      ensures writes == old(writes) + if connection.Some? && Addressed(RemoteId(), task)
                                      then [(connection.value, task.data)] else []
      ensures writes == old(writes) + if connection.Some? && (task.PublishEx? ==> RemoteId().value !in task.ids)
                                         && (task.Send? ==> RemoteId().value in task.ids)
                                      then [(connection.value, task.data)] else []
    {
      match task
      case Publish(data) => WriteIfConnected(data);
      case PublishEx(ids, data) =>
        if connection.Some? { Routing.OneUnlisted(RemoteId().value, ids); }
        var has := HasRemoteId(ids);
        if !has { WriteIfConnected(data); }
      case Send(ids, data) =>
        var has := HasRemoteId(ids);
        if has { WriteIfConnected(data); }
    }

    /** One input; one that cannot happen in the present state does not happen. */
    method Handle(input: Input)
      requires Valid()
      modifies this
      ensures Valid() && Abs() == Step(Config(websocket, self, printer), old(Abs()), input)
    {
      hide ClientLog.PhaseOf, Addressed;
      match input
      case ConnectDone(failed) => if attempts > 0 { Connected(failed); }
      case HandshakeEnds(failed) => if handshakes > 0 { HandshakeDone(failed); }
      case Read(payload) => if chains != [] { MessageRead(payload); }
      case End => if chains != [] { ChainEnded(); }
      case Timer => if timers > 0 { TimerFired(); }
      case Post(task) => if !task.Drop? { PostWrite(task); }
      case Run => if tasks != [] { RunTask(); }
    }
  }

  /** A client routes like a gateway's service with one peer, or with none while it is not connected. */
  predicate Addressed(peer: Option<ID>, task: Task)
    requires !task.Drop?
  {
    Routing.Recipients(Routing.Single(peer), OpOf(task)) != []
  }

  function OpOf(task: Task): Routing.Op
    requires !task.Drop?
  {
    match task
    case Publish(_) => Routing.Publish
    case PublishEx(ids, _) => Routing.PublishEx(ids)
    case Send(ids, _) => Routing.Send(ids)
  }

  datatype Input =
    | ConnectDone(failed: bool) | HandshakeEnds(failed: bool) | Read(payload: seq<byte>) | End | Timer
    | Post(task: Task) | Run

  // ---- The protocol ----

  datatype Config = Config(websocket: bool, self: nat, printer: nat)

  /** The one thing that is outstanding, the next connection's address, and the strand's tasks. */
  datatype State = State(token: Token, next: nat, queue: seq<Task>, log: seq<Event>, writes: seq<(nat, Payload)>)

  const START := State(Connecting, 0, [], [], [])

  function Step(o: Config, s: State, input: Input): State {
    match input
    case ConnectDone(failed) =>
      if s.token != Connecting then s
      else if failed then s.(token := Waiting)
      else if o.websocket then s.(token := Handshaking) else Entered(s)
    case HandshakeEnds(failed) =>
      if s.token != Handshaking then s else if failed then s.(token := Waiting) else Entered(s)
    case Read(payload) => if s.token.Reading? then s.(log := s.log + [Message(payload)]) else s
    case End => if s.token.Reading? then s.(token := Dropping(s.token.c), queue := s.queue + [Drop(s.token.c)]) else s
    case Timer => if s.token == Waiting then s.(token := Connecting) else s
    case Post(task) => if task.Drop? then s else s.(queue := s.queue + [task])
    case Run =>
      if s.queue == [] then s else
      var t, task := s.(queue := s.queue[1..]), s.queue[0];
      if task.Drop? then t.(token := Waiting, log := s.log + [Disconnect])
      else t.(writes := s.writes + WritesNow(o, s.token, task))
  }

  function Entered(s: State): State {
    s.(token := Reading(s.next), next := s.next + 1, log := s.log + [Ready, Connect])
  }

  predicate IsConnected(t: Token) { t.Reading? || t.Dropping? }

  function WritesNow(o: Config, t: Token, task: Task): seq<(nat, Payload)>
    requires !task.Drop?
  {
    if IsConnected(t) && Addressed(Some(ID(o.self, t.c, o.printer)), task) then [(t.c, task.data)] else []
  }

  function Steps(o: Config, inputs: seq<Input>): State {
    if inputs == [] then START else Step(o, Steps(o, inputs[..|inputs| - 1]), inputs[|inputs| - 1])
  }

  /** How many of each operation are outstanding. */
  datatype Counts = Counts(connects: nat, handshakes: nat, chains: nat, drops: nat, timers: nat)

  function One(t: Token): Counts {
    match t
    case Connecting => Counts(1, 0, 0, 0, 0)
    case Handshaking => Counts(0, 1, 0, 0, 0)
    case Reading(_) => Counts(0, 0, 1, 0, 0)
    case Dropping(_) => Counts(0, 0, 0, 1, 0)
    case Waiting => Counts(0, 0, 0, 0, 1)
  }

  /** Any run of a client: what is outstanding is exactly the one thing that the protocol says; callbacks and writes
      are the protocol's too; the callbacks alternate. */
  method RunAll(o: Config, inputs: seq<Input>)
    returns (log: seq<Event>, writes: seq<(nat, Payload)>, connected: bool, outstanding: Counts)
    ensures outstanding == One(Steps(o, inputs).token) && connected == IsConnected(Steps(o, inputs).token)
    ensures log == Steps(o, inputs).log && writes == Steps(o, inputs).writes
    ensures PhaseOf(log, false) == if connected then In else Out
    ensures Count(log, Connect) == Count(log, Ready) == Count(log, Disconnect) + if connected then 1 else 0
  {
    hide Step, ClientLog.PhaseOf;
    var s := new Service(o.websocket, o.self, o.printer);
    for i := 0 to |inputs|
      invariant s.Valid() && fresh(s) && o == Config(s.websocket, s.self, s.printer)
      invariant s.Abs() == Steps(o, inputs[..i])
    {
      assert inputs[..i + 1][..i] == inputs[..i] && inputs[..i + 1][i] == inputs[i];
      s.Handle(inputs[i]);
    }
    assert inputs[..|inputs|] == inputs;
    Alternation(s.log, false);
    outstanding := Counts(s.attempts, s.handshakes, |s.chains|, |Drops(s.tasks)|, s.timers);
    return s.log, s.writes, s.connection.Some?, outstanding;
  }
}
