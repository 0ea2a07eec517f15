/** The connection registry of the tcp server; the WebSocket routes of the http server keep the same one. Connections
    are known by their `remote_id`; removal is a task posted to the strand. */
module Registry {
  import opened Bytes
  import opened Framing
  import opened Ids
  import opened PeerLog
  import opened Routing

  datatype Task = Remove(id: ID) | Write(op: Op, data: Payload)

  datatype Written = Written(to: ID, data: Payload)

  function AllTo(to: seq<ID>, data: Payload): (r: seq<Written>)
    ensures |r| == |to| && forall i :: 0 <= i < |r| ==> r[i] == Written(to[i], data)
  {
    seq(|to|, i requires 0 <= i < |to| => Written(to[i], data))
  }

  lemma WrittenTo(connections: seq<ID>, op: Op, data: Payload)
    ensures forall c :: Written(c, data) in AllTo(Recipients(Service.Registry(connections), op), data) <==>
              c in connections
              && (op.Publish? || (op.PublishEx? && c !in op.ids) || (op.Send? && c in op.ids))
  {
    var to := Recipients(Service.Registry(connections), op);
    forall c: ID
      ensures Written(c, data) in AllTo(to, data) <==> c in to
      ensures c in to <==>
                c in connections && (op.Publish? || (op.PublishEx? && c !in op.ids) || (op.Send? && c in op.ids))
    {
      Reaches(Service.Registry(connections), if op.Publish? then [] else op.ids, c);
      if c in to {
        var i :| 0 <= i < |to| && to[i] == c;
        assert AllTo(to, data)[i] == Written(c, data);
      }
    }
  }

  /** The removals among the posted tasks. */
  function Removals(tasks: seq<Task>): seq<ID> {
    if tasks == [] then [] else (if tasks[0].Remove? then [tasks[0].id] else []) + Removals(tasks[1..])
  }

  lemma {:induction false} RemovalsAppend(tasks: seq<Task>, t: Task)
    ensures Removals(tasks + [t]) == Removals(tasks) + if t.Remove? then [t.id] else []
  {
    if tasks == [] {
      assert tasks + [t] == [t];
    } else {
      RemovalsAppend(tasks[1..], t);
      assert (tasks + [t])[1..] == tasks[1..] + [t];
    }
  }

  lemma RemovalsHead(tasks: seq<Task>)
    requires tasks != [] && tasks[0].Remove? && Distinct(Removals(tasks))
    ensures Distinct(Removals(tasks[1..])) && tasks[0].id !in Removals(tasks[1..])
    ensures forall c :: c in Removals(tasks) <==> c == tasks[0].id || c in Removals(tasks[1..])
  {
    var all, rest := Removals(tasks), Removals(tasks[1..]);
    assert all == [tasks[0].id] + rest;
    assert all[0] == tasks[0].id && all[1..] == rest;
  }

  function Without(s: seq<ID>, id: ID): (r: seq<ID>)
    ensures forall c :: c in r <==> c in s && c != id
    ensures Distinct(s) ==> Distinct(r)
  {
    if s == [] then [] else
    assert forall c :: c in s <==> c == s[0] || c in s[1..];
    assert Distinct(s) ==> Distinct(s[1..]) && s[0] !in s[1..];
    var rest := Without(s[1..], id);
    if s[0] == id then rest else [s[0]] + rest
  }

  lemma {:induction false} WithoutAppend(s: seq<ID>, c: ID, id: ID)
    ensures Without(s + [c], id) == Without(s, id) + if c == id then [] else [c]
  {
    if s == [] {
      assert s + [c] == [c];
    } else {
      WithoutAppend(s[1..], c, id);
      assert (s + [c])[1..] == s[1..] + [c];
    }
  }

  lemma UnlistedStep(s: seq<ID>, ids: seq<ID>, data: Payload)
    requires s != []
    ensures AllTo(Unlisted(s, ids), data)
         == (if s[0] in ids then [] else [Written(s[0], data)]) + AllTo(Unlisted(s[1..], ids), data)
  {
  }

  lemma ListedStep(s: seq<ID>, ids: seq<ID>, data: Payload)
    requires ids != []
    ensures AllTo(ListedInTurn(s, ids), data)
         == (if ids[0] in s then [Written(ids[0], data)] else []) + AllTo(ListedInTurn(s, ids[1..]), data)
  {
  }

  class Server {
    const self: nat
    const printer: nat

    var connections: seq<ID>
    /** Outstanding accepts, connections with a live read chain, posted tasks, the next connection's address. */
    var accepts: nat
    var chains: set<ID>
    var tasks: seq<Task>
    var next: nat

    var log: seq<Event>
    var writes: seq<Written>

    ghost function Address(ref: nat): ID { ID(self, ref, printer) }

    /** In every state: the list holds, once each, exactly the accepted connections whose removal has not run, that is
        those still read from and those with one removal posted; their callbacks are one connect, then messages; the
        removed ones also had their one disconnect; one accept is outstanding. */
    ghost predicate Valid()
      reads this
    {
      && accepts == 1
      && Distinct(connections) && Distinct(Removals(tasks))
      && (forall c :: c in connections <==> c in chains || c in Removals(tasks))
      && (forall c :: c in chains ==> c !in Removals(tasks))
      && (forall c :: c in connections ==> c == Address(c.ref) && c.ref < next)
      && forall ref: nat :: StatusOf(log, ref) == if Address(ref) in connections then Live
                                                  else if ref < next then Gone else Unknown
    }

    constructor (self: nat, printer: nat)
      ensures Valid() && connections == [] && log == [] && writes == [] && tasks == [] && next == 0 && chains == {}
      ensures this.self == self && this.printer == printer
    {
      this.self, this.printer := self, printer;
      connections, chains, tasks, next := [], {}, [], 0;
      log, writes := [], [];
      accepts := 1;
    }

    /** The accept completes. The connection starts reading and is announced before it joins the list. */
    method Accepted(failed: bool)
      requires Valid()
      modifies `accepts, `next, `chains, `log, `connections
      ensures Valid()
      ensures if failed then unchanged(`next, `chains, `log, `connections)
              else connections == old(connections) + [Address(old(next))] && log == old(log) + [Connected(old(next))]
                   && chains == old(chains) + {Address(old(next))} && next == old(next) + 1
    {
      accepts := accepts - 1;
      if !failed {
        var connection := ID(self, next, printer);
        chains := chains + {connection};
        StatusAppend(log, Connected(next));
        log := log + [Connected(next)];
        connections := connections + [connection];
        next := next + 1;
      }
      accepts := accepts + 1;
    }

    /** A live chain delivers a message. */
    method MessageRead(c: ID, payload: seq<byte>)
      requires Valid() && c in chains
      modifies `log
      ensures Valid() && log == old(log) + [Message(c.ref, payload)]
    {
      StatusAppend(log, Message(c.ref, payload));
      log := log + [Message(c.ref, payload)];
    }

    /** A live chain ends: `disconnect` posts the removal and the chain is never resumed. */
    method ChainEnded(c: ID)
      requires Valid() && c in chains
      modifies `chains, `tasks
      ensures Valid() && chains == old(chains) - {c} && tasks == old(tasks) + [Remove(c)]
    {
      RemovalsAppend(tasks, Remove(c));
      chains := chains - {c};
      tasks := tasks + [Remove(c)];
    }

    /** `publish`, `publish_ex`, `send`. */
    method PostWrite(op: Op, data: Payload)
      requires Valid()
      modifies `tasks
      ensures Valid() && tasks == old(tasks) + [Write(op, data)]
    {
      RemovalsAppend(tasks, Write(op, data));
      tasks := tasks + [Write(op, data)];
    }

    /** The strand runs its first task. A removal always finds its connection. */
    method RunTask()
      requires Valid() && tasks != []
      modifies `tasks, `log, `connections, `writes
      ensures Valid() && tasks == old(tasks)[1..]
      ensures match old(tasks)[0]
              case Remove(c) => c in old(connections) && connections == Without(old(connections), c)
                                && log == old(log) + [Disconnected(c.ref)] && writes == old(writes)
              case Write(op, data) => connections == old(connections) && log == old(log)
                                      && writes == old(writes)
                                                   + AllTo(Recipients(Service.Registry(connections), op), data)
                                      && forall c :: Written(c, data) in writes[|old(writes)|..] <==>
                                           c in connections
                                           && (|| op.Publish? || (op.PublishEx? && c !in op.ids)
                                               || (op.Send? && c in op.ids))
    {
      match tasks[0]
      case Remove(c) => DropNow(c);
      case Write(op, data) =>
        assert Removals(tasks[1..]) == Removals(tasks);
        tasks := tasks[1..];
        WriteNow(op, data);
    }

    /** The body of the tasks that `publish`, `publish_ex` and `send` post. */
    method WriteNow(op: Op, data: Payload)
      modifies `writes
      ensures writes == old(writes) + AllTo(Recipients(Service.Registry(connections), op), data)
      ensures forall c :: Written(c, data) in writes[|old(writes)|..] <==>
                c in connections
                && (op.Publish? || (op.PublishEx? && c !in op.ids) || (op.Send? && c in op.ids))
    {
      match op {
        case Publish => PublishNow(data);
        case PublishEx(ids) => PublishExNow(ids, data);
        case Send(ids) => SendNow(ids, data);
      }
      WrittenTo(connections, op, data);
    }

    /** The body of the task that `disconnect` posts. */
    method DropNow(c: ID)
      requires Valid() && tasks != [] && tasks[0] == Remove(c)
      modifies `tasks, `log, `connections
      ensures Valid() && tasks == old(tasks)[1..]
      ensures c in old(connections) && connections == Without(old(connections), c)
      ensures log == old(log) + [Disconnected(c.ref)]
    {
      hide StatusOf, Without, Removals, Distinct;
      RemovalsHead(tasks);
      tasks := tasks[1..];
      StatusAppend(log, Disconnected(c.ref));
      log := log + [Disconnected(c.ref)];
      Erase(c);
    }

    /** `erase(remove_if(...))`. */
    method Erase(id: ID)
      modifies `connections
      ensures connections == Without(old(connections), id)
    {
      var kept := [];
      for i := 0 to |connections|
        invariant connections == old(connections) && kept == Without(connections[..i], id)
      {
        assert connections[..i + 1] == connections[..i] + [connections[i]];
        WithoutAppend(connections[..i], connections[i], id);
        if connections[i] != id {
          kept := kept + [connections[i]];
        }
      }
      assert connections[..|connections|] == connections;
      connections := kept;
    }

    method PublishNow(data: Payload)
      modifies `writes
      ensures writes == old(writes) + AllTo(connections, data)
    {
      for i := 0 to |connections|
        invariant writes == old(writes) + AllTo(connections[..i], data)
      {
        writes := writes + [Written(connections[i], data)];
      }
      assert connections[..|connections|] == connections;
    }

    method PublishExNow(ids: seq<ID>, data: Payload)
      modifies `writes
      ensures writes == old(writes) + AllTo(Unlisted(connections, ids), data)
    {
      for i := 0 to |connections|
        invariant writes + AllTo(Unlisted(connections[i..], ids), data)
               == old(writes) + AllTo(Unlisted(connections, ids), data)
      {
        assert connections[i..][1..] == connections[i + 1..];
        UnlistedStep(connections[i..], ids, data);
        if connections[i] in ids {
          continue;
        }
        writes := writes + [Written(connections[i], data)];
      }
    }

    /** The position of the first connection with this id, or the end. */
    method FindConnection(id: ID) returns (at: nat)
      ensures at <= |connections|
      ensures at < |connections| ==> connections[at] == id
      ensures at == |connections| <==> id !in connections
    {
      at := 0;
      while at < |connections|
        invariant at <= |connections| && id !in connections[..at]
      {
        if connections[at] == id { return; }
        at := at + 1;
      }
    }

    method SendNow(ids: seq<ID>, data: Payload)
      modifies `writes
      ensures writes == old(writes) + AllTo(ListedInTurn(connections, ids), data)
    {
      for i := 0 to |ids|
        invariant writes + AllTo(ListedInTurn(connections, ids[i..]), data)
               == old(writes) + AllTo(ListedInTurn(connections, ids), data)
      {
        assert ids[i..][1..] == ids[i + 1..];
        var at := FindConnection(ids[i]);
        ListedStep(connections, ids[i..], data);
        AppendAssociates(writes, [Written(ids[i], data)], AllTo(ListedInTurn(connections, ids[i + 1..]), data));
        if at != |connections| {
          writes := writes + [Written(connections[at], data)];
        }
      }
    }
  }

  datatype Input =
    | Accept(failed: bool)
    | Read(c: ID, payload: seq<byte>)
    | End(c: ID)
    | Post(op: Op, data: Payload)
    | Run

  // ---- Whole runs, from the inputs ----

  /** Who the server is: its connections' ids carry it. */
  datatype Host = Host(self: nat, printer: nat)

  function Address(h: Host, ref: nat): ID { ID(h.self, ref, h.printer) }

  /** How many accepts have succeeded. */
  function Accepts(inputs: seq<Input>): nat {
    if inputs == [] then 0 else
    var last := inputs[|inputs| - 1];
    Accepts(inputs[..|inputs| - 1]) + if last.Accept? && !last.failed then 1 else 0
  }

  /** Every task posted so far: what the user published, and one removal for every chain that ended. */
  function Posted(h: Host, inputs: seq<Input>): seq<Task>
    decreases inputs, 0
  {
    if inputs == [] then [] else
    Posted(h, inputs[..|inputs| - 1]) + PostedBy(h, inputs[..|inputs| - 1], inputs[|inputs| - 1])
  }

  function PostedBy(h: Host, before: seq<Input>, input: Input): seq<Task>
    decreases before, 2
  {
    match input
    case End(c) => if Open(h, before, c) then [Remove(c)] else []
    case Post(op, data) => [Write(op, data)]
    case _ => []
  }

  /** Accepted, and its chain has not ended. */
  predicate Open(h: Host, inputs: seq<Input>, c: ID)
    decreases inputs, 1
  {
    c.ref < Accepts(inputs) && c == Address(h, c.ref) && Remove(c) !in Posted(h, inputs)
  }

  /** How many of the posted tasks have run; they run in order. */
  function Turns(h: Host, inputs: seq<Input>): (r: nat)
    ensures r <= |Posted(h, inputs)|
  {
    if inputs == [] then 0 else
    var init := inputs[..|inputs| - 1];
    Turns(h, init) + if inputs[|inputs| - 1].Run? && Turns(h, init) < |Posted(h, init)| then 1 else 0
  }

  function Pending(h: Host, inputs: seq<Input>): seq<Task> { Posted(h, inputs)[Turns(h, inputs)..] }

  /** The accepted connections whose removal has not run, in the order of acceptance. */
  function Listed(h: Host, inputs: seq<Input>): seq<ID> {
    Remaining(h, Accepts(inputs), Done(h, inputs))
  }

  function Done(h: Host, inputs: seq<Input>): seq<Task> { Posted(h, inputs)[..Turns(h, inputs)] }

  function Remaining(h: Host, n: nat, done: seq<Task>): seq<ID> {
    if n == 0 then [] else
    Remaining(h, n - 1, done) + if Remove(Address(h, n - 1)) in done then [] else [Address(h, n - 1)]
  }

  lemma {:induction false} RemainingHas(h: Host, n: nat, done: seq<Task>, c: ID)
    ensures c in Remaining(h, n, done) <==> c.ref < n && c == Address(h, c.ref) && Remove(c) !in done
  {
    if n > 0 {
      RemainingHas(h, n - 1, done, c);
    }
  }

  /** The callbacks: connect when accepted, messages while the chain is open, disconnect when the removal runs. */
  function LogOf(h: Host, inputs: seq<Input>): seq<Event> {
    if inputs == [] then [] else
    LogOf(h, inputs[..|inputs| - 1]) + LoggedBy(h, inputs[..|inputs| - 1], inputs[|inputs| - 1])
  }

  function LoggedBy(h: Host, before: seq<Input>, input: Input): (r: seq<Event>)
    ensures |r| <= 1
  {
    match input
    case Accept(failed) => if failed then [] else [Connected(Accepts(before))]
    case Read(c, payload) => if Open(h, before, c) then [Message(c.ref, payload)] else []
    case Run => if Pending(h, before) == [] then [] else Goodbye(Pending(h, before)[0])
    case _ => []
  }

  function Goodbye(task: Task): (r: seq<Event>)
    ensures |r| <= 1
  {
    if task.Remove? then [Disconnected(task.id.ref)] else []
  }

  /** The writes: every executed request goes to those it is routed to among the connections then listed. */
  function WritesOf(h: Host, inputs: seq<Input>): seq<Written> {
    if inputs == [] then [] else
    WritesOf(h, inputs[..|inputs| - 1]) + WrittenBy(h, inputs[..|inputs| - 1], inputs[|inputs| - 1])
  }

  function WrittenBy(h: Host, before: seq<Input>, input: Input): seq<Written> {
    if input.Run? && Pending(h, before) != [] then Routed(Listed(h, before), Pending(h, before)[0]) else []
  }

  function Routed(connections: seq<ID>, task: Task): seq<Written> {
    if task.Remove? then [] else AllTo(Recipients(Service.Registry(connections), task.op), task.data)
  }

  lemma PostedMore(h: Host, before: seq<Input>, last: Input, c: ID)
    ensures Accepts(before + [last]) == Accepts(before) + if last == Accept(false) then 1 else 0
    ensures Remove(c) in Posted(h, before + [last])
            <==> Remove(c) in Posted(h, before) || (last == End(c) && Open(h, before, c))
  {
    var all := before + [last];
    assert all[..|all| - 1] == before && all[|all| - 1] == last;
    assert Remove(c) in PostedBy(h, before, last) <==> last == End(c) && Open(h, before, c);
  }

  lemma {:induction false} PostedIsAccepted(h: Host, inputs: seq<Input>, c: ID)
    ensures Remove(c) in Posted(h, inputs) ==> c.ref < Accepts(inputs) && c == Address(h, c.ref)
  {
    if inputs != [] {
      var init, last := inputs[..|inputs| - 1], inputs[|inputs| - 1];
      PostedIsAccepted(h, init, c);
      PostedMore(h, init, last, c);
      assert inputs == init + [last];
    }
  }

  lemma RemoveIn(done: seq<Task>, c: ID, t: Task)
    ensures Remove(c) in done + [t] <==> Remove(c) in done || t == Remove(c)
  {
  }

  lemma {:induction false} RemainingWithout(h: Host, n: nat, done: seq<Task>, c: ID)
    ensures Remaining(h, n, done + [Remove(c)]) == Without(Remaining(h, n, done), c)
  {
    hide Distinct, Without;
    if n == 0 {
      NothingWithout(c);
    } else {
      var last, rest := Address(h, n - 1), Remaining(h, n - 1, done);
      RemainingWithout(h, n - 1, done, c);
      RemoveIn(done, last, Remove(c));
      WithoutAppend(rest, last, c);
      if Remove(last) in done {
        assert Remaining(h, n, done) == rest;
      } else {
        assert Remaining(h, n, done) == rest + [last];
      }
    }
  }

  lemma NothingWithout(c: ID)
    ensures Without([], c) == []
  {
  }

  lemma {:induction false} RemainingWrite(h: Host, n: nat, done: seq<Task>, t: Task)
    requires t.Write?
    ensures Remaining(h, n, done + [t]) == Remaining(h, n, done)
  {
    if n > 0 {
      RemainingWrite(h, n - 1, done, t);
      RemoveIn(done, Address(h, n - 1), t);
    }
  }

  /** The server is where the inputs leave it. */
  ghost predicate Follows(s: Server, inputs: seq<Input>)
    reads s
  {
    var h := Host(s.self, s.printer);
    && s.next == Accepts(inputs) && s.tasks == Pending(h, inputs)
    && (forall c :: c in s.chains <==> Open(h, inputs, c))
    && s.connections == Listed(h, inputs) && s.log == LogOf(h, inputs) && s.writes == WritesOf(h, inputs)
  }

  lemma Opens(h: Host, before: seq<Input>, last: Input, c: ID)
    ensures Open(h, before + [last], c) ==
              if last == Accept(false) && c == Address(h, Accepts(before)) then true
              else Open(h, before, c) && last != End(c)
  {
    PostedMore(h, before, last, c);
    PostedIsAccepted(h, before, c);
  }

  /** The list after one more input. */
  lemma Lists(h: Host, before: seq<Input>, last: Input)
    ensures var all, tasks := before + [last], Pending(h, before);
            Listed(h, all) == if last == Accept(false) then Listed(h, before) + [Address(h, Accepts(before))]
                              else if last.Run? && tasks != [] && tasks[0].Remove?
                              then Without(Listed(h, before), tasks[0].id)
                              else Listed(h, before)
  {
    hide Open, Without, Remaining, Pending, Done, Accepts, Distinct;
    Turned(h, before, last);
    var tasks := Pending(h, before);
    if last == Accept(false) {
      AppendNothing(Done(h, before));
      NotRemoved(h, before);
      RemainingMore(h, Accepts(before), Done(h, before));
    } else if last.Run? && tasks != [] {
      RemainingTask(h, Accepts(before), Done(h, before), tasks[0]);
    } else {
      AppendNothing(Done(h, before));
    }
  }

  lemma RemainingTask(h: Host, n: nat, done: seq<Task>, task: Task)
    ensures Remaining(h, n, done + [task])
            == if task.Remove? then Without(Remaining(h, n, done), task.id) else Remaining(h, n, done)
  {
    hide Remaining, Without;
    if task.Remove? {
      RemainingWithout(h, n, done, task.id);
    } else {
      RemainingWrite(h, n, done, task);
    }
  }

  lemma NotRemoved(h: Host, inputs: seq<Input>)
    ensures Remove(Address(h, Accepts(inputs))) !in Done(h, inputs)
  {
    PostedIsAccepted(h, inputs, Address(h, Accepts(inputs)));
  }

  /** The tasks that have run after one more input. */
  lemma Turned(h: Host, before: seq<Input>, last: Input)
    ensures var all, tasks := before + [last], Pending(h, before);
            && Accepts(all) == Accepts(before) + (if last == Accept(false) then 1 else 0)
            && Done(h, all) == Done(h, before) + if last.Run? && tasks != [] then [tasks[0]] else []
  {
    hide Open, PostedBy;
    var all := before + [last];
    assert all[..|all| - 1] == before && all[|all| - 1] == last;
  }

  lemma RemainingMore(h: Host, n: nat, done: seq<Task>)
    requires Remove(Address(h, n)) !in done
    ensures Remaining(h, n + 1, done) == Remaining(h, n, done) + [Address(h, n)]
  {
  }

  /** Everything else after one more input. */
  lemma OneMore(h: Host, before: seq<Input>, last: Input)
    ensures var all, tasks := before + [last], Pending(h, before);
            && Accepts(all) == Accepts(before) + (if last == Accept(false) then 1 else 0)
            && Pending(h, all) == (if last.Run? && tasks != [] then tasks[1..] else tasks) + PostedBy(h, before, last)
            && LogOf(h, all) == LogOf(h, before) + LoggedBy(h, before, last)
            && WritesOf(h, all) == WritesOf(h, before) + WrittenBy(h, before, last)
  {
    hide Open, Listed, LoggedBy, WrittenBy;
    var all := before + [last];
    assert all[..|all| - 1] == before && all[|all| - 1] == last;
  }

  /** One input; one that cannot happen in the present state does not happen. */
  method Handle(s: Server, ghost before: seq<Input>, input: Input)
    requires s.Valid() && Follows(s, before)
    modifies s
    ensures s.Valid() && Follows(s, before + [input])
  {
    hide Pending, Accepts, LogOf, WritesOf, Listed, Open, Without, PeerLog.StatusOf, Distinct, Removals, Recipients;
    ghost var h := Host(s.self, s.printer);
    Lists(h, before, input);
    OneMore(h, before, input);
    OpensAll(h, before, input);
    match input
    case Accept(failed) => s.Accepted(failed);
    case Read(c, payload) => if c in s.chains { s.MessageRead(c, payload); }
    case End(c) => if c in s.chains { s.ChainEnded(c); }
    case Post(op, data) => s.PostWrite(op, data);
    case Run => if s.tasks != [] { s.RunTask(); }
  }

  lemma OpensAll(h: Host, before: seq<Input>, last: Input)
    ensures forall c :: Open(h, before + [last], c) ==
              if last == Accept(false) && c == Address(h, Accepts(before)) then true
              else Open(h, before, c) && last != End(c)
  {
    hide Open;
    forall c ensures Open(h, before + [last], c) ==
                       if last == Accept(false) && c == Address(h, Accepts(before)) then true
                       else Open(h, before, c) && last != End(c)
    {
      Opens(h, before, last, c);
    }
  }

  /** Any run of the registry: the list is the accepted connections whose removal has not run, in order; the callbacks
      are one connect for every accepted connection, the messages read while its chain was open, one disconnect when
      its removal ran; the writes are those of the executed requests to the connections then listed; one accept is
      always outstanding. */
  method RunAll(h: Host, inputs: seq<Input>)
    returns (log: seq<Event>, connections: seq<ID>, writes: seq<Written>, accepts: nat)
    ensures connections == Listed(h, inputs) && log == LogOf(h, inputs) && writes == WritesOf(h, inputs)
    ensures accepts == 1
    ensures forall peer: nat :: StatusOf(log, peer) != Broken
    ensures forall peer: nat :: Address(h, peer) in connections <==> StatusOf(log, peer) == Live
  {
    hide Listed, Open, Without, PeerLog.StatusOf, Distinct, Removals, Pending, LogOf, WritesOf, Accepts;
    var s := new Server(h.self, h.printer);
    NoInputs(s);
    for i := 0 to |inputs|
      invariant s.Valid() && fresh(s) && s.self == h.self && s.printer == h.printer && Follows(s, inputs[..i])
    {
      assert inputs[..i + 1] == inputs[..i] + [inputs[i]];
      Handle(s, inputs[..i], inputs[i]);
    }
    assert inputs[..|inputs|] == inputs;
    assert forall ref :: s.Address(ref) == Address(h, ref);
    return s.log, s.connections, s.writes, s.accepts;
  }

  lemma NoInputs(s: Server)
    requires s.next == 0 && s.tasks == [] && s.chains == {} && s.connections == [] && s.log == [] && s.writes == []
    ensures Follows(s, [])
  {
  }

  lemma NotItsMessage(h: Host, before: seq<Input>, input: Input, c: ID)
    requires c == Address(h, c.ref) && !Open(h, before, c)
    ensures forall e :: e in LoggedBy(h, before, input) ==> !(e.Message? && e.peer == c.ref)
  {
  }

  lemma SilentStep(h: Host, before: seq<Input>, last: Input, c: ID)
    requires c == Address(h, c.ref) && c.ref < Accepts(before) && !Open(h, before, c)
    ensures var all := before + [last];
            && !Open(h, all, c) && c.ref < Accepts(all)
            && MessagesOf(LogOf(h, all), c.ref) == MessagesOf(LogOf(h, before), c.ref)
  {
    hide Open, LogOf, Accepts, Pending, Posted, WritesOf, Listed, LoggedBy, WrittenBy, PostedBy, MessagesOf;
    Opens(h, before, last, c);
    OneMore(h, before, last);
    NotItsMessage(h, before, last, c);
    MessagesAppend(LogOf(h, before), LoggedBy(h, before, last), c.ref);
  }

  /** After its read chain has ended a connection delivers nothing, whatever happens later. */
  lemma {:induction false} SilentAfterEnd(h: Host, inputs: seq<Input>, later: seq<Input>, c: ID)
    requires c == Address(h, c.ref) && c.ref < Accepts(inputs) && !Open(h, inputs, c)
    ensures !Open(h, inputs + later, c)
    ensures MessagesOf(LogOf(h, inputs + later), c.ref) == MessagesOf(LogOf(h, inputs), c.ref)
    decreases |later|
  {
    hide Open, LogOf, Accepts, MessagesOf;
    if later == [] {
      assert inputs + later == inputs;
    } else {
      SilentStep(h, inputs, later[0], c);
      SilentAfterEnd(h, inputs + [later[0]], later[1..], c);
      assert inputs + [later[0]] + later[1..] == inputs + later;
    }
  }
}
