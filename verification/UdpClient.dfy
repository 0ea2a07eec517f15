/** The udp client: it probes every 25 ms, is connected while replies keep coming, and opens a new socket when they
    stop. */
module UdpClient {
  import opened Bytes
  import opened Ids
  import opened ClientLog
  import opened Probes
  import Routing

  const EXTERNAL: byte := 0
  const INTERNAL: byte := 1

  /** The one endpoint a client hears from. */
  const SERVER: nat := 0

  class Client {
    const self: nat
    const printer: nat
    const buffer: nat

    var now: real
    var connected: bool
    /** Outstanding receives, waits on the two timers, and when these come due. */
    var receives: nat
    var pingWaits: nat
    var pingDue: real
    var timeoutWaits: nat
    var timeoutDue: real
    var log: seq<Event>
    var sent: seq<seq<byte>>
    /** The replies heard, and whether listening has stopped: a receive failed or a socket could not be opened. */
    ghost var replies: seq<Ping>
    ghost var deaf: bool

    /** In every state: connected exactly while the 50 ms timer is armed, which is 50 ms after the last reply; one ping
        wait; one receive unless the client went deaf; ready and connect alternate with disconnect. */
    ghost predicate Steady()
      reads this
    {
      && Ordered(replies, now)
      && pingWaits == 1
      && timeoutWaits == (if connected then 1 else 0)
      && receives == (if deaf then 0 else 1)
      && (if connected then
            && LastPing(replies, SERVER).Some? && timeoutDue == LastPing(replies, SERVER).value + EXPIRY
            && now <= timeoutDue
          else !Recent(replies, SERVER, now))
      && PhaseOf(log, true) == if connected then In else Out
    }

    ghost predicate Valid()
      reads this
    {
      Steady() && (connected ==> now < timeoutDue)
    }

    ghost function Abs(): State
      reads this
    {
      State(now, if connected then Some(timeoutDue) else None, receives == 1, log)
    }

    lemma ConnectedIffRecent()
      requires Valid()
      ensures connected <==> HeardSince(replies, SERVER, now - EXPIRY)
    {
      RecentIffSomeRecent(replies, SERVER, now);
    }

    /** The constructor after the socket was opened; without a socket the client does nothing at all. */
    constructor (self: nat, printer: nat, buffer: nat)
      ensures Valid() && !connected && !deaf && log == [] && replies == [] && now == 0.0 && this.buffer == buffer
      ensures sent == [[INTERNAL]] && pingDue == PROBE_INTERVAL
    {
      this.self, this.printer, this.buffer := self, printer, buffer;
      now, connected, receives, pingWaits, pingDue, timeoutWaits, timeoutDue := 0.0, false, 0, 0, 0.0, 0, 0.0;
      log, sent, replies, deaf := [], [], [], false;
      new;
      Ping();
      Receive();
    }

    method Receive()
      modifies `receives
      ensures receives == old(receives) + 1
    {
      receives := receives + 1;
    }

    method Ping()
      modifies `sent, `pingDue, `pingWaits
      ensures sent == old(sent) + [[INTERNAL]] && pingDue == now + PROBE_INTERVAL && pingWaits == 1
    {
      sent := sent + [[INTERNAL]];
      pingDue, pingWaits := now + PROBE_INTERVAL, 0;
      pingWaits := pingWaits + 1;
    }

    /** The ping wait completes, perhaps late. */
    method PingFired()
      requires Valid() && pingDue <= now
      modifies `sent, `pingDue, `pingWaits
      ensures Valid() && sent == old(sent) + [[INTERNAL]] && pingDue == now + PROBE_INTERVAL
    {
      pingWaits := 0;
      Ping();
    }

    method Pong()
      requires Valid()
      modifies `connected, `log, `timeoutDue, `timeoutWaits, `replies
      ensures Valid() && connected && replies == old(replies) + [Probes.Ping(SERVER, now)]
      ensures timeoutDue == now + EXPIRY
      ensures log == old(log) + if old(connected) then [] else [Ready, Connect]
    {
      hide Probes.Birth, ClientLog.PhaseOf, Probes.Recent;
      if !connected {
        connected := true;
        PhaseAppend(log, Ready, true);
        PhaseAppend(log + [Ready], Connect, true);
        log := log + [Ready];
        log := log + [Connect];
        assert log == old(log) + [Ready, Connect];
      }
      timeoutDue, timeoutWaits := now + EXPIRY, 0;
      timeoutWaits := timeoutWaits + 1;
      HistoryAppend(replies, Probes.Ping(SERVER, now));
      replies := replies + [Probes.Ping(SERVER, now)];
    }

    /** The 50 ms timer completes at its deadline. `reopened` says whether a new socket could be opened. */
    method TimedOut(reopened: bool)
      requires Steady() && timeoutWaits == 1 && timeoutDue == now
      modifies `connected, `log, `timeoutWaits, `receives, `deaf
      ensures Valid() && !connected && log == old(log) + [Disconnect] && deaf == !reopened
    {
      timeoutWaits := 0;
      if connected {
        connected := false;
        PhaseAppend(log, Disconnect, true);
        log := log + [Disconnect];
        RecreateSocket(reopened);
      }
    }

    /** Closing the socket aborts its receive, whose handler then does nothing; the new socket gets its own. */
    method RecreateSocket(reopened: bool)
      modifies `receives, `deaf
      ensures receives == (if reopened then 1 else 0) && deaf == !reopened
    {
      receives := 0;
      deaf := !reopened;
      if !reopened {
        return;
      }
      Receive();
    }

    /** The receive completes. Any marker above zero is a reply; a user message is handed over even when unconnected. */
    method Received(failed: bool, datagram: seq<byte>)
      requires Valid() && receives == 1
      modifies `connected, `log, `timeoutDue, `timeoutWaits, `replies, `receives, `deaf
      ensures Valid() && receives == (if failed then 0 else 1)
      ensures failed ==> log == old(log) && replies == old(replies) && connected == old(connected)
                         && timeoutDue == old(timeoutDue)
      ensures !failed ==> var data := if |datagram| <= buffer then datagram else datagram[..buffer];
                && replies == old(replies) + (if data != [] && data[0] > 0 then [Probes.Ping(SERVER, now)] else [])
                && log == old(log) + (if data == [] then [] else if data[0] == 0 then [Message(data[1..])]
                                      else if old(connected) then [] else [Ready, Connect])
                && connected == (old(connected) || (data != [] && data[0] > 0))
                && timeoutDue == if data != [] && data[0] > 0 then now + EXPIRY else old(timeoutDue)
    {
      hide Probes.Birth, Probes.Recent, Probes.LastPing, Probes.Ordered, ClientLog.PhaseOf;
      receives := receives - 1;
      deaf := true;
      if failed {
        return;
      }
      deaf := false;
      receives := receives + 1;
      var data := Data(datagram, buffer);
      if |data| < 1 {
        return;
      }
      if data[0] > 0 {
        Pong();
      } else {
        PhaseAppend(log, Message(data[1..]), true);
        log := log + [Message(data[1..])];
      }
    }

    /** Time passes; the timeout runs if it comes due. */
    method AdvanceTo(t: real, reopened: bool)
      requires Valid() && now <= t
      modifies `now, `connected, `log, `timeoutWaits, `receives, `deaf
      ensures Valid() && now == t
      ensures connected == (old(connected) && t < timeoutDue)
      ensures log == old(log) + if old(connected) && timeoutDue <= t then [Disconnect] else []
      ensures receives == if old(connected) && timeoutDue <= t then (if reopened then 1 else 0) else old(receives)
    {
      if connected && timeoutDue <= t {
        now := timeoutDue;
        TimedOut(reopened);
      }
      now := t;
    }

    method SendExternal(msg: seq<byte>)
      modifies `sent
      ensures sent == old(sent) + [[EXTERNAL] + msg]
    {
      sent := sent + [[EXTERNAL] + msg];
    }

    function RemoteId(): ID { ID(self, self, printer) }

    /** `publish_ex`, unless the server is listed; `send`, if it is: a gateway's service with one peer. */
    method PublishExNow(ids: seq<ID>, msg: seq<byte>)
      modifies `sent
      ensures sent == old(sent) + if RemoteId() in ids then [] else [[EXTERNAL] + msg]
      ensures |sent| == |old(sent)| + |Routing.Recipients(Routing.Single(Some(RemoteId())), Routing.PublishEx(ids))|
    {
      Routing.OneUnlisted(RemoteId(), ids);
      if RemoteId() in ids {
        return;
      }
      SendExternal(msg);
    }

    method SendNow(ids: seq<ID>, msg: seq<byte>)
      modifies `sent
      ensures sent == old(sent) + if RemoteId() in ids then [[EXTERNAL] + msg] else []
      ensures |sent| == |old(sent)| + |Routing.Recipients(Routing.Single(Some(RemoteId())), Routing.Send(ids))|
    {
      if RemoteId() in ids {
        SendExternal(msg);
      }
    }

    /** One input of the environment, if it can happen. */
    method Handle(input: Input)
      requires Valid()
      modifies this
      ensures Valid() && Abs() == Step(old(Abs()), input, buffer)
      ensures replies == old(replies) + ReplyNow(old(Abs()), input, buffer)
    {
      hide Probes.Birth, Probes.Recent, Probes.LastPing, Probes.Ordered, ClientLog.PhaseOf;
      match input
      case Wait(ms, reopened) => if ms > 0.0 { AdvanceTo(now + ms, reopened); }
      case Receives(failed, datagram) => if receives == 1 { Received(failed, datagram); }
      case PingTimer => if pingDue <= now { PingFired(); }
      case Publish(msg) => SendExternal(msg);
    }
  }

  /** What the environment does: time passes, with whether a socket could be opened should the timeout ask for one; the
      receive completes; the ping wait completes; the user publishes. */
  datatype Input =
    | Wait(ms: real, reopened: bool)
    | Receives(failed: bool, datagram: seq<byte>)
    | PingTimer
    | Publish(msg: seq<byte>)
  {
    /** A receive that reports an error, or a socket that cannot be opened again. */
    predicate Fails() { (Receives? && failed) || (Wait? && !reopened) }
  }

  // ---- The client seen from outside ----

  /** When the timeout is due (none is armed while unconnected), and whether a receive is outstanding. */
  datatype State = State(now: real, due: Option<real>, live: bool, log: seq<Event>)

  const START := State(0.0, None, true, [])

  function Data(datagram: seq<byte>, buffer: nat): seq<byte> {
    if |datagram| <= buffer then datagram else datagram[..buffer]
  }

  function Step(s: State, input: Input, buffer: nat): State {
    match input
    case Wait(ms, reopened) =>
      if ms <= 0.0 then s
      else if s.due.Some? && s.due.value <= s.now + ms then State(s.now + ms, None, reopened, s.log + [Disconnect])
      else s.(now := s.now + ms)
    case Receives(failed, datagram) =>
      var data := Data(datagram, buffer);
      if !s.live then s
      else if failed then s.(live := false)
      else if data == [] then s
      else if data[0] == 0 then s.(log := s.log + [Message(data[1..])])
      else s.(due := Some(s.now + EXPIRY), log := s.log + if s.due.Some? then [] else [Ready, Connect])
    case PingTimer => s
    case Publish(_) => s
  }

  function Steps(s: State, inputs: seq<Input>, buffer: nat): State
    decreases |inputs|
  {
    if inputs == [] then s else Steps(Step(s, inputs[0], buffer), inputs[1..], buffer)
  }

  /** The reply that an input is, if it is one that the client hears. */
  function ReplyNow(s: State, input: Input, buffer: nat): seq<Ping> {
    if input.Receives? && !input.failed && s.live && Data(input.datagram, buffer) != [] && input.datagram[0] > 0
    then [Ping(SERVER, s.now)] else []
  }

  function Replies(s: State, inputs: seq<Input>, buffer: nat): seq<Ping>
    decreases |inputs|
  {
    if inputs == [] then [] else
    ReplyNow(s, inputs[0], buffer) + Replies(Step(s, inputs[0], buffer), inputs[1..], buffer)
  }

  /** One more datagram, byte by byte, for a client that listens. Nothing counts beyond the buffer. Any first byte but
      0 is a reply: the client is connected for the next 50 ms, and announces it unless it was. What follows a 0 is a
      message, connected or not. An empty datagram is nothing. */
  lemma WhatArrives(s: State, bytes: seq<byte>, buffer: nat)
    requires s.live && buffer > 0
    ensures var t, n := Step(s, Receives(false, bytes), buffer), |bytes|;
            && t.live && t.now == s.now
            && t.due == (if n > 0 && bytes[0] != 0 then Some(s.now + 50.0) else s.due)
            && t.log == s.log
                 + (if n == 0 then []
                    else if bytes[0] == 0 then [Message(if n <= buffer then bytes[1..] else bytes[1..buffer])]
                    else if s.due.Some? then [] else [Ready, Connect])
            && ReplyNow(s, Receives(false, bytes), buffer)
                 == if n > 0 && bytes[0] != 0 then [Ping(SERVER, s.now)] else []
  {
  }

  lemma {:induction false} StepsJoin(s: State, a: seq<Input>, b: seq<Input>, buffer: nat)
    ensures Steps(s, a + b, buffer) == Steps(Steps(s, a, buffer), b, buffer)
    ensures Replies(s, a + b, buffer) == Replies(s, a, buffer) + Replies(Steps(s, a, buffer), b, buffer)
    decreases |a|
  {
    hide Step, ReplyNow;
    if a == [] {
      AppendNothing(b);
      AppendNothing(Replies(s, b, buffer));
    } else {
      var t := Step(s, a[0], buffer);
      StepsJoin(t, a[1..], b, buffer);
      assert (a + b)[0] == a[0] && (a + b)[1..] == a[1..] + b;
      AppendAssociates(ReplyNow(s, a[0], buffer), Replies(t, a[1..], buffer),
                       Replies(Steps(t, a[1..], buffer), b, buffer));
    }
  }

  /** Any run of a client: which callbacks were made, whether it is connected and whether a receive is live are as the
      inputs say; it is connected iff a reply among them came in the last 50 ms; callbacks alternate; one receive is
      live through any number of socket recreations that succeed. */
  method RunAll(self: nat, printer: nat, buffer: nat, inputs: seq<Input>)
    returns (log: seq<Event>, connected: bool, receives: nat)
    ensures var s := Steps(START, inputs, buffer);
            log == s.log && connected == s.due.Some? && receives == if s.live then 1 else 0
    ensures connected <==> HeardSince(Replies(START, inputs, buffer), SERVER, Steps(START, inputs, buffer).now - EXPIRY)
    ensures PhaseOf(log, true) == if connected then In else Out
    ensures Count(log, Connect) == Count(log, Ready) == Count(log, Disconnect) + if connected then 1 else 0
    ensures (forall i :: 0 <= i < |inputs| ==> !inputs[i].Fails()) ==> receives == 1
  {
    hide Step, ReplyNow, ClientLog.PhaseOf;
    var c := new Client(self, printer, buffer);
    for i := 0 to |inputs|
      invariant c.Valid() && fresh(c) && c.buffer == buffer
      invariant c.Abs() == Steps(START, inputs[..i], buffer) && c.replies == Replies(START, inputs[..i], buffer)
    {
      assert inputs[..i + 1] == inputs[..i] + [inputs[i]];
      StepsJoin(START, inputs[..i], [inputs[i]], buffer);
      c.Handle(inputs[i]);
    }
    assert inputs[..|inputs|] == inputs;
    c.ConnectedIffRecent();
    Alternation(c.log, true);
    if forall i :: 0 <= i < |inputs| ==> !inputs[i].Fails() {
      StaysLive(START, inputs, buffer);
    }
    return c.log, c.connected, c.receives;
  }

  lemma {:induction false} StaysLive(s: State, inputs: seq<Input>, buffer: nat)
    requires s.live && forall i :: 0 <= i < |inputs| ==> !inputs[i].Fails()
    ensures Steps(s, inputs, buffer).live
    decreases |inputs|
  {
    if inputs != [] {
      StaysLive(Step(s, inputs[0], buffer), inputs[1..], buffer);
    }
  }

  // ---- A client without a receive ----

  /** A receive is outstanding now or at some later point of the run. */
  predicate Hears(s: State, inputs: seq<Input>, buffer: nat)
    decreases |inputs|
  {
    s.live || (inputs != [] && Hears(Step(s, inputs[0], buffer), inputs[1..], buffer))
  }

  /** The first wait that reaches `due` finds that a socket can be opened. */
  predicate Reopens(now: real, due: real, inputs: seq<Input>)
    decreases |inputs|
  {
    inputs != []
    && if inputs[0].Wait? && inputs[0].ms > 0.0 then
         if due <= now + inputs[0].ms then inputs[0].reopened else Reopens(now + inputs[0].ms, due, inputs[1..])
       else Reopens(now, due, inputs[1..])
  }

  /** From any state without a receive: there will be one again iff the client is still connected and a socket can be
      opened when its timeout comes due. Until then no handler is called but for that one disconnect. */
  lemma {:induction false} DeafForGood(s: State, inputs: seq<Input>, buffer: nat)
    requires !s.live && (s.due.Some? ==> s.now < s.due.value)
    ensures Hears(s, inputs, buffer) <==> s.due.Some? && Reopens(s.now, s.due.value, inputs)
    ensures var t := Steps(s, inputs, buffer);
            !Hears(s, inputs, buffer) ==>
              t.log == s.log + if s.due.Some? && s.due.value <= t.now then [Disconnect] else []
    decreases |inputs|
  {
    if inputs != [] {
      var t := Step(s, inputs[0], buffer);
      if !t.live {
        DeafForGood(t, inputs[1..], buffer);
        NowGrows(t, inputs[1..], buffer);
      }
    }
  }

  lemma {:induction false} NowGrows(s: State, inputs: seq<Input>, buffer: nat)
    ensures s.now <= Steps(s, inputs, buffer).now
    decreases |inputs|
  {
    if inputs != [] {
      NowGrows(Step(s, inputs[0], buffer), inputs[1..], buffer);
    }
  }

  lemma {:induction false} DueLater(s: State, inputs: seq<Input>, buffer: nat)
    requires s.due.Some? ==> s.now < s.due.value
    ensures var t := Steps(s, inputs, buffer); t.due.Some? ==> t.now < t.due.value
    decreases |inputs|
  {
    if inputs != [] {
      DueLater(Step(s, inputs[0], buffer), inputs[1..], buffer);
    }
  }

  /** A receive that fails, in whatever state a run has reached: the client hears again iff it was connected at that
      moment and a socket can be opened at the deadline it then had; otherwise it only disconnects, if it was
      connected. */
  lemma FailedReceive(earlier: seq<Input>, datagram: seq<byte>, later: seq<Input>, buffer: nat)
    requires Steps(START, earlier, buffer).live
    ensures var before := Steps(START, earlier, buffer);
            var after := Steps(START, earlier + [Receives(true, datagram)], buffer);
            var end := Steps(START, earlier + [Receives(true, datagram)] + later, buffer);
            && after == before.(live := false)
            && (Hears(after, later, buffer) <==> before.due.Some? && Reopens(before.now, before.due.value, later))
            && (!Hears(after, later, buffer) ==>
                  end.log == before.log + if before.due.Some? && before.due.value <= end.now then [Disconnect] else [])
  {
    var failure := [Receives(true, datagram)];
    StepsJoin(START, earlier, failure, buffer);
    StepsJoin(START, earlier + failure, later, buffer);
    DueLater(START, earlier, buffer);
    DeafForGood(Steps(START, earlier + failure, buffer), later, buffer);
  }
}
