/** The udp client and server together. The client's own ping timer, handled a little late, puts probes on a network;
    each reaches the server after a delay of its own, and so does each of the server's replies the client; they may
    overtake others, and none is lost. User datagrams of both, and datagrams of other endpoints, come in between. */
module UdpPair {
  import Bytes
  import opened Ids
  import opened Probes
  import opened UdpRun
  import PeerLog
  import ClientLog
  import UdpServer
  import UdpClient

  /** How late the ping timer may be handled, and how long probes and replies take. */
  datatype Timing = Timing(lateness: real, pingMin: real, pingMax: real, pongMin: real, pongMax: real)

  predicate Possible(t: Timing) {
    0.0 <= t.lateness && 0.0 <= t.pingMin <= t.pingMax && 0.0 <= t.pongMin <= t.pongMax
  }

  // ---- The network ----

  /** A probe on its way, its reply on its way, or both done. */
  datatype Trip =
    | Outbound(sent: real)
    | Inbound(sent: real, arrived: real)
    | Home(sent: real, arrived: real, returned: real)

  datatype Net = Net(now: real, trips: seq<Trip>)

  /** What happens at an instant: the ping timer is handled, probe `i` arrives, its reply returns; a user datagram
      is sent by either side or (any of those sent before, or none) arrives; another endpoint sends the server
      anything. */
  datatype Act =
    | Probe | Arrive(i: nat) | Return(i: nat)
    | ClientSays(msg: seq<byte>) | ServerHears(i: nat) | ServerSays(msg: seq<byte>) | ClientHears(i: nat)
    | Stranger(endpoint: nat, bytes: seq<byte>)
    | Nothing

  datatype Move = Move(at: real, act: Act)

  type byte = Bytes.byte

  const CLIENT: nat := 1

  predicate InTime(t: Timing, trip: Trip, at: real) {
    match trip
    case Outbound(sent) => at <= sent + t.pingMax
    case Inbound(_, arrived) => at <= arrived + t.pongMax
    case Home(_, _, _) => true
  }

  /** Time may pass to `at`: the ping timer is not overdue by more than its lateness, and nothing on its way is
      overdue. */
  predicate OnTime(t: Timing, net: Net, at: real) {
    && net.trips != [] && net.now <= at <= net.trips[|net.trips| - 1].sent + PROBE_INTERVAL + t.lateness
    && forall i :: 0 <= i < |net.trips| ==> InTime(t, net.trips[i], at)
  }

  predicate Allowed(t: Timing, net: Net, move: Move) {
    && OnTime(t, net, move.at)
    && match move.act
       case Probe => net.trips[|net.trips| - 1].sent + PROBE_INTERVAL <= move.at
       case Arrive(i) => i < |net.trips| && net.trips[i].Outbound? && net.trips[i].sent + t.pingMin <= move.at
       case Return(i) => i < |net.trips| && net.trips[i].Inbound? && net.trips[i].arrived + t.pongMin <= move.at
       case _ => true
  }

  /** Anything on its way for long enough may come next, whatever was sent before it: at any time to which nothing is
      overdue, each probe that has travelled for the least delay or longer, and each such reply, and each in turn. */
  lemma AnyOrder(t: Timing, net: Net, at: real, i: nat)
    requires net.trips != [] && net.now <= at <= net.trips[|net.trips| - 1].sent + 25.0 + t.lateness && i < |net.trips|
    requires forall k :: 0 <= k < |net.trips| ==>
               && (net.trips[k].Outbound? ==> at <= net.trips[k].sent + t.pingMax)
               && (net.trips[k].Inbound? ==> at <= net.trips[k].arrived + t.pongMax)
    ensures Allowed(t, net, Move(at, Arrive(i))) <==> net.trips[i].Outbound? && net.trips[i].sent + t.pingMin <= at
    ensures Allowed(t, net, Move(at, Return(i))) <==> net.trips[i].Inbound? && net.trips[i].arrived + t.pongMin <= at
    ensures Allowed(t, net, Move(at, Probe)) <==> net.trips[|net.trips| - 1].sent + 25.0 <= at
  {
    forall k | 0 <= k < |net.trips| ensures InTime(t, net.trips[k], at) {}
  }

  /** The network after a move; one that is not allowed does not happen. */
  function After(t: Timing, net: Net, move: Move): Net {
    if !Allowed(t, net, move) then net else
    Net(move.at, match move.act
                 case Probe => net.trips + [Outbound(move.at)]
                 case Arrive(i) => net.trips[i := Inbound(net.trips[i].sent, move.at)]
                 case Return(i) => net.trips[i := Home(net.trips[i].sent, net.trips[i].arrived, move.at)]
                 case _ => net.trips)
  }

  /** The client sends its first probe when it is made. */
  const FIRST := Net(0.0, [Outbound(0.0)])

  function AfterAll(t: Timing, moves: seq<Move>): Net {
    if moves == [] then FIRST else After(t, AfterAll(t, moves[..|moves| - 1]), moves[|moves| - 1])
  }

  /** User datagrams: those sent to the server and to the client, and what the two handed over to their users. */
  datatype Talk = Talk(letters: seq<seq<byte>>, mail: seq<seq<byte>>, toServer: seq<seq<byte>>,
      toClient: seq<seq<byte>>)

  const SILENCE := Talk([], [], [], [])

  /** A probe of the client has reached the server. */
  predicate Met(net: Net) { exists i :: 0 <= i < |net.trips| && !net.trips[i].Outbound? }

  /** What a buffer of this size holds of a message, next to the marker. */
  function Fitting(msg: seq<byte>, buffer: nat): seq<byte> {
    if |msg| < buffer || buffer == 0 then msg else msg[..buffer - 1]
  }

  /** The server hands over what the client said once it knows the client, and publishes to it only then. */
  function Talked(t: Timing, buffer: nat, net: Net, talk: Talk, move: Move): Talk {
    if !Allowed(t, net, move) then talk else
    match move.act
    case ClientSays(msg) => talk.(letters := talk.letters + [msg])
    case ServerHears(i) =>
      if i < |talk.letters| && Met(net)
      then talk.(toServer := talk.toServer + [Fitting(talk.letters[i], buffer)]) else talk
    case ServerSays(msg) => if Met(net) then talk.(mail := talk.mail + [msg]) else talk
    case ClientHears(i) =>
      if i < |talk.mail| then talk.(toClient := talk.toClient + [Fitting(talk.mail[i], buffer)]) else talk
    case _ => talk
  }

  function TalkAll(t: Timing, buffer: nat, moves: seq<Move>): Talk {
    if moves == [] then SILENCE else
    var init := moves[..|moves| - 1];
    Talked(t, buffer, AfterAll(t, init), TalkAll(t, buffer, init), moves[|moves| - 1])
  }

  /** What is said is heard, whole if it fits the buffer next to its marker and otherwise as much as fits: from the
      client to a server that knows it, and back. Any number of moves may come in between. */
  lemma SaidIsHeard(t: Timing, buffer: nat, before: seq<Move>, msg: seq<byte>, between: seq<Move>, at: real,
      later: real)
    requires buffer > 0
    ensures var said := before + [Move(at, ClientSays(msg))];
            var hears := Move(later, ServerHears(|TalkAll(t, buffer, before).letters|));
            Allowed(t, AfterAll(t, before), Move(at, ClientSays(msg)))
            && Allowed(t, AfterAll(t, said + between), hears) && Met(AfterAll(t, said + between)) ==>
              TalkAll(t, buffer, said + between + [hears]).toServer
                == TalkAll(t, buffer, said + between).toServer
                    + [if |msg| + 1 <= buffer then msg else msg[..buffer - 1]]
    ensures var said := before + [Move(at, ServerSays(msg))];
            var hears := Move(later, ClientHears(|TalkAll(t, buffer, before).mail|));
            Allowed(t, AfterAll(t, before), Move(at, ServerSays(msg))) && Met(AfterAll(t, before))
            && Allowed(t, AfterAll(t, said + between), hears) ==>
              TalkAll(t, buffer, said + between + [hears]).toClient
                == TalkAll(t, buffer, said + between).toClient
                    + [if |msg| + 1 <= buffer then msg else msg[..buffer - 1]]
  {
    hide Allowed, AfterAll, TalkAll, Met;
    var ask, tell := Move(at, ClientSays(msg)), Move(at, ServerSays(msg));
    TalkOn(t, buffer, before, ask);
    TalkOn(t, buffer, before, tell);
    LettersStay(t, buffer, before + [ask], between);
    LettersStay(t, buffer, before + [tell], between);
    TalkOn(t, buffer, before + [ask] + between, Move(later, ServerHears(|TalkAll(t, buffer, before).letters|)));
    TalkOn(t, buffer, before + [tell] + between, Move(later, ClientHears(|TalkAll(t, buffer, before).mail|)));
  }

  lemma TalkOn(t: Timing, buffer: nat, moves: seq<Move>, move: Move)
    ensures TalkAll(t, buffer, moves + [move])
         == Talked(t, buffer, AfterAll(t, moves), TalkAll(t, buffer, moves), move)
  {
    assert (moves + [move])[..|moves|] == moves;
  }

  lemma {:induction false} LettersStay(t: Timing, buffer: nat, moves: seq<Move>, more: seq<Move>)
    ensures TalkAll(t, buffer, moves).letters <= TalkAll(t, buffer, moves + more).letters
    ensures TalkAll(t, buffer, moves).mail <= TalkAll(t, buffer, moves + more).mail
  {
    hide Allowed, AfterAll, Met;
    if more == [] {
      assert moves + more == moves;
    } else {
      var init := more[..|more| - 1];
      LettersStay(t, buffer, moves, init);
      assert (moves + more)[..|moves + more| - 1] == moves + init;
    }
  }

  // ---- Why the timers hold ----

  /** What holds of every network: probes one after the other, delays within their limits, nothing overdue. */
  predicate Sound(t: Timing, net: Net) {
    && OnTime(t, net, net.now) && net.trips[0].sent == 0.0
    && (forall i :: 0 < i < |net.trips| ==> Late(net.trips[i - 1].sent, net.trips[i].sent, t.lateness))
    && forall i :: 0 <= i < |net.trips| ==> Paced(t, net.trips[i], net.now)
  }

  predicate Paced(t: Timing, trip: Trip, now: real) {
    && trip.sent <= now
    && (!trip.Outbound? ==> t.pingMin <= trip.arrived - trip.sent <= t.pingMax && trip.arrived <= now)
    && (trip.Home? ==> t.pongMin <= trip.returned - trip.arrived <= t.pongMax && trip.returned <= now)
  }

  /** When the probe reached the server, or will at the latest; likewise for its reply and the client. */
  function ArrivalOf(t: Timing, trip: Trip): real { if trip.Outbound? then trip.sent + t.pingMax else trip.arrived }

  function ReturnOf(t: Timing, trip: Trip): real {
    if trip.Home? then trip.returned else ArrivalOf(t, trip) + t.pongMax
  }

  function Sends(net: Net): (r: seq<real>)
    ensures |r| == |net.trips| && forall i :: 0 <= i < |r| ==> r[i] == net.trips[i].sent
  {
    seq(|net.trips|, i requires 0 <= i < |net.trips| => net.trips[i].sent)
  }

  function Arrivals(t: Timing, net: Net): (r: seq<real>)
    ensures |r| == |net.trips| && forall i :: 0 <= i < |r| ==> r[i] == ArrivalOf(t, net.trips[i])
  {
    seq(|net.trips|, i requires 0 <= i < |net.trips| => ArrivalOf(t, net.trips[i]))
  }

  function Returns(t: Timing, net: Net): (r: seq<real>)
    ensures |r| == |net.trips| && forall i :: 0 <= i < |r| ==> r[i] == ReturnOf(t, net.trips[i])
  {
    seq(|net.trips|, i requires 0 <= i < |net.trips| => ReturnOf(t, net.trips[i]))
  }

  /** `last` is not before any arrival, and there is one iff something has arrived. */
  predicate LastArrival(net: Net, last: Option<real>) {
    && (forall i :: 0 <= i < |net.trips| && !net.trips[i].Outbound? ==>
          last.Some? && net.trips[i].arrived <= last.value)
    && (last.Some? ==> exists i :: 0 <= i < |net.trips| && !net.trips[i].Outbound?)
  }

  predicate LastReturn(net: Net, last: Option<real>) {
    && (forall i :: 0 <= i < |net.trips| && net.trips[i].Home? ==> last.Some? && net.trips[i].returned <= last.value)
    && (last.Some? ==> exists i :: 0 <= i < |net.trips| && net.trips[i].Home?)
  }

  lemma NetIsEcho(t: Timing, net: Net)
    requires Possible(t) && Sound(t, net)
    ensures Echo(Sends(net), Arrivals(t, net), t.lateness, t.pingMin, t.pingMax)
    ensures Echo(Sends(net), Returns(t, net), t.lateness, t.pingMin + t.pongMin, t.pingMax + t.pongMax)
  {
    forall i | 0 < i < |net.trips| ensures Late(Sends(net)[i - 1], Sends(net)[i], t.lateness) {
      assert Late(net.trips[i - 1].sent, net.trips[i].sent, t.lateness);
    }
    forall i | 0 <= i < |net.trips| ensures Paced(t, net.trips[i], net.now) {}
  }

  /** At any time that may come, the server's timer for the client is not yet due. */
  lemma ServerSafe(t: Timing, net: Net, last: real, at: real)
    requires Possible(t) && Sound(t, net) && OnTime(t, net, at) && LastArrival(net, Some(last))
    requires t.lateness + (t.pingMax - t.pingMin) < PROBE_INTERVAL
    ensures at < last + EXPIRY
  {
    hide Echo;
    NetIsEcho(t, net);
    var heard := Arrivals(t, net);
    SteadyNeverExpires(Sends(net), heard, t.lateness, t.pingMin, t.pingMax, at);
    var i :| 0 <= i < |net.trips| && !net.trips[i].Outbound?;
    if heard[i] < at {
      var j :| 0 <= j < |heard| && heard[j] < at && heard[j] + EXPIRY > at;
      assert InTime(t, net.trips[j], at);
    }
  }

  /** Nor is the client's. */
  lemma ClientSafe(t: Timing, net: Net, last: real, at: real)
    requires Possible(t) && Sound(t, net) && OnTime(t, net, at) && LastReturn(net, Some(last))
    requires t.lateness + (t.pingMax + t.pongMax) - (t.pingMin + t.pongMin) < PROBE_INTERVAL
    ensures at < last + EXPIRY
  {
    hide Echo, ReturnOf;
    NetIsEcho(t, net);
    var heard := Returns(t, net);
    var lo, hi := t.pingMin + t.pongMin, t.pingMax + t.pongMax;
    SteadyNeverExpires(Sends(net), heard, t.lateness, lo, hi, at);
    var i :| 0 <= i < |net.trips| && net.trips[i].Home?;
    ReturnBefore(t, net.trips[i], at);
    if heard[i] < at {
      var j :| 0 <= j < |heard| && heard[j] < at && heard[j] + EXPIRY > at;
      assert InTime(t, net.trips[j], at);
      ReturnBefore(t, net.trips[j], at);
    }
  }

  lemma ReturnBefore(t: Timing, trip: Trip, at: real)
    requires Possible(t) && InTime(t, trip, at)
    ensures trip.Home? ==> ReturnOf(t, trip) == trip.returned
    ensures ReturnOf(t, trip) < at ==> trip.Home?
  {
  }

  lemma AfterSound(t: Timing, net: Net, move: Move)
    requires Possible(t) && Sound(t, net)
    ensures Sound(t, After(t, net, move))
  {
    var after := After(t, net, move);
    if Allowed(t, net, move) {
      forall i | 0 <= i < |after.trips|
        ensures Paced(t, after.trips[i], after.now) && InTime(t, after.trips[i], after.now)
      {
        if i < |net.trips| {
          assert Paced(t, net.trips[i], net.now) && InTime(t, net.trips[i], move.at);
        }
      }
      forall i | 0 < i < |after.trips| ensures Late(after.trips[i - 1].sent, after.trips[i].sent, t.lateness) {
        if i < |net.trips| {
          assert Late(net.trips[i - 1].sent, net.trips[i].sent, t.lateness);
        }
      }
    }
  }

  // ---- The two services on the network ----

  predicate IsLetter(m: seq<byte>) { m != [] && m[0] == 0 }

  ghost predicate Lists(table: seq<UdpServer.Connection>, endpoint: nat, address: nat) {
    exists e :: e in table && e.endpoint == endpoint && e.address == address
  }

  class World {
    const t: Timing
    const c: UdpClient.Client
    const s: UdpServer.Server

    var net: Net
    /** The datagram of each trip; user datagrams sent to the server and to the client; the addresses that the server
        announced for the client's probes. */
    var carried: seq<seq<byte>>
    var letters: seq<seq<byte>>
    var mail: seq<seq<byte>>
    var given: seq<nat>
    /** What was said and heard. */
    var talk: Talk

    ghost predicate Valid()
      reads this, c, s, s.connections
    {
      && c.Valid() && s.Valid() && Possible(t) && Sound(t, net)
      && c.now == net.now && s.now == net.now && c.receives == 1 && s.receives == 1 && c.buffer == s.buffer > 0
      && Clients() && Loads()
      && LastArrival(net, LastPing(s.history, CLIENT))
    }

    ghost predicate Clients()
      requires net.trips != []
      reads this, c
    {
      && c.pingDue == net.trips[|net.trips| - 1].sent + PROBE_INTERVAL
      && LastReturn(net, LastPing(c.replies, UdpClient.SERVER))
      && (c.connected <==> LastPing(c.replies, UdpClient.SERVER).Some?)
      && ClientLog.Disconnect !in c.log
    }

    ghost predicate Loads()
      reads this
    {
      && |carried| == |net.trips| && (forall i :: 0 <= i < |carried| ==> carried[i] == [UdpServer.INTERNAL])
      && (forall m :: m in letters ==> IsLetter(m)) && (forall m :: m in mail ==> IsLetter(m))
    }

    /** The datagrams are the messages with their marker; what was handed over are the messages in the logs. */
    ghost predicate Told()
      reads this, c, s
    {
      && |letters| == |talk.letters| && (forall i :: 0 <= i < |letters| ==> letters[i] == [0] + talk.letters[i])
      && |mail| == |talk.mail| && (forall i :: 0 <= i < |mail| ==> mail[i] == [0] + talk.mail[i])
      && ClientLog.Messages(c.log) == talk.toClient
      && talk.toServer == if given == [] then [] else PeerLog.MessagesOf(s.log, given[0])
    }

    /** From its first probe on the client is in the server's table, under the one address it was announced with. */
    ghost predicate Kept()
      reads `given, s, s.connections
    {
      if LastPing(s.history, CLIENT).None? then given == []
      else |given| == 1 && Lists(s.connections, CLIENT, given[0])
    }

    constructor (t: Timing, buffer: nat)
      requires Possible(t) && buffer > 0
      ensures Valid() && Kept() && Told() && net == FIRST && talk == SILENCE && this.t == t && s.buffer == buffer
      ensures fresh(c) && fresh(s) && s.connections == [] && !c.connected && c.log == []
    {
      this.t := t;
      c := new UdpClient.Client(0, 0, buffer);
      s := new UdpServer.Server(0, 0, buffer);
      net := FIRST;
      letters, mail, given, talk := [], [], [], SILENCE;
      carried := [];
      new;
      carried := [c.sent[0]];
    }

    /** Time passes, and no timeout of the client comes due. */
    method Pass(at: real)
      requires Valid() && OnTime(t, net, at) && (c.connected ==> at < c.timeoutDue)
      modifies `net, c, s, s.connections
      ensures Valid() && net == old(net).(now := at)
      ensures forall j :: 0 <= j < |s.connections| ==> s.connections[j] in old(s.connections)
      ensures c.log == old(c.log) && c.replies == old(c.replies) && c.connected == old(c.connected)
      ensures c.timeoutDue == old(c.timeoutDue) && s.history == old(s.history)
      ensures old(Kept() && ServerHolds(at)) ==> Kept()
      ensures old(Told()) ==> Told()
    {
      hide PeerLog.StatusOf, ClientLog.PhaseOf, Probes.LastPing, Probes.Birth, Probes.Recent, Probes.Ordered, Sound,
        UdpServer.HasAddress, UdpServer.HasEndpoint, UdpServer.Keyed, LastArrival, LastReturn, Lists,
        PeerLog.MessagesOf, PeerLog.Greetings, ClientLog.Messages;
      PassSound(t, net, at);
      c.AdvanceTo(at, true);
      ServerWaits(s, at);
      net := net.(now := at);
    }

    /** The client's timeout comes due. */
    method Expire(at: real)
      requires Valid() && OnTime(t, net, at) && c.connected && at == c.timeoutDue
      modifies c
      ensures c.log == old(c.log) + [ClientLog.Disconnect]
    {
      c.AdvanceTo(at, true);
    }

    /** The client's ping timer is handled; the probe goes on its way. */
    method Probe()
      requires Valid() && net.trips[|net.trips| - 1].sent + PROBE_INTERVAL <= net.now
      modifies `net, `carried, c
      ensures Valid() && net == old(net).(trips := old(net).trips + [Outbound(net.now)])
      ensures c.log == old(c.log) && c.replies == old(c.replies) && c.connected == old(c.connected)
      ensures c.timeoutDue == old(c.timeoutDue) && (old(Kept()) ==> Kept()) && (old(Told()) ==> Told())
    {
      hide PeerLog.StatusOf, ClientLog.PhaseOf, Probes.LastPing, Probes.Birth, Probes.Recent, Probes.Ordered, Sound,
        UdpServer.HasAddress, UdpServer.HasEndpoint, UdpServer.Keyed, LastArrival, LastReturn;
      Probed(t, net);
      c.PingFired();
      carried := carried + [c.sent[|c.sent| - 1]];
      net := net.(trips := net.trips + [Outbound(net.now)]);
    }

    /** What the client sent reaches the server, and what the server sends then is the reply. */
    method Arrive(i: nat)
      requires Valid() && i < |net.trips| && net.trips[i].Outbound? && net.trips[i].sent + t.pingMin <= net.now
      modifies `net, `carried, `given, s, s.connections
      ensures Valid() && net == old(net).(trips := old(net).trips[i := Inbound(old(net).trips[i].sent, net.now)])
      ensures forall j :: 0 <= j < |s.connections| ==> s.connections[j] in old(s.connections) || fresh(s.connections[j])
      ensures (old(Kept()) ==> Kept()) && (old(Kept() && Told()) ==> Told())
    {
      hide PeerLog.StatusOf, ClientLog.PhaseOf, Probes.LastPing, Probes.Birth, Probes.Recent, Probes.Ordered, Sound,
        UdpServer.HasAddress, UdpServer.Keyed, UdpServer.HasEndpoint, LastArrival, LastReturn, Lists,
        PeerLog.MessagesOf, PeerLog.Greetings, ClientLog.Messages;
      Arrived(t, net, i);
      var next := s.next;
      ServerMeets(s, carried[i]);
      if s.next != next {
        given := given + [next];
      }
      carried := carried[i := s.sent[|s.sent| - 1].bytes];
      net := net.(trips := net.trips[i := Inbound(net.trips[i].sent, net.now)]);
    }

    /** The reply reaches the client. */
    method Return(i: nat)
      requires Valid() && i < |net.trips| && net.trips[i].Inbound? && net.trips[i].arrived + t.pongMin <= net.now
      modifies `net, c
      ensures Valid()
      ensures var trip := old(net).trips[i];
              net == old(net).(trips := old(net).trips[i := Home(trip.sent, trip.arrived, net.now)])
      ensures c.connected && c.timeoutDue == net.now + EXPIRY && (old(Kept()) ==> Kept()) && (old(Told()) ==> Told())
      ensures c.log == old(c.log) + if old(c.connected) then [] else [ClientLog.Ready, ClientLog.Connect]
    {
      hide ClientLog.Messages, PeerLog.MessagesOf, PeerLog.StatusOf, ClientLog.PhaseOf, Probes.LastPing, Probes.Birth,
        Probes.Recent, Probes.Ordered, Sound,
        UdpServer.HasAddress, UdpServer.HasEndpoint, UdpServer.Keyed, LastArrival, LastReturn;
      Returned(t, net, i);
      HistoryAppend(c.replies, Ping(UdpClient.SERVER, net.now));
      ghost var log := c.log;
      c.Received(false, carried[i]);
      WelcomeSaysNothing(log);
      net := net.(trips := net.trips[i := Home(net.trips[i].sent, net.trips[i].arrived, net.now)]);
    }

    method ClientSays(msg: seq<byte>)
      requires Valid()
      modifies `letters, `talk, c
      ensures Valid() && (old(Kept()) ==> Kept()) && (old(Told()) ==> Told())
      ensures letters == old(letters) + [[0] + msg] && talk == old(talk).(letters := old(talk).letters + [msg])
    {
      hide PeerLog.StatusOf, ClientLog.PhaseOf, Probes.LastPing, Probes.Birth, Probes.Recent, Probes.Ordered, Sound,
        UdpServer.HasAddress, UdpServer.HasEndpoint, UdpServer.Keyed, LastArrival, LastReturn, PeerLog.MessagesOf;
      c.SendExternal(msg);
      letters := letters + [c.sent[|c.sent| - 1]];
      talk := talk.(letters := talk.letters + [msg]);
    }

    /** Anything from another endpoint, or a letter of the client, reaches the server. A letter from a client that it
        knows is handed over, without its marker and cut at the buffer. */
    method ServerHears(endpoint: nat, bytes: seq<byte>)
      requires Valid() && (endpoint == CLIENT ==> IsLetter(bytes))
      modifies s, s.connections
      ensures Valid() && (old(Kept()) ==> Kept())
      ensures forall j :: 0 <= j < |s.connections| ==> s.connections[j] in old(s.connections) || fresh(s.connections[j])
      ensures old(Kept()) && endpoint == CLIENT ==>
                s.log == old(s.log) + if given == [] then []
                                      else [PeerLog.Message(given[0], if |bytes| <= s.buffer then bytes[1..]
                                                                      else bytes[1..s.buffer])]
      ensures old(Kept()) && endpoint != CLIENT && given != [] ==>
                PeerLog.MessagesOf(s.log, given[0]) == PeerLog.MessagesOf(old(s.log), given[0])
    {
      hide PeerLog.StatusOf, ClientLog.PhaseOf, Probes.LastPing, Probes.Birth, Probes.Recent, Probes.Ordered, Sound,
        UdpServer.HasAddress, UdpServer.HasEndpoint, UdpServer.Keyed, LastArrival, LastReturn,
        UdpServer.Logged, PeerLog.MessagesOf, PeerLog.Greetings;
      ghost var table, history, next, log := s.connections, s.history, s.next, s.log;
      HistoryAppend(history, Ping(endpoint, net.now));
      ghost var kept := Kept();
      if kept { KeptLists(); }
      s.Received(false, endpoint, bytes);
      assert history + [] == history;
      assert forall e :: e in table ==> e in s.connections;
      ghost var data := if |bytes| <= s.buffer then bytes else bytes[..s.buffer];
      if kept && endpoint == CLIENT {
        LetterLogged(table, data, next, given, log, s.log);
      } else if kept && given != [] {
        StrangerLogged(endpoint, table, data, next, given[0], log, s.log);
      }
    }

    /** Who is listed, if the client was kept. */
    lemma KeptLists()
      requires Valid() && Kept()
      ensures UdpServer.HasEndpoint(s.connections, CLIENT) <==> given != []
      ensures given != [] ==> Lists(s.connections, CLIENT, given[0]) && given[0] < s.next
      ensures given != [] <==> Met(net)
    {
      s.HasIffRecent();
      forall e | e in s.connections ensures s.Entry(e) {}
    }

    /** The server publishes; what it sends to the client goes into the mail. */
    method ServerSays(msg: seq<byte>)
      requires Valid() && Kept()
      modifies `mail, `talk, s`sent
      ensures Valid() && Kept() && (old(Told()) ==> Told())
      ensures mail == old(mail) + if given == [] then [] else [[0] + msg]
      ensures talk == if given == [] then old(talk) else old(talk).(mail := old(talk).mail + [msg])
    {
      hide PeerLog.StatusOf, ClientLog.PhaseOf, Probes.LastPing, Probes.Birth, Probes.Recent, Probes.Ordered, Sound,
        UdpServer.HasAddress, UdpServer.HasEndpoint, UdpServer.Keyed, LastArrival, LastReturn, PeerLog.MessagesOf;
      KeptLists();
      var before := |s.sent|;
      s.PublishNow(msg);
      Post(before, [0] + msg);
      if given != [] {
        talk := talk.(mail := talk.mail + [msg]);
      }
    }

    /** The datagram to the client among those just published. */
    method Post(before: nat, ghost bytes: seq<byte>)
      requires UdpServer.Keyed(s.connections) && IsLetter(bytes) && Loads()
      requires before <= |s.sent| && s.sent[before..] == UdpServer.ToEach(s.connections, bytes)
      modifies `mail
      ensures Loads()
      ensures mail == old(mail) + if UdpServer.HasEndpoint(s.connections, CLIENT) then [bytes] else []
    {
      ghost var cs := s.connections;
      for i := before to |s.sent|
        invariant Loads()
        invariant mail == old(mail) + if UdpServer.HasEndpoint(cs[..i - before], CLIENT) then [bytes] else []
      {
        ghost var k := i - before;
        assert s.sent[before..][k] == s.sent[i] && cs[..k + 1] == cs[..k] + [cs[k]];
        OneEndpoint(cs, k);
        if s.sent[i].to == CLIENT {
          mail := mail + [s.sent[i].bytes];
        }
      }
      assert cs[..|cs|] == cs;
    }

    /** A letter of the server reaches the client, which hands it over whether connected or not. */
    method ClientHears(bytes: seq<byte>)
      requires Valid() && IsLetter(bytes)
      modifies c
      ensures Valid() && (old(Kept()) ==> Kept())
      ensures c.log == old(c.log) + [ClientLog.Message(if |bytes| <= c.buffer then bytes[1..] else bytes[1..c.buffer])]
    {
      hide PeerLog.StatusOf, ClientLog.PhaseOf, Probes.LastPing, Probes.Birth, Probes.Recent, Probes.Ordered, Sound,
        UdpServer.HasAddress, UdpServer.HasEndpoint, UdpServer.Keyed, LastArrival, LastReturn;
      ghost var replies := c.replies;
      c.Received(false, bytes);
      assert replies + [] == replies;
    }

    /** A letter arrives, any of those sent so far: exactly what was said is handed over, if it fits. */
    method HearLetter(i: nat)
      requires Valid() && Kept() && Told() && i < |letters|
      modifies `talk, s, s.connections
      ensures Valid() && Kept() && Told()
      ensures forall j :: 0 <= j < |s.connections| ==> s.connections[j] in old(s.connections) || fresh(s.connections[j])
      ensures given != [] ==>
                var msg := talk.letters[i];
                var heard := if |msg| + 1 <= s.buffer then msg else msg[..s.buffer - 1];
                s.log == old(s.log) + [PeerLog.Message(given[0], heard)]
      ensures talk == if given == [] then old(talk)
                      else old(talk).(toServer := old(talk).toServer + [Fitting(old(talk).letters[i], s.buffer)])
    {
      hide Sound, Kept, UdpServer.Server.Valid, UdpClient.Client.Valid, PeerLog.MessagesOf, ClientLog.Messages;
      ghost var log := s.log;
      Marked(talk.letters[i], s.buffer);
      ServerHears(CLIENT, letters[i]);
      if given != [] {
        PeerLog.MessagesAppend(log, [PeerLog.Message(given[0], Fitting(talk.letters[i], s.buffer))], given[0]);
        talk := talk.(toServer := talk.toServer + [Fitting(talk.letters[i], s.buffer)]);
      }
    }

    method HearMail(i: nat)
      requires Valid() && Kept() && Told() && i < |mail|
      modifies `talk, c
      ensures Valid() && Kept() && Told()
      ensures var msg := talk.mail[i];
              c.log == old(c.log) + [ClientLog.Message(if |msg| + 1 <= c.buffer then msg else msg[..c.buffer - 1])]
      ensures talk == old(talk).(toClient := old(talk).toClient + [Fitting(old(talk).mail[i], c.buffer)])
    {
      hide Sound, Kept, UdpServer.Server.Valid, UdpClient.Client.Valid, PeerLog.MessagesOf, ClientLog.Messages;
      ghost var log := c.log;
      Marked(talk.mail[i], c.buffer);
      ClientHears(mail[i]);
      ClientLog.MessagesAppend(log, ClientLog.Message(Fitting(talk.mail[i], c.buffer)));
      talk := talk.(toClient := talk.toClient + [Fitting(talk.mail[i], c.buffer)]);
    }

    method StrangerSays(endpoint: nat, bytes: seq<byte>)
      requires Valid() && Kept() && Told() && endpoint != CLIENT
      modifies s, s.connections
      ensures Valid() && Kept() && Told()
      ensures forall j :: 0 <= j < |s.connections| ==> s.connections[j] in old(s.connections) || fresh(s.connections[j])
    {
      hide Sound, Kept, UdpServer.Server.Valid, UdpClient.Client.Valid, PeerLog.MessagesOf, ClientLog.Messages;
      ServerHears(endpoint, bytes);
    }

    /** What the client shows, and when its timeout is due. */
    ghost function View(): (seq<ClientLog.Event>, bool, real)
      reads this, c
    {
      (c.log, c.connected, c.timeoutDue)
    }

    /** The server's timer for the client is not due at `at`. */
    ghost predicate ServerHolds(at: real)
      reads this, s
    {
      LastPing(s.history, CLIENT).Some? ==> at < LastPing(s.history, CLIENT).value + EXPIRY
    }

    /** An allowed step of the protocol, at a time at which the client's timeout is not due. */
    method Perform(move: Move)
      requires Valid() && Allowed(t, net, move) && (c.connected ==> move.at < c.timeoutDue)
      requires move.act.Probe? || move.act.Arrive? || move.act.Return?
      modifies this, c, s, s.connections
      ensures Valid() && net == After(t, old(net), move) && talk == old(talk)
      ensures old(Kept() && ServerHolds(move.at)) ==> Kept()
      ensures old(Kept() && ServerHolds(move.at) && Told()) ==> Told()
      ensures !move.act.Return? ==> View() == old(View())
      ensures move.act.Return? ==>
                c.connected && c.timeoutDue == move.at + EXPIRY
                && c.log == old(c.log) + if old(c.connected) then [] else [ClientLog.Ready, ClientLog.Connect]
      ensures forall j :: 0 <= j < |s.connections| ==> s.connections[j] in old(s.connections) || fresh(s.connections[j])
    {
      hide PeerLog.StatusOf, ClientLog.PhaseOf, Probes.LastPing, Probes.Birth, Probes.Recent, Probes.Ordered, Sound,
        OnTime, UdpServer.HasAddress, UdpServer.HasEndpoint, UdpServer.Keyed, LastArrival, LastReturn, Kept, Loads,
            Told;
      Pass(move.at);
      match move.act
      case Probe => Probe();
      case Arrive(i) => Arrive(i);
      case Return(i) => Return(i);
    }

    /** Anything else that may happen. */
    method Converse(move: Move)
      requires Valid() && Kept() && Told() && Allowed(t, net, move)
      requires (c.connected ==> move.at < c.timeoutDue) && ServerHolds(move.at)
      requires !move.act.Probe? && !move.act.Arrive? && !move.act.Return?
      modifies this, c, s, s.connections
      ensures Valid() && Kept() && Told()
      ensures net == After(t, old(net), move) && talk == Talked(t, s.buffer, old(net), old(talk), move)
      ensures forall j :: 0 <= j < |s.connections| ==> s.connections[j] in old(s.connections) || fresh(s.connections[j])
    {
      hide PeerLog.StatusOf, ClientLog.PhaseOf, Probes.LastPing, Probes.Birth, Probes.Recent, Probes.Ordered, Sound,
        OnTime, UdpServer.HasAddress, UdpServer.HasEndpoint, UdpServer.Keyed, LastArrival, LastReturn, Kept, Loads,
            Told;
      Same(move);
      KeptLists();
      Pass(move.at);
      match move.act
      case ClientSays(msg) => ClientSays(msg);
      case ServerHears(i) => if i < |letters| { HearLetter(i); }
      case ServerSays(msg) => ServerSays(msg);
      case ClientHears(i) => if i < |mail| { HearMail(i); }
      case Stranger(endpoint, bytes) => if endpoint != CLIENT { StrangerSays(endpoint, bytes); }
      case Nothing =>
    }

    lemma Same(move: Move)
      requires Told()
      ensures |letters| == |talk.letters| && |mail| == |talk.mail|
    {
    }

    /** A move, if it is allowed. Below the bound no timer comes due, whatever the move. */
    method Do(move: Move)
      requires Valid() && Kept() && Told()
      requires t.lateness + (t.pingMax + t.pongMax) - (t.pingMin + t.pongMin) < PROBE_INTERVAL
      modifies this, c, s, s.connections
      ensures Valid() && Kept() && Told()
      ensures net == After(t, old(net), move) && talk == Talked(t, s.buffer, old(net), old(talk), move)
      ensures forall j :: 0 <= j < |s.connections| ==> s.connections[j] in old(s.connections) || fresh(s.connections[j])
    {
      hide PeerLog.StatusOf, ClientLog.PhaseOf, Probes.LastPing, Probes.Birth, Probes.Recent, Probes.Ordered, Sound,
        OnTime, UdpServer.HasAddress, UdpServer.HasEndpoint, UdpServer.Keyed, LastArrival, LastReturn, Kept, Loads,
            Told;
      if Allowed(t, net, move) {
        Safe(move.at);
        if move.act.Probe? || move.act.Arrive? || move.act.Return? {
          Perform(move);
        } else {
          Converse(move);
        }
      }
    }

    lemma Safe(at: real)
      requires Valid() && OnTime(t, net, at)
      requires t.lateness + (t.pingMax + t.pongMax) - (t.pingMin + t.pongMin) < PROBE_INTERVAL
      ensures c.connected ==> at < c.timeoutDue
      ensures ServerHolds(at)
    {
      if c.connected { ClientSafe(t, net, LastPing(c.replies, UdpClient.SERVER).value, at); }
      if LastPing(s.history, CLIENT).Some? { ServerSafe(t, net, LastPing(s.history, CLIENT).value, at); }
    }
  }

  /** Both services, on every run of any length, with any reordering, any traffic in between and anyone else on the
      server: if lateness and delay variation stay below one probe interval, then the server connects the client once,
      when its first probe arrives, and never disconnects it, and the client connects once, when the first reply
      returns, and never disconnects. */
  method TwoParties(t: Timing, buffer: nat, moves: seq<Move>)
    returns (serverLog: seq<PeerLog.Event>, given: seq<nat>, clientLog: seq<ClientLog.Event>)
    requires Possible(t) && buffer > 0
    requires t.lateness + (t.pingMax + t.pongMax) - (t.pingMin + t.pongMin) < PROBE_INTERVAL
    ensures var talk := TalkAll(t, buffer, moves);
            && ClientLog.Messages(clientLog) == talk.toClient
            && talk.toServer == if given == [] then [] else PeerLog.MessagesOf(serverLog, given[0])
    ensures var trips := AfterAll(t, moves).trips;
            && (if exists i :: 0 <= i < |trips| && !trips[i].Outbound?
                then |given| == 1 && PeerLog.StatusOf(serverLog, given[0]) == PeerLog.Live else given == [])
            && ClientLog.Count(clientLog, ClientLog.Disconnect) == 0
            && ClientLog.Count(clientLog, ClientLog.Ready) == ClientLog.Count(clientLog, ClientLog.Connect)
                 == if exists i :: 0 <= i < |trips| && trips[i].Home? then 1 else 0
  {
    hide PeerLog.StatusOf, ClientLog.PhaseOf, ClientLog.Count, Probes.LastPing, Probes.Birth, Probes.Recent,
      Probes.Ordered, Sound, UdpServer.Keyed, UdpServer.HasEndpoint, After, Talked;
    var w := new World(t, buffer);
    for i := 0 to |moves|
      invariant w.Valid() && w.Kept() && w.Told() && w.t == t && w.s.buffer == buffer
      invariant w.net == AfterAll(t, moves[..i]) && w.talk == TalkAll(t, buffer, moves[..i])
      invariant fresh(w) && fresh(w.c) && fresh(w.s)
      invariant forall j :: 0 <= j < |w.s.connections| ==> fresh(w.s.connections[j])
    {
      assert moves[..i + 1][..i] == moves[..i] && moves[..i + 1][i] == moves[i];
      w.Do(moves[i]);
    }
    assert moves[..|moves|] == moves;
    ClientLog.Alternation(w.c.log, true);
    NoneCounted(w.c.log, ClientLog.Disconnect);
    return w.s.log, w.given, w.c.log;
  }

  // ---- At or above the bound ----

  /** Every move of the run is allowed, none is skipped. */
  predicate AllAllowed(t: Timing, moves: seq<Move>) {
    moves == [] || (AllAllowed(t, moves[..|moves| - 1])
                    && Allowed(t, AfterAll(t, moves[..|moves| - 1]), moves[|moves| - 1]))
  }

  ghost predicate Ran(w: World, moves: seq<Move>)
    reads w
  {
    AllAllowed(w.t, moves) && w.net == AfterAll(w.t, moves)
  }

  lemma RanOn(t: Timing, moves: seq<Move>, move: Move)
    requires AllAllowed(t, moves) && Allowed(t, AfterAll(t, moves), move)
    ensures AllAllowed(t, moves + [move]) && AfterAll(t, moves + [move]) == After(t, AfterAll(t, moves), move)
  {
    assert (moves + [move])[..|moves|] == moves;
  }

  /** All probes but the first were sent as late as may be, and the first `a` of them arrived as late as may be; the
      replies to them are still on their way. */
  predicate Slow(t: Timing, trips: seq<Trip>, a: nat) {
    && 0 < a <= |trips|
    && (forall i :: 0 <= i < |trips| ==> trips[i].sent == LateSend(i, t.lateness))
    && (forall i :: 0 < i < a ==> trips[i].Inbound? && trips[i].arrived == trips[i].sent + t.pingMax)
    && (forall i :: a <= i < |trips| ==> trips[i].Outbound?)
  }

  lemma SlowOnTime(t: Timing, net: Net, a: nat, at: real)
    requires Possible(t) && Sound(t, net) && Slow(t, net.trips, a) && net.now <= at && InTime(t, net.trips[0], at)
    requires at <= LateSend(|net.trips|, t.lateness) && (a < |net.trips| ==> at <= net.trips[a].sent + t.pingMax)
    requires at <= PROBE_INTERVAL + t.lateness + t.pingMax + t.pongMax
    ensures OnTime(t, net, at)
  {
    forall i | 0 <= i < |net.trips| ensures InTime(t, net.trips[i], at) {
      LateSendAt(|net.trips|, t.lateness, i);
      if a <= i {
        LateSendGrows(t.lateness, a, i);
      }
    }
  }

  lemma {:induction false} LateSendGrows(lateness: real, i: nat, j: nat)
    requires 0.0 <= lateness && i <= j
    ensures LateSend(i, lateness) <= LateSend(j, lateness)
  {
    if i < j {
      LateSendGrows(lateness, i, j - 1);
    }
  }

  /** The next thing that must happen in a slow run. */
  function NextSlow(t: Timing, net: Net, a: nat): Move
    requires 0 < |net.trips|
  {
    var probe := net.trips[|net.trips| - 1].sent + PROBE_INTERVAL + t.lateness;
    if a < |net.trips| && net.trips[a].sent + t.pingMax <= probe then Move(net.trips[a].sent + t.pingMax, Arrive(a))
    else Move(probe, Probe)
  }

  lemma SlowMoves(t: Timing, net: Net, a: nat, until: real)
    requires Possible(t) && Sound(t, net) && Slow(t, net.trips, a) && net.now <= until && InTime(t, net.trips[0], until)
    requires until <= PROBE_INTERVAL + t.lateness + t.pingMax + t.pongMax
    ensures var move := NextSlow(t, net, a);
            if move.at >= until then OnTime(t, net, until)
            else Allowed(t, net, move) && StaysSlow(t, net, After(t, net, move), a)
    ensures |net.trips| <= until.Floor + 1
  {
    hide LateSend, Sound;
    var n, move := |net.trips|, NextSlow(t, net, a);
    SlowNext(t, net, a);
    SlowOnTime(t, net, a, if move.at < until then move.at else until);
  }

  predicate StaysSlow(t: Timing, net: Net, after: Net, a: nat) {
    && 0 < |net.trips| <= |after.trips| && after.trips[0] == net.trips[0]
    && if |after.trips| == |net.trips| then Slow(t, after.trips, a + 1)
       else |after.trips| == |net.trips| + 1 && Slow(t, after.trips, a)
  }

  method Linger(w: World, before: seq<Move>, first: nat, until: real) returns (moves: seq<Move>, a: nat, done: bool)
    requires w.Valid() && Ran(w, before) && Slow(w.t, w.net.trips, first) && w.net.now <= until
    requires InTime(w.t, w.net.trips[0], until) && (w.c.connected ==> until <= w.c.timeoutDue)
    requires until <= PROBE_INTERVAL + w.t.lateness + w.t.pingMax + w.t.pongMax
    modifies w, w.c, w.s, w.s.connections
    ensures w.Valid() && Ran(w, moves) && Slow(w.t, w.net.trips, a) && w.net.now <= until
    ensures w.net.trips[0] == old(w.net.trips[0]) && w.View() == old(w.View())
    ensures if done then OnTime(w.t, w.net, until)
            else 0 < old(|w.net.trips|) <= until.Floor + 1
                 && ((|w.net.trips| == old(|w.net.trips|) && a == first + 1)
                     || (|w.net.trips| == old(|w.net.trips|) + 1 && a == first))
    ensures forall j :: 0 <= j < |w.s.connections| ==>
              w.s.connections[j] in old(w.s.connections) || fresh(w.s.connections[j])
  {
    hide UdpClient.Client.Valid, UdpServer.Server.Valid, LastArrival, LastReturn, Sound, OnTime, World.Clients,
      World.Loads;
    SlowMoves(w.t, w.net, first, until);
    var n := |w.net.trips|;
    var move := NextSlow(w.t, w.net, first);
    if move.at >= until {
      return before, first, true;
    }
    moves := Then(w, before, move);
    a, done := if |w.net.trips| == n then first + 1 else first, false;
  }

  /** Until the given time every probe is sent, and arrives, as late as may be, and no reply returns. */
  method Dawdle(w: World, before: seq<Move>, first: nat, until: real) returns (moves: seq<Move>, a: nat)
    requires w.Valid() && Ran(w, before) && Slow(w.t, w.net.trips, first) && w.net.now <= until
    requires InTime(w.t, w.net.trips[0], until) && (w.c.connected ==> until <= w.c.timeoutDue)
    requires until <= PROBE_INTERVAL + w.t.lateness + w.t.pingMax + w.t.pongMax
    modifies w, w.c, w.s, w.s.connections
    ensures w.Valid() && Ran(w, moves) && Slow(w.t, w.net.trips, a) && OnTime(w.t, w.net, until)
    ensures w.net.trips[0] == old(w.net.trips[0]) && w.View() == old(w.View())
    ensures forall j :: 0 <= j < |w.s.connections| ==>
              w.s.connections[j] in old(w.s.connections) || fresh(w.s.connections[j])
  {
    hide UdpClient.Client.Valid, UdpServer.Server.Valid, LastArrival, LastReturn, Sound, OnTime, Ran, World.Valid;
    moves, a := before, first;
    var done := false;
    while !done
      invariant w.Valid() && Ran(w, moves) && Slow(w.t, w.net.trips, a) && w.net.now <= until
      invariant w.net.trips[0] == old(w.net.trips[0]) && w.View() == old(w.View())
      invariant done ==> OnTime(w.t, w.net, until)
      invariant forall j :: 0 <= j < |w.s.connections| ==>
                  w.s.connections[j] in old(w.s.connections) || fresh(w.s.connections[j])
      decreases !done, until.Floor + 2 - |w.net.trips|, |w.net.trips| - a
    {
      moves, a, done := Linger(w, moves, a, until);
    }
  }

  lemma SlowNext(t: Timing, net: Net, a: nat)
    requires Possible(t) && Sound(t, net) && Slow(t, net.trips, a)
    ensures net.trips[|net.trips| - 1].sent + PROBE_INTERVAL + t.lateness == LateSend(|net.trips|, t.lateness)
    ensures net.now <= LateSend(|net.trips|, t.lateness) && |net.trips| <= net.now.Floor + 1
    ensures a < |net.trips| ==> net.trips[a].Outbound? && net.now <= net.trips[a].sent + t.pingMax
  {
    var n := |net.trips|;
    LateSendAt(n, t.lateness, n - 1);
    assert Paced(t, net.trips[n - 1], net.now);
    if a < n { assert InTime(t, net.trips[a], net.now); }
  }

  /** The bound is exact: from it on there is a run, every move of it allowed, in which the client disconnects. The
      first probe and its reply are as quick as may be, everything after them as late as may be, so that 50 ms after
      the first reply there is no other. */
  method Unsteady(t: Timing, buffer: nat) returns (moves: seq<Move>, at: real, clientLog: seq<ClientLog.Event>)
    requires Possible(t) && buffer > 0
    requires t.lateness + (t.pingMax + t.pongMax) - (t.pingMin + t.pongMin) >= PROBE_INTERVAL
    ensures AllAllowed(t, moves) && OnTime(t, AfterAll(t, moves), at)
    ensures var trips := AfterAll(t, moves).trips;
            && trips != [] && trips[0].Home? && trips[0].returned + EXPIRY == at
            && forall i :: 0 < i < |trips| ==> !trips[i].Home?
    ensures clientLog == [ClientLog.Ready, ClientLog.Connect, ClientLog.Disconnect]
  {
    hide UdpServer.Server.Valid, LastArrival, LastReturn, Sound, OnTime, World.Valid, World.Kept;
    var w := new World(t, buffer);
    var a;
    moves, a := Meet(w);
    at := t.pingMin + t.pongMin + EXPIRY;
    moves, a := Dawdle(w, moves, a, at);
    w.Expire(at);
    return moves, at, w.c.log;
  }

  /** The first probe and its reply travel as quickly as may be, all else is as slow as may be. */
  method Meet(w: World) returns (moves: seq<Move>, a: nat)
    requires w.Valid() && w.net == FIRST && !w.c.connected
    requires w.t.pingMin + w.t.pongMin <= PROBE_INTERVAL + w.t.lateness + w.t.pingMax + w.t.pongMax
    modifies w, w.c, w.s, w.s.connections
    ensures w.Valid() && Ran(w, moves) && Slow(w.t, w.net.trips, a)
    ensures var first := w.t.pingMin + w.t.pongMin;
            && w.net.now == first && w.net.trips[0] == Home(0.0, w.t.pingMin, first)
            && w.c.connected && w.c.timeoutDue == first + EXPIRY
    ensures w.c.log == old(w.c.log) + [ClientLog.Ready, ClientLog.Connect]
    ensures forall j :: 0 <= j < |w.s.connections| ==>
              w.s.connections[j] in old(w.s.connections) || fresh(w.s.connections[j])
  {
    hide UdpServer.Server.Valid, UdpClient.Client.Valid, LastArrival, LastReturn, Sound, OnTime, World.Kept,
      World.Clients, World.Loads;
    var t := w.t;
    Start(t);
    moves, a := Dawdle(w, [], 1, t.pingMin);
    SlowFirst(t, w.net.trips, a, Inbound(0.0, t.pingMin));
    moves := Then(w, moves, Move(t.pingMin, Arrive(0)));
    moves, a := Dawdle(w, moves, a, t.pingMin + t.pongMin);
    SlowFirst(t, w.net.trips, a, Home(0.0, t.pingMin, t.pingMin + t.pongMin));
    moves := Then(w, moves, Move(t.pingMin + t.pongMin, Return(0)));
  }

  lemma Start(t: Timing)
    ensures Slow(t, FIRST.trips, 1) && AllAllowed(t, []) && AfterAll(t, []) == FIRST
  {
  }

  lemma SlowFirst(t: Timing, trips: seq<Trip>, a: nat, first: Trip)
    requires Slow(t, trips, a) && first.sent == 0.0
    ensures trips[0].sent == 0.0 && Slow(t, trips[0 := first], a)
  {
    assert trips[0].sent == LateSend(0, t.lateness);
  }

  method Then(w: World, moves: seq<Move>, move: Move) returns (all: seq<Move>)
    requires w.Valid() && Ran(w, moves) && Allowed(w.t, w.net, move) && (w.c.connected ==> move.at < w.c.timeoutDue)
    requires move.act.Probe? || move.act.Arrive? || move.act.Return?
    modifies w, w.c, w.s, w.s.connections
    ensures w.Valid() && Ran(w, all) && w.net == After(w.t, old(w.net), move)
    ensures !move.act.Return? ==> w.View() == old(w.View())
    ensures move.act.Return? ==>
              w.c.connected && w.c.timeoutDue == move.at + EXPIRY
              && w.c.log == old(w.c.log) + if old(w.c.connected) then [] else [ClientLog.Ready, ClientLog.Connect]
    ensures forall j :: 0 <= j < |w.s.connections| ==>
              w.s.connections[j] in old(w.s.connections) || fresh(w.s.connections[j])
  {
    hide UdpClient.Client.Valid, UdpServer.Server.Valid, LastArrival, LastReturn, Sound, OnTime;
    RanOn(w.t, moves, move);
    w.Perform(move);
    return moves + [move];
  }

  lemma {:induction false} NoneCounted(log: seq<ClientLog.Event>, e: ClientLog.Event)
    requires e !in log
    ensures ClientLog.Count(log, e) == 0
  {
    if log != [] {
      NoneCounted(log[..|log| - 1], e);
    }
  }

  /** Time passes for the server; an entry whose timer is not due stays, and nobody says anything. */
  method ServerWaits(s: UdpServer.Server, at: real)
    requires s.Valid() && s.now <= at
    modifies s, s.connections
    ensures s.Valid() && s.now == at && s.history == old(s.history) && s.receives == old(s.receives)
    ensures forall j :: 0 <= j < |s.connections| ==> s.connections[j] in old(s.connections)
    ensures LastPing(s.history, CLIENT).Some? && at < LastPing(s.history, CLIENT).value + EXPIRY ==>
              forall a :: Lists(old(s.connections), CLIENT, a) ==> Lists(s.connections, CLIENT, a)
    ensures forall a :: PeerLog.MessagesOf(s.log, a) == PeerLog.MessagesOf(old(s.log), a)
  {
    hide PeerLog.StatusOf, Probes.LastPing, Probes.Birth, Probes.Recent, Probes.Ordered, UdpServer.Surviving,
      UdpServer.HasAddress, UdpServer.HasEndpoint, UdpServer.Keyed, PeerLog.MessagesOf, PeerLog.Greetings;
    ghost var table, log := s.connections, s.log;
    forall e | e in table ensures s.Entry(e) {}
    s.AdvanceTo(at);
    forall a ensures PeerLog.MessagesOf(s.log, a) == PeerLog.MessagesOf(log, a) {
      PeerLog.MessagesInGreetings(log, a);
      PeerLog.MessagesInGreetings(s.log, a);
    }
  }

  /** A probe of the client reaches the server: a client that is listed stays so, another gets the next address. */
  method ServerMeets(s: UdpServer.Server, probe: seq<byte>)
    requires s.Valid() && s.receives == 1 && s.buffer > 0 && probe == [UdpServer.INTERNAL]
    modifies s, s.connections
    ensures s.Valid() && s.now == old(s.now) && s.receives == 1
    ensures LastPing(s.history, CLIENT) == Some(s.now)
    ensures s.sent == old(s.sent) + [UdpServer.Datagram(CLIENT, [UdpServer.INTERNAL])]
    ensures forall j :: 0 <= j < |s.connections| ==> s.connections[j] in old(s.connections) || fresh(s.connections[j])
    ensures forall a :: Lists(old(s.connections), CLIENT, a) ==> Lists(s.connections, CLIENT, a)
    ensures old(LastPing(s.history, CLIENT)).None? ==> s.next != old(s.next)
    ensures s.next == old(s.next) ==> s.log == old(s.log)
    ensures (exists a :: Lists(old(s.connections), CLIENT, a)) ==> s.next == old(s.next)
    ensures s.next != old(s.next) ==>
              Lists(s.connections, CLIENT, old(s.next)) && PeerLog.MessagesOf(s.log, old(s.next)) == []
  {
    hide PeerLog.StatusOf, Probes.LastPing, Probes.Birth, Probes.Ordered, UdpServer.HasAddress, UdpServer.Keyed,
      UdpServer.Logged, PeerLog.MessagesOf, PeerLog.Greetings;
    ghost var table, history, next, log := s.connections, s.history, s.next, s.log;
    HistoryAppend(history, Ping(CLIENT, s.now));
    s.HasIffRecent();
    NextSaysNothing(s);
    s.Received(false, CLIENT, probe);
    ProbeLogged(table, next, log, s.log);
    if s.next != next { assert s.connections[|table|] in s.connections; }
    assert forall e :: e in table ==> e in s.connections;
  }

  lemma PassSound(t: Timing, net: Net, at: real)
    requires Possible(t) && Sound(t, net) && OnTime(t, net, at)
    ensures Sound(t, net.(now := at))
    ensures forall last :: LastArrival(net, last) ==> LastArrival(net.(now := at), last)
    ensures forall last :: LastReturn(net, last) ==> LastReturn(net.(now := at), last)
  {
    AfterSound(t, net, Move(at, Nothing));
    assert Allowed(t, net, Move(at, Nothing));
  }

  lemma Marked(msg: seq<byte>, buffer: nat)
    requires buffer > 0
    ensures var bytes := [0] + msg;
            IsLetter(bytes) && (if |bytes| <= buffer then bytes[1..] else bytes[1..buffer]) == Fitting(msg, buffer)
    ensures Fitting(msg, buffer) == if |msg| + 1 <= buffer then msg else msg[..buffer - 1]
  {
    var bytes := [0] + msg;
    assert bytes[1..] == msg;
    if |bytes| > buffer { assert bytes[1..buffer] == msg[..buffer - 1]; }
  }

  lemma WelcomeSaysNothing(log: seq<ClientLog.Event>)
    ensures ClientLog.Messages(log + [ClientLog.Ready, ClientLog.Connect]) == ClientLog.Messages(log)
    ensures log + [] == log
  {
    ClientLog.MessagesAppend(log, ClientLog.Ready);
    ClientLog.MessagesAppend(log + [ClientLog.Ready], ClientLog.Connect);
    assert log + [ClientLog.Ready, ClientLog.Connect] == log + [ClientLog.Ready] + [ClientLog.Connect];
  }

  lemma NextSaysNothing(s: UdpServer.Server)
    requires s.Valid()
    ensures PeerLog.MessagesOf(s.log, s.next) == []
    ensures PeerLog.MessagesOf(s.log + [PeerLog.Connected(s.next)], s.next) == []
  {
    forall e | e in s.connections ensures s.Entry(e) {}
    PeerLog.UnknownSaysNothing(s.log, s.next);
    PeerLog.MessagesAppend(s.log, [PeerLog.Connected(s.next)], s.next);
  }

  lemma ProbeLogged(table: seq<UdpServer.Connection>, next: nat, before: seq<PeerLog.Event>, after: seq<PeerLog.Event>)
    requires UdpServer.Logged(CLIENT, [UdpServer.INTERNAL], table, next, before, after)
    ensures after == if UdpServer.HasEndpoint(table, CLIENT) then before else before + [PeerLog.Connected(next)]
  {
  }

  /** The callbacks of a letter from the client. */
  lemma LetterLogged(table: seq<UdpServer.Connection>, data: seq<byte>, next: nat, given: seq<nat>,
                     before: seq<PeerLog.Event>, after: seq<PeerLog.Event>)
    requires UdpServer.Logged(CLIENT, data, table, next, before, after) && UdpServer.Keyed(table) && IsLetter(data)
    requires UdpServer.HasEndpoint(table, CLIENT) <==> given != []
    requires given != [] ==> Lists(table, CLIENT, given[0])
    ensures after == before + if given == [] then [] else [PeerLog.Message(given[0], data[1..])]
  {
    if given != [] {
      var e :| e in table && e.endpoint == CLIENT && e.address == given[0];
      forall c | c in table && c.endpoint == CLIENT ensures c == e { UdpServer.SameEndpoint(table, c, e); }
    }
  }

  /** And of a datagram from someone else. */
  lemma StrangerLogged(endpoint: nat, table: seq<UdpServer.Connection>, data: seq<byte>, next: nat, address: nat,
                       before: seq<PeerLog.Event>, after: seq<PeerLog.Event>)
    requires UdpServer.Logged(endpoint, data, table, next, before, after) && UdpServer.Keyed(table)
    requires endpoint != CLIENT && Lists(table, CLIENT, address) && address < next
    ensures PeerLog.MessagesOf(after, address) == PeerLog.MessagesOf(before, address)
  {
    var e :| e in table && e.endpoint == CLIENT && e.address == address;
    forall c | c in table && c.endpoint == endpoint ensures c.address != address {
      var i :| 0 <= i < |table| && table[i] == c;
      var j :| 0 <= j < |table| && table[j] == e;
    }
    if after != before {
      var event := after[|before|];
      assert after == before + [event] && !(event.Message? && event.peer == address);
      PeerLog.MessagesAppend(before, [event], address);
    }
  }

  lemma OneEndpoint(cs: seq<UdpServer.Connection>, k: nat)
    requires UdpServer.Keyed(cs) && k < |cs|
    ensures UdpServer.HasEndpoint(cs[..k] + [cs[k]], CLIENT)
            <==> UdpServer.HasEndpoint(cs[..k], CLIENT) || cs[k].endpoint == CLIENT
    ensures cs[k].endpoint == CLIENT ==> !UdpServer.HasEndpoint(cs[..k], CLIENT)
  {
    UdpServer.HasAppend(cs[..k], cs[k]);
  }

  lemma Probed(t: Timing, net: Net)
    requires Possible(t) && Sound(t, net) && net.trips[|net.trips| - 1].sent + PROBE_INTERVAL <= net.now
    ensures var after := net.(trips := net.trips + [Outbound(net.now)]);
            && Sound(t, after)
            && (forall last :: LastArrival(net, last) ==> LastArrival(after, last))
            && (forall last :: LastReturn(net, last) ==> LastReturn(after, last))
  {
    AfterSound(t, net, Move(net.now, Probe));
    var after := net.(trips := net.trips + [Outbound(net.now)]);
    forall i | 0 <= i < |net.trips| ensures after.trips[i] == net.trips[i] {}
  }

  lemma Arrived(t: Timing, net: Net, i: nat)
    requires Possible(t) && Sound(t, net) && i < |net.trips| && net.trips[i].Outbound?
    requires net.trips[i].sent + t.pingMin <= net.now
    ensures var after := net.(trips := net.trips[i := Inbound(net.trips[i].sent, net.now)]);
            && Sound(t, after) && LastArrival(after, Some(net.now))
            && (forall last :: LastReturn(net, last) ==> LastReturn(after, last))
  {
    AfterSound(t, net, Move(net.now, Arrive(i)));
    var after := net.(trips := net.trips[i := Inbound(net.trips[i].sent, net.now)]);
    assert after.trips[i].Inbound?;
    forall j | 0 <= j < |net.trips|
      ensures Paced(t, net.trips[j], net.now) && (j == i || after.trips[j] == net.trips[j])
    {
    }
  }

  lemma Returned(t: Timing, net: Net, i: nat)
    requires Possible(t) && Sound(t, net) && i < |net.trips| && net.trips[i].Inbound?
    requires net.trips[i].arrived + t.pongMin <= net.now
    ensures var after := net.(trips := net.trips[i := Home(net.trips[i].sent, net.trips[i].arrived, net.now)]);
            && Sound(t, after) && LastReturn(after, Some(net.now))
            && (forall last :: LastArrival(net, last) ==> LastArrival(after, last))
  {
    AfterSound(t, net, Move(net.now, Return(i)));
    var after := net.(trips := net.trips[i := Home(net.trips[i].sent, net.trips[i].arrived, net.now)]);
    assert after.trips[i].Home?;
    forall j | 0 <= j < |net.trips|
      ensures Paced(t, net.trips[j], net.now) && (j == i || after.trips[j] == net.trips[j])
    {
    }
  }
}
