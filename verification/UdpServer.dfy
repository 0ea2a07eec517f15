/** The udp server: a table of peers keyed by endpoint, each with a timer that every probe re-arms. */
module UdpServer {
  import opened Bytes
  import opened Ids
  import opened PeerLog
  import opened Probes
  import Routing

  const EXTERNAL: byte := 0
  const INTERNAL: byte := 1

  datatype Datagram = Datagram(to: nat, bytes: seq<byte>)

  class Connection {
    const endpoint: nat
    const address: nat
    /** Which ping of the history made it. */
    ghost const born: nat
    var deadline: real
    /** Outstanding waits on its timer. */
    var waits: nat

    constructor (endpoint: nat, address: nat, ghost born: nat)
      ensures this.endpoint == endpoint && this.address == address && this.born == born && waits == 0
    {
      this.endpoint, this.address, this.born := endpoint, address, born;
      deadline, waits := 0.0, 0;
    }

    method ExpiresAfter(now: real, delay: real)
      modifies this
      ensures deadline == now + delay && waits == 0
    {
      deadline, waits := now + delay, 0;
    }

    method Expired()
      modifies `waits
      ensures waits == 0
    {
      waits := 0;
    }

    method AsyncWait()
      modifies `waits
      ensures waits == old(waits) + 1
    {
      waits := waits + 1;
    }
  }

  /** The connections that are (or are not) listed, in table order. */
  function Select(cs: seq<Connection>, ids: seq<ID>, self: nat, printer: nat, listed: bool): seq<Connection> {
    if cs == [] then [] else
    (if Routing.ListsPeer(ids, RemoteId(cs[0], self, printer)) == listed then [cs[0]] else [])
    + Select(cs[1..], ids, self, printer, listed)
  }

  function RemoteId(c: Connection, self: nat, printer: nat): ID { ID(self, c.address, printer) }

  function RemoteIds(cs: seq<Connection>, self: nat, printer: nat): (r: seq<ID>)
    ensures |r| == |cs|
  {
    if cs == [] then [] else [RemoteId(cs[0], self, printer)] + RemoteIds(cs[1..], self, printer)
  }

  /** The server's `send` and `publish_ex` pick the peers that `Routing` says. */
  lemma {:induction false} SelectIsFiltered(cs: seq<Connection>, ids: seq<ID>, self: nat, printer: nat, listed: bool)
    ensures RemoteIds(Select(cs, ids, self, printer, listed), self, printer)
              == Routing.Filtered(RemoteIds(cs, self, printer), ids, listed)
  {
    if cs != [] {
      SelectIsFiltered(cs[1..], ids, self, printer, listed);
      var rest := Select(cs[1..], ids, self, printer, listed);
      assert RemoteIds(cs, self, printer)[1..] == RemoteIds(cs[1..], self, printer);
      assert ([cs[0]] + rest)[1..] == rest;
      assert [] + rest == rest;
    }
  }

  lemma {:induction false} SelectHas(cs: seq<Connection>, ids: seq<ID>, self: nat, printer: nat, listed: bool,
      c: Connection)
    ensures c in Select(cs, ids, self, printer, listed) <==>
              c in cs && (exists i :: 0 <= i < |ids| && ids[i].owner == self && ids[i].ref == c.address) == listed
  {
    if cs != [] {
      SelectHas(cs[1..], ids, self, printer, listed, c);
      assert c in cs <==> c == cs[0] || c in cs[1..];
      var id := RemoteId(cs[0], self, printer);
      assert Routing.ListsPeer(ids, id) <==> exists i :: 0 <= i < |ids| && Routing.SamePeer(ids[i], id);
    }
  }

  /** The datagrams to the selected peers, when no two share an endpoint. */
  lemma SelectedAre(cs: seq<Connection>, ids: seq<ID>, self: nat, printer: nat, listed: bool, bytes: seq<byte>)
    requires Keyed(cs)
    ensures var out := ToEach(Select(cs, ids, self, printer, listed), bytes);
            && (forall c :: c in cs ==>
                  (Datagram(c.endpoint, bytes) in out <==>
                     (exists i :: 0 <= i < |ids| && ids[i].owner == self && ids[i].ref == c.address) == listed))
            && forall d :: d in out ==> exists c :: c in cs && d == Datagram(c.endpoint, bytes)
  {
    var chosen := Select(cs, ids, self, printer, listed);
    var out := ToEach(chosen, bytes);
    forall c ensures c in chosen <==>
                       c in cs && (exists i :: 0 <= i < |ids| && ids[i].owner == self && ids[i].ref == c.address)
                           == listed
    {
      SelectHas(cs, ids, self, printer, listed, c);
    }
    forall c | c in cs ensures Datagram(c.endpoint, bytes) in out <==> c in chosen {
      if c in chosen {
        var k :| 0 <= k < |chosen| && chosen[k] == c;
        assert out[k] == Datagram(c.endpoint, bytes);
      }
      if Datagram(c.endpoint, bytes) in out {
        var k :| 0 <= k < |out| && out[k] == Datagram(c.endpoint, bytes);
        SameEndpoint(cs, c, chosen[k]);
      }
    }
    forall d | d in out ensures exists c :: c in cs && d == Datagram(c.endpoint, bytes) {
      var k :| 0 <= k < |out| && out[k] == d;
      assert chosen[k] in cs;
    }
  }

  lemma SameEndpoint(cs: seq<Connection>, c: Connection, d: Connection)
    requires Keyed(cs) && c in cs && d in cs && c.endpoint == d.endpoint
    ensures c == d
  {
    var i :| 0 <= i < |cs| && cs[i] == c;
    var j :| 0 <= j < |cs| && cs[j] == d;
  }

  function ToEach(cs: seq<Connection>, bytes: seq<byte>): (r: seq<Datagram>)
    ensures |r| == |cs| && forall i :: 0 <= i < |r| ==> r[i] == Datagram(cs[i].endpoint, bytes)
  {
    seq(|cs|, i requires 0 <= i < |cs| => Datagram(cs[i].endpoint, bytes))
  }

  /** The connections whose timer has not come due by `t`. */
  function Surviving(cs: seq<Connection>, t: real): (r: seq<Connection>)
    reads cs`deadline
    ensures forall c :: c in cs ==> (c in r <==> c.deadline > t)
    ensures forall c :: c in r ==> c in cs
  {
    if cs == [] then [] else
    assert forall c :: c in cs ==> c == cs[0] || c in cs[1..];
    assert forall c :: c in cs[1..] ==> c in cs;
    (if cs[0].deadline > t then [cs[0]] else []) + Surviving(cs[1..], t)
  }

  function Without(cs: seq<Connection>, c: Connection): (r: seq<Connection>)
    ensures forall d :: d in cs ==> (d in r <==> d != c)
    ensures forall d :: d in r ==> d in cs
    ensures c in cs ==> |r| < |cs|
    ensures |r| <= |cs|
  {
    if cs == [] then [] else
    assert forall d :: d in cs ==> d == cs[0] || d in cs[1..];
    assert forall d :: d in cs[1..] ==> d in cs;
    var rest := Without(cs[1..], c);
    if cs[0] == c then rest else [cs[0]] + rest
  }

  lemma {:induction false} WithoutSurviving(cs: seq<Connection>, c: Connection, t: real)
    requires c.deadline <= t
    ensures Surviving(Without(cs, c), t) == Surviving(cs, t)
  {
    if cs != [] {
      WithoutSurviving(cs[1..], c, t);
      if cs[0] != c {
        assert Without(cs, c)[0] == cs[0] && Without(cs, c)[1..] == Without(cs[1..], c);
      }
    }
  }

  lemma {:induction false} SurvivingAll(cs: seq<Connection>, t: real)
    requires forall c :: c in cs ==> c.deadline > t
    ensures Surviving(cs, t) == cs
  {
    if cs != [] {
      SurvivingAll(cs[1..], t);
    }
  }

  lemma {:induction false} WithoutAppend(cs: seq<Connection>, d: Connection, c: Connection)
    ensures Without(cs + [d], c) == Without(cs, c) + if d == c then [] else [d]
  {
    if cs == [] {
      assert cs + [d] == [d];
    } else {
      WithoutAppend(cs[1..], d, c);
      assert (cs + [d])[1..] == cs[1..] + [d];
    }
  }

  ghost predicate HasEndpoint(cs: seq<Connection>, endpoint: nat) {
    exists c :: c in cs && c.endpoint == endpoint
  }

  ghost predicate HasAddress(cs: seq<Connection>, address: nat) {
    exists c :: c in cs && c.address == address
  }

  /** No two entries share an endpoint or an address. */
  ghost predicate Keyed(cs: seq<Connection>) {
    forall i, j :: 0 <= i < j < |cs| ==> cs[i].endpoint != cs[j].endpoint && cs[i].address != cs[j].address
  }

  lemma HasAppend(cs: seq<Connection>, c: Connection)
    ensures forall e :: HasEndpoint(cs + [c], e) <==> HasEndpoint(cs, e) || e == c.endpoint
    ensures forall a :: HasAddress(cs + [c], a) <==> HasAddress(cs, a) || a == c.address
    ensures Keyed(cs) && !HasEndpoint(cs, c.endpoint) && !HasAddress(cs, c.address) ==> Keyed(cs + [c])
  {
    assert c in cs + [c];
    forall d | d in cs ensures d in cs + [c] {}
  }

  lemma {:induction false} WithoutKeys(cs: seq<Connection>, c: Connection)
    requires Keyed(cs)
    ensures Keyed(Without(cs, c))
  {
    if cs != [] {
      WithoutKeys(cs[1..], c);
      forall d | d in Without(cs[1..], c) ensures d.endpoint != cs[0].endpoint && d.address != cs[0].address {
        assert d in cs[1..];
      }
    }
  }

  lemma WithoutHas(cs: seq<Connection>, c: Connection)
    requires Keyed(cs) && c in cs
    ensures forall e :: HasEndpoint(Without(cs, c), e) <==> HasEndpoint(cs, e) && e != c.endpoint
    ensures forall a :: HasAddress(Without(cs, c), a) <==> HasAddress(cs, a) && a != c.address
  {
    forall d | d in cs && d != c ensures d.endpoint != c.endpoint && d.address != c.address && d in Without(cs, c) {
      var i :| 0 <= i < |cs| && cs[i] == c;
      var j :| 0 <= j < |cs| && cs[j] == d;
    }
  }

  class Server {
    const self: nat
    const printer: nat
    const buffer: nat

    var now: real
    var connections: seq<Connection>
    var next: nat
    /** Outstanding receives. */
    var receives: nat
    var log: seq<Event>
    var sent: seq<Datagram>
    /** Every internal datagram so far. */
    ghost var history: seq<Ping>

    /** One entry: its one wait is 50 ms after its endpoint's last ping, and it was made by the ping that began the
        endpoint's present chain. */
    ghost predicate Entry(c: Connection)
      reads this, c
    {
      && c.address < next && c.waits == 1
      && LastPing(history, c.endpoint).Some?
      && c.deadline == LastPing(history, c.endpoint).value + EXPIRY
      && c.born == Birth(history, c.endpoint)
      && now <= c.deadline
    }

    ghost predicate Table()
      reads this, connections
    {
      && Ordered(history, now)
      && Keyed(connections)
      && (forall c :: c in connections ==> Entry(c))
      && (forall e :: Recent(history, e, now) ==> HasEndpoint(connections, e))
      && (forall a: nat :: StatusOf(log, a) == if HasAddress(connections, a) then Live
                                               else if a < next then Gone else Unknown)
      && receives <= 1
    }

    /** Between handlers no timer is overdue. */
    ghost predicate Valid()
      reads this, connections
    {
      Table() && forall c :: c in connections ==> now < c.deadline
    }

    lemma HasIffRecent()
      requires Valid()
      ensures forall e :: HasEndpoint(connections, e) <==> Recent(history, e, now)
    {
      forall c | c in connections ensures Recent(history, c.endpoint, now) {
        assert Entry(c);
      }
    }

    /** The table is an index: its endpoints are pairwise distinct and exactly those whose last internal datagram came
        less than 50 ms ago; an entry is the same object exactly as long as pings come less than 50 ms apart. */
    lemma TableIsIndex()
      requires Valid()
      ensures forall e :: HasEndpoint(connections, e) <==> HeardSince(history, e, now - EXPIRY)
      ensures forall c :: c in connections ==> c.born == Birth(history, c.endpoint)
      ensures forall i, j :: 0 <= i < j < |connections| ==> connections[i].endpoint != connections[j].endpoint
    {
      HasIffRecent();
      forall c | c in connections ensures c.born == Birth(history, c.endpoint) {
        assert Entry(c);
      }
      forall e ensures HasEndpoint(connections, e) <==> HeardSince(history, e, now - EXPIRY) {
        RecentIffSomeRecent(history, e, now);
      }
    }

    constructor (self: nat, printer: nat, buffer: nat)
      ensures Valid() && connections == [] && history == [] && log == [] && sent == []
      ensures now == 0.0 && next == 0 && receives == 1
      ensures this.self == self && this.printer == printer && this.buffer == buffer
    {
      this.self, this.printer, this.buffer := self, printer, buffer;
      now, connections, next, receives, log, sent, history := 0.0, [], 0, 1, [], [], [];
    }

    /** `ping`: a new entry if there is none, its timer, and the reply. */
    method Ping(endpoint: nat, known: Connection?)
      requires Valid()
      requires if known == null then !HasEndpoint(connections, endpoint)
               else known in connections && known.endpoint == endpoint
      modifies this, connections
      ensures Valid()
      ensures history == old(history) + [Probes.Ping(endpoint, now)] && now == old(now) && receives == old(receives)
      ensures sent == old(sent) + [Datagram(endpoint, [INTERNAL])]
      ensures if known != null then connections == old(connections) && log == old(log) && next == old(next)
              else |connections| == |old(connections)| + 1 && connections[..|connections| - 1] == old(connections)
                   && fresh(connections[|connections| - 1]) && connections[|connections| - 1].endpoint == endpoint
                   && connections[|connections| - 1].address == old(next)
                   && log == old(log) + [Connected(old(next))] && next == old(next) + 1
    {
      var connection := known;
      if connection == null {
        connection := new Connection(endpoint, next, |history|);
        Enlist(connection);
      }
      Rearm(connection);
      sent := sent + [Datagram(endpoint, [INTERNAL])];
    }

    /** The table with an entry whose timer is not set yet. */
    ghost predicate Unarmed(entry: Connection)
      reads this, connections
    {
      && Ordered(history, now)
      && Keyed(connections)
      && (forall c :: c in connections && c != entry ==> Entry(c) && now < c.deadline)
      && (forall e :: Recent(history, e, now) ==> HasEndpoint(connections, e))
      && (forall a: nat :: StatusOf(log, a) == if HasAddress(connections, a) then Live
                                               else if a < next then Gone else Unknown)
      && receives <= 1
      && entry in connections && entry.address < next
      && entry.born == if Recent(history, entry.endpoint, now) then Birth(history, entry.endpoint) else |history|
    }

    method Enlist(connection: Connection)
      requires Valid() && !HasEndpoint(connections, connection.endpoint) && connection !in connections
      requires connection.address == next && connection.born == |history|
      modifies `connections, `next, `log
      ensures Unarmed(connection)
      ensures connections == old(connections) + [connection] && next == old(next) + 1
      ensures log == old(log) + [Connected(old(next))]
    {
      forall c | c in connections ensures c.address != connection.address { assert Entry(c); }
      StatusAppend(log, Connected(next));
      HasAppend(connections, connection);
      connections := connections + [connection];
      next := next + 1;
      log := log + [Connected(connection.address)];
      assert connection in connections;
    }

    method Rearm(connection: Connection)
      requires connection in connections
      requires Unarmed(connection)
      modifies `history, connection
      ensures Valid() && history == old(history) + [Probes.Ping(connection.endpoint, now)]
    {
      forall c | c in connections && c != connection ensures c.endpoint != connection.endpoint && Entry(c) {
        var i :| 0 <= i < |connections| && connections[i] == c;
        var j :| 0 <= j < |connections| && connections[j] == connection;
      }
      connection.ExpiresAfter(now, EXPIRY);
      connection.AsyncWait();
      HistoryAppend(history, Probes.Ping(connection.endpoint, now));
      history := history + [Probes.Ping(connection.endpoint, now)];
    }

    /** The handler of an expired timer: goodbye, and out of the list. */
    method Expire(connection: Connection)
      requires Table() && connection in connections && connection.deadline == now
      modifies connection`waits, `log, `connections
      ensures Table()
      ensures log == old(log) + [Disconnected(connection.address)] && Greetings(log) == Greetings(old(log))
      ensures connections == Without(old(connections), connection)
    {
      hide PeerLog.Greetings;
      assert Entry(connection);
      WithoutKeys(connections, connection);
      WithoutHas(connections, connection);
      connection.Expired();
      StatusAppend(log, Disconnected(connection.address));
      log := log + [Disconnected(connection.address)];
      Erase(connection);
    }

    method Erase(connection: Connection)
      modifies `connections
      ensures connections == Without(old(connections), connection)
    {
      var kept := [];
      for i := 0 to |connections|
        invariant connections == old(connections) && kept == Without(connections[..i], connection)
      {
        assert connections[..i + 1] == connections[..i] + [connections[i]];
        WithoutAppend(connections[..i], connections[i], connection);
        if connections[i] != connection {
          kept := kept + [connections[i]];
        }
      }
      assert connections[..|connections|] == connections;
      connections := kept;
    }

    /** Time passes: the timers due by `t` complete, each at its deadline, the earliest first. */
    method AdvanceTo(t: real)
      requires Valid() && now <= t
      modifies `now, `log, `connections, connections`waits
      ensures Valid() && now == t
      ensures history == old(history) && sent == old(sent) && next == old(next) && receives == old(receives)
      ensures connections == Surviving(old(connections), t)
      ensures forall j :: 0 <= j < |connections| ==> connections[j] in old(connections)
      ensures (forall c :: c in old(connections) ==> c.deadline > t) ==> log == old(log)
      ensures Greetings(log) == Greetings(old(log))
    {
      hide PeerLog.Greetings, Surviving, Without, PeerLog.StatusOf, Probes.LastPing, Probes.Birth, Probes.Recent,
        Probes.Ordered, HasAddress, HasEndpoint, Keyed;
      ghost var start := connections;
      var due := FirstDue(t);
      while due < |connections|
        invariant Table() && now <= t && 0 <= due <= |connections|
        invariant forall c :: c in connections ==> c in start
        invariant history == old(history) && sent == old(sent) && next == old(next) && receives == old(receives)
        invariant Surviving(connections, t) == Surviving(start, t)
        invariant Greetings(log) == Greetings(old(log))
        invariant if due < |connections| then IsFirstDue(connections[due], t)
                  else forall c :: c in connections ==> c.deadline > t
        invariant (forall c :: c in start ==> c.deadline > t) ==> log == old(log) && due == |connections|
        decreases |connections|
      {
        assert connections[due] in start;
        ExpireFirst(connections[due], t);
        due := FirstDue(t);
      }
      Wait(t);
      SurvivingAll(connections, t);
    }

    method ExpireFirst(c: Connection, t: real)
      requires Table() && c in connections && IsFirstDue(c, t) && now <= t
      modifies `now, `log, `connections, c`waits
      ensures Table() && now <= t
      ensures connections == Without(old(connections), c) && Surviving(connections, t) == Surviving(old(connections), t)
      ensures Greetings(log) == Greetings(old(log))
    {
      hide PeerLog.Greetings, Surviving, Without, PeerLog.StatusOf, Probes.LastPing, Probes.Birth, Probes.Recent,
        Probes.Ordered, HasAddress, HasEndpoint, Keyed;
      assert Entry(c);
      Wait(c.deadline);
      WithoutSurviving(connections, c, t);
      Expire(c);
    }

    method Wait(t: real)
      requires Table() && now <= t && forall c :: c in connections ==> t <= c.deadline
      modifies `now
      ensures Table() && now == t
    {
      now := t;
    }

    ghost predicate IsFirstDue(c: Connection, t: real)
      reads this, c, connections
    {
      c.deadline <= t && forall d :: d in connections ==> c.deadline <= d.deadline
    }

    /** The position of the earliest timer due by `t`, or the end. */
    method FirstDue(t: real) returns (at: nat)
      ensures at <= |connections|
      ensures at < |connections| ==> IsFirstDue(connections[at], t)
      ensures at == |connections| ==> forall c :: c in connections ==> c.deadline > t
    {
      at := |connections|;
      for i := 0 to |connections|
        invariant at <= |connections|
        invariant at < |connections| ==> at < i && connections[at].deadline <= t
        invariant at < |connections| ==> forall j :: 0 <= j < i ==> connections[at].deadline <= connections[j].deadline
        invariant at == |connections| ==> forall j :: 0 <= j < i ==> connections[j].deadline > t
      {
        if connections[i].deadline <= t && (at == |connections| || connections[i].deadline < connections[at].deadline) {
          at := i;
        }
      }
    }

    /** What a datagram does: an internal one is a ping, another one is a message if its sender is in the table. */
    method MessageFrom(endpoint: nat, data: seq<byte>)
      requires Valid()
      modifies this, connections
      ensures Valid() && now == old(now) && receives == old(receives)
      ensures forall j :: 0 <= j < |connections| ==> connections[j] in old(connections) || fresh(connections[j])
      ensures history == old(history) + if IsPing(data) then [Probes.Ping(endpoint, now)] else []
      ensures sent == old(sent) + if IsPing(data) then [Datagram(endpoint, [INTERNAL])] else []
      ensures next == old(next) + if IsPing(data) && !HasEndpoint(old(connections), endpoint) then 1 else 0
      ensures if IsPing(data) then Pinged(endpoint, old(next), old(connections), connections)
              else connections == old(connections)
      ensures Logged(endpoint, data, old(connections), old(next), old(log), log)
    {
      hide PeerLog.StatusOf, PeerLog.Greetings, Probes.LastPing, Probes.Birth, Probes.Recent, Probes.Ordered;
      if |data| < 1 {
        return;
      }
      var at := FindEndpoint(endpoint);
      var connection: Connection? := if at == |connections| then null else connections[at];
      if data[0] == INTERNAL {
        Ping(endpoint, connection);
        return;
      }
      if connection != null {
        assert HasAddress(connections, connection.address);
        StatusAppend(log, Message(connection.address, data[1..]));
        log := log + [Message(connection.address, data[1..])];
      }
    }

    method FindEndpoint(endpoint: nat) returns (at: nat)
      ensures at <= |connections|
      ensures at < |connections| ==> connections[at].endpoint == endpoint
      ensures at == |connections| <==> !HasEndpoint(connections, endpoint)
    {
      at := 0;
      while at < |connections|
        invariant at <= |connections| && forall i :: 0 <= i < at ==> connections[i].endpoint != endpoint
      {
        if connections[at].endpoint == endpoint { return; }
        at := at + 1;
      }
    }

    /** The receive completes: at most `buffer` bytes of the datagram are there. Another one is started unless it
        failed. */
    method Received(failed: bool, endpoint: nat, datagram: seq<byte>)
      requires Valid() && receives == 1
      modifies this, connections
      ensures Valid() && now == old(now) && receives == (if failed then 0 else 1)
      ensures forall j :: 0 <= j < |connections| ==> connections[j] in old(connections) || fresh(connections[j])
      ensures failed ==> history == old(history) && log == old(log) && sent == old(sent) && next == old(next)
                         && connections == old(connections)
      ensures !failed ==> var data := if |datagram| <= buffer then datagram else datagram[..buffer];
                && history == old(history) + (if IsPing(data) then [Probes.Ping(endpoint, now)] else [])
                && sent == old(sent) + (if IsPing(data) then [Datagram(endpoint, [INTERNAL])] else [])
                && next == old(next) + (if IsPing(data) && !HasEndpoint(old(connections), endpoint) then 1 else 0)
                && (if IsPing(data) then Pinged(endpoint, old(next), old(connections), connections)
                    else connections == old(connections))
                && Logged(endpoint, data, old(connections), old(next), old(log), log)
    {
      hide PeerLog.StatusOf, PeerLog.Greetings, Probes.LastPing, Probes.Birth, Probes.Recent, Probes.Ordered,
        HasAddress, HasEndpoint, Keyed, Pinged, Logged;
      receives := receives - 1;
      if !failed {
        var count := if |datagram| < buffer then |datagram| else buffer;
        assert datagram[..count] == if |datagram| <= buffer then datagram else datagram[..buffer];
        MessageFrom(endpoint, datagram[..count]);
        receives := receives + 1;
      }
    }

    method SendExternal(endpoint: nat, msg: seq<byte>)
      modifies `sent
      ensures sent == old(sent) + [Datagram(endpoint, [EXTERNAL] + msg)]
    {
      sent := sent + [Datagram(endpoint, [EXTERNAL] + msg)];
    }

    method HasConnectionId(ids: seq<ID>, c: Connection) returns (has: bool)
      ensures has <==> Routing.ListsPeer(ids, RemoteId(c, self, printer))
    {
      for i := 0 to |ids|
        invariant forall j :: 0 <= j < i ==> !Routing.SamePeer(ids[j], RemoteId(c, self, printer))
      {
        if ids[i].owner == self && ids[i].ref == c.address {
          assert Routing.SamePeer(ids[i], RemoteId(c, self, printer));
          return true;
        }
      }
      return false;
    }

    /** `publish`. */
    method PublishNow(msg: seq<byte>)
      modifies `sent
      ensures sent == old(sent) + ToEach(connections, [EXTERNAL] + msg)
    {
      for i := 0 to |connections|
        invariant sent == old(sent) + ToEach(connections[..i], [EXTERNAL] + msg)
      {
        SendExternal(connections[i].endpoint, msg);
      }
      assert connections[..|connections|] == connections;
    }

    /** `send`: to the listed peers, each once; an id lists the peer whose owner and connection it has. */
    method SendNow(ids: seq<ID>, msg: seq<byte>)
      requires Valid()
      modifies `sent
      ensures sent == old(sent) + ToEach(Select(connections, ids, self, printer, true), [EXTERNAL] + msg)
      ensures forall c :: c in connections ==>
                (Datagram(c.endpoint, [0] + msg) in sent[|old(sent)|..] <==>
                   exists i :: 0 <= i < |ids| && ids[i].owner == self && ids[i].ref == c.address)
      ensures forall d :: d in sent[|old(sent)|..] ==>
                exists c :: c in connections && d == Datagram(c.endpoint, [0] + msg)
    {
      SelectNow(ids, msg, true);
      SelectedAre(connections, ids, self, printer, true, [EXTERNAL] + msg);
    }

    /** `publish_ex`: to the others, each once. */
    method PublishExNow(ids: seq<ID>, msg: seq<byte>)
      requires Valid()
      modifies `sent
      ensures sent == old(sent) + ToEach(Select(connections, ids, self, printer, false), [EXTERNAL] + msg)
      ensures forall c :: c in connections ==>
                (Datagram(c.endpoint, [0] + msg) in sent[|old(sent)|..] <==>
                   !exists i :: 0 <= i < |ids| && ids[i].owner == self && ids[i].ref == c.address)
      ensures forall d :: d in sent[|old(sent)|..] ==>
                exists c :: c in connections && d == Datagram(c.endpoint, [0] + msg)
    {
      SelectNow(ids, msg, false);
      SelectedAre(connections, ids, self, printer, false, [EXTERNAL] + msg);
    }

    /** `send` (`listed`) and `publish_ex` (not `listed`): one pass over the table, each peer at most once. */
    method SelectNow(ids: seq<ID>, msg: seq<byte>, listed: bool)
      modifies `sent
      ensures sent == old(sent) + ToEach(Select(connections, ids, self, printer, listed), [EXTERNAL] + msg)
    {
      for i := 0 to |connections|
        invariant sent + ToEach(Select(connections[i..], ids, self, printer, listed), [EXTERNAL] + msg)
               == old(sent) + ToEach(Select(connections, ids, self, printer, listed), [EXTERNAL] + msg)
      {
        assert connections[i..][1..] == connections[i + 1..];
        var has := HasConnectionId(ids, connections[i]);
        if has == listed {
          assert ToEach(Select(connections[i..], ids, self, printer, listed), [EXTERNAL] + msg)
              == [Datagram(connections[i].endpoint, [EXTERNAL] + msg)]
                 + ToEach(Select(connections[i + 1..], ids, self, printer, listed), [EXTERNAL] + msg);
          AppendAssociates(sent, [Datagram(connections[i].endpoint, [EXTERNAL] + msg)],
                           ToEach(Select(connections[i + 1..], ids, self, printer, listed), [EXTERNAL] + msg));
          SendExternal(connections[i].endpoint, msg);
        }
      }
    }
  }

  function Cut(datagram: seq<byte>, buffer: nat): seq<byte> {
    if |datagram| <= buffer then datagram else datagram[..buffer]
  }

  predicate IsPing(data: seq<byte>) { data != [] && data[0] == INTERNAL }

  /** A ping keeps the table, or appends one entry for its endpoint at the next address. */
  ghost predicate Pinged(endpoint: nat, next: nat, before: seq<Connection>, after: seq<Connection>) {
    if HasEndpoint(before, endpoint) then after == before
    else |after| == |before| + 1 && after[..|before|] == before
         && after[|before|].endpoint == endpoint && after[|before|].address == next
  }

  /** The callbacks of one datagram: connect for the ping of an endpoint that is not in the table, a message for a user
      datagram of one that is, and nothing else. */
  ghost predicate Logged(endpoint: nat, data: seq<byte>, table: seq<Connection>, next: nat,
                         before: seq<Event>, after: seq<Event>)
  {
    if data == [] then after == before
    else if IsPing(data) then after == before + if HasEndpoint(table, endpoint) then [] else [Connected(next)]
    else if HasEndpoint(table, endpoint) then
      exists c :: c in table && c.endpoint == endpoint && after == before + [Message(c.address, data[1..])]
    else after == before
  }

  // ---- Whole runs, from what arrived ----

  /** A receive that completes `after` milliseconds after the one before it, with an error or with a datagram. */
  datatype Arrival = Arrival(after: real, failed: bool, endpoint: nat, bytes: seq<byte>)

  function TimeOf(arrivals: seq<Arrival>): real {
    if arrivals == [] then 0.0
    else TimeOf(arrivals[..|arrivals| - 1])
         + if arrivals[|arrivals| - 1].after > 0.0 then arrivals[|arrivals| - 1].after else 0.0
  }

  /** No receive has failed: a failed one is not followed by another. */
  predicate Listening(arrivals: seq<Arrival>) {
    arrivals == [] || (Listening(arrivals[..|arrivals| - 1]) && !arrivals[|arrivals| - 1].failed)
  }

  /** The bytes of the last arrival that the server gets to see. */
  function Seen(arrivals: seq<Arrival>, buffer: nat): seq<byte>
    requires arrivals != []
  {
    if Listening(arrivals) then Cut(arrivals[|arrivals| - 1].bytes, buffer) else []
  }

  function PingsOf(arrivals: seq<Arrival>, buffer: nat): seq<Ping> {
    if arrivals == [] then [] else
    PingsOf(arrivals[..|arrivals| - 1], buffer)
    + if IsPing(Seen(arrivals, buffer)) then [Probes.Ping(arrivals[|arrivals| - 1].endpoint, TimeOf(arrivals))] else []
  }

  /** The last arrival's endpoint pinged less than 50 ms before it. */
  predicate Known(arrivals: seq<Arrival>, buffer: nat)
    requires arrivals != []
  {
    Recent(PingsOf(arrivals[..|arrivals| - 1], buffer), arrivals[|arrivals| - 1].endpoint, TimeOf(arrivals))
  }

  /** The endpoints in the order in which they were given addresses: one for every ping that began a chain of pings less
      than 50 ms apart. */
  function Births(arrivals: seq<Arrival>, buffer: nat): seq<nat> {
    if arrivals == [] then [] else
    Births(arrivals[..|arrivals| - 1], buffer)
    + if IsPing(Seen(arrivals, buffer)) && !Known(arrivals, buffer) then [arrivals[|arrivals| - 1].endpoint] else []
  }

  /** The address that the endpoint was given last. */
  function AddressOf(births: seq<nat>, endpoint: nat): nat {
    if births == [] then 0
    else if births[|births| - 1] == endpoint then |births| - 1
    else AddressOf(births[..|births| - 1], endpoint)
  }

  /** The connects and messages that the arrivals amount to. */
  function GreetingsOf(arrivals: seq<Arrival>, buffer: nat): seq<Event> {
    if arrivals == [] then [] else
    var init, last, data := arrivals[..|arrivals| - 1], arrivals[|arrivals| - 1], Seen(arrivals, buffer);
    GreetingsOf(init, buffer)
    + if IsPing(data) then (if Known(arrivals, buffer) then [] else [Connected(|Births(init, buffer)|)])
      else if data != [] && Known(arrivals, buffer)
      then [Message(AddressOf(Births(init, buffer), last.endpoint), data[1..])]
      else []
  }

  /** One more datagram, byte by byte. Nothing counts beyond the buffer. A first byte 1 is a ping: from an endpoint
      that has not pinged in the last 50 ms it is a connect, under the next address. Any other first byte is a marker,
      and what follows it is a message if the endpoint has pinged in the last 50 ms. An empty datagram is nothing. */
  lemma WhatArrives(before: seq<Arrival>, last: Arrival, buffer: nat)
    requires Listening(before) && !last.failed && buffer > 0
    ensures var all, bytes, n := before + [last], last.bytes, |last.bytes|;
            var known := HeardSince(PingsOf(before, buffer), last.endpoint, TimeOf(all) - 50.0);
            && GreetingsOf(all, buffer)
                 == GreetingsOf(before, buffer)
                    + (if n == 0 then []
                       else if bytes[0] == 1 then (if known then [] else [Connected(|Births(before, buffer)|)])
                       else if !known then []
                       else [Message(AddressOf(Births(before, buffer), last.endpoint),
                                     if n <= buffer then bytes[1..] else bytes[1..buffer])])
            && PingsOf(all, buffer)
                 == PingsOf(before, buffer)
                    + if n > 0 && bytes[0] == 1 then [Probes.Ping(last.endpoint, TimeOf(all))] else []
  {
    hide TimeOf, PingsOf, Births, GreetingsOf, Listening, Recent, AddressOf, LastPing, HeardSince;
    OneMore(before, last, buffer);
    PingsInOrder(before, buffer);
    OrderedLater(PingsOf(before, buffer), TimeOf(before), TimeOf(before + [last]));
    RecentIffSomeRecent(PingsOf(before, buffer), last.endpoint, TimeOf(before + [last]));
    assert last.bytes[..|last.bytes|] == last.bytes;
  }

  lemma OrderedLater(h: seq<Ping>, now: real, later: real)
    requires Ordered(h, now) && now <= later
    ensures Ordered(h, later)
  {
  }

  lemma {:induction false} PingsInOrder(arrivals: seq<Arrival>, buffer: nat)
    ensures Ordered(PingsOf(arrivals, buffer), TimeOf(arrivals))
  {
    if arrivals != [] {
      PingsInOrder(arrivals[..|arrivals| - 1], buffer);
    }
  }

  /** The table's addresses are those last given to its endpoints. */
  ghost predicate Addressed(cs: seq<Connection>, births: seq<nat>) {
    forall c :: c in cs ==> c.endpoint in births && c.address == AddressOf(births, c.endpoint)
  }

  lemma AddressedAppend(cs: seq<Connection>, births: seq<nat>, c: Connection)
    requires Addressed(cs, births) && !HasEndpoint(cs, c.endpoint) && c.address == |births|
    ensures Addressed(cs + [c], births + [c.endpoint])
  {
    assert (births + [c.endpoint])[..|births|] == births;
  }

  lemma GreetingsLogged(endpoint: nat, data: seq<byte>, table: seq<Connection>, births: seq<nat>,
                        before: seq<Event>, after: seq<Event>)
    requires Logged(endpoint, data, table, |births|, before, after) && Addressed(table, births)
    ensures Greetings(after) == Greetings(before)
              + if IsPing(data) then (if HasEndpoint(table, endpoint) then [] else [Connected(|births|)])
                else if data != [] && HasEndpoint(table, endpoint)
                then [Message(AddressOf(births, endpoint), data[1..])]
                else []
  {
    hide Greetings;
    assert before + [] == before;
    StatusAppend(before, Connected(|births|));
    StatusAppend(before, Message(AddressOf(births, endpoint), data[if data == [] then 0 else 1..]));
  }

  lemma OneMore(before: seq<Arrival>, last: Arrival, buffer: nat)
    ensures var all := before + [last];
            var heard := Listening(before) && !last.failed;
            var data := if heard then Cut(last.bytes, buffer) else [];
            var known := Recent(PingsOf(before, buffer), last.endpoint, TimeOf(all));
            && TimeOf(all) == TimeOf(before) + (if last.after > 0.0 then last.after else 0.0)
            && Listening(all) == heard
            && PingsOf(all, buffer)
                 == PingsOf(before, buffer) + (if IsPing(data) then [Probes.Ping(last.endpoint, TimeOf(all))] else [])
            && Births(all, buffer) == Births(before, buffer) + (if IsPing(data) && !known then [last.endpoint] else [])
            && GreetingsOf(all, buffer)
                 == GreetingsOf(before, buffer)
                    + if IsPing(data) then (if known then [] else [Connected(|Births(before, buffer)|)])
                      else if data != [] && known
                      then [Message(AddressOf(Births(before, buffer), last.endpoint), data[1..])]
                      else []
  {
    hide Recent, Cut, IsPing, AddressOf;
    var all := before + [last];
    assert all[..|all| - 1] == before && all[|all| - 1] == last;
  }

  /** One arrival at the server, after the time that it takes. */
  method Arrive(s: Server, ghost before: seq<Arrival>, arrival: Arrival)
    requires s.Valid() && Follows(s, before)
    modifies s, s.connections
    ensures s.Valid() && Follows(s, before + [arrival])
    ensures forall j :: 0 <= j < |s.connections| ==> s.connections[j] in old(s.connections) || fresh(s.connections[j])
  {
    hide PeerLog.StatusOf, PeerLog.Greetings, Probes.LastPing, Probes.Birth, Probes.Recent, Probes.Ordered,
      Surviving, HasAddress, HasEndpoint, Keyed, AddressOf, TimeOf, PingsOf, Births, GreetingsOf, Listening;
    OneMore(before, arrival, s.buffer);
    s.AdvanceTo(if arrival.after > 0.0 then s.now + arrival.after else s.now);
    ghost var births := Births(before, s.buffer);
    assert Addressed(s.connections, births) && births + [] == births && s.history + [] == s.history;
    s.HasIffRecent();
    ghost var table, log := s.connections, s.log;
    if s.receives == 1 {
      s.Received(arrival.failed, arrival.endpoint, arrival.bytes);
      if !arrival.failed {
        ghost var data := Cut(arrival.bytes, s.buffer);
        GreetingsLogged(arrival.endpoint, data, table, births, log, s.log);
        if IsPing(data) && !HasEndpoint(table, arrival.endpoint) {
          AddressedAppend(table, births, s.connections[|table|]);
          assert s.connections == table + [s.connections[|table|]];
        }
      }
    }
  }

  /** The server is where the arrivals leave it. */
  ghost predicate Follows(s: Server, arrivals: seq<Arrival>)
    reads s, s.connections
  {
    && s.now == TimeOf(arrivals) && s.history == PingsOf(arrivals, s.buffer)
    && s.receives == (if Listening(arrivals) then 1 else 0)
    && s.next == |Births(arrivals, s.buffer)| && Addressed(s.connections, Births(arrivals, s.buffer))
    && Greetings(s.log) == GreetingsOf(arrivals, s.buffer)
  }
  /** Any run of the server: after any datagrams from anyone at any times, perhaps a receive error, and any wait, the
      table holds once each exactly the endpoints that pinged less than 50 ms ago, each under the address it was last
      given; connects and messages are those that the arrivals amount to; and for every address the callbacks are one
      connect, messages, and one disconnect once it is no longer listed. */
  method RunAll(self: nat, printer: nat, buffer: nat, arrivals: seq<Arrival>, wait: real)
    returns (log: seq<Event>, endpoints: seq<nat>, addresses: seq<nat>)
    requires wait >= 0.0
    ensures forall e: nat ::
              e in endpoints <==> HeardSince(PingsOf(arrivals, buffer), e, TimeOf(arrivals) + wait - EXPIRY)
    ensures forall i, j :: 0 <= i < j < |endpoints| ==> endpoints[i] != endpoints[j]
    ensures |addresses| == |endpoints|
    ensures forall i :: 0 <= i < |addresses| ==> addresses[i] == AddressOf(Births(arrivals, buffer), endpoints[i])
    ensures Greetings(log) == GreetingsOf(arrivals, buffer)
    ensures forall a: nat :: StatusOf(log, a) == if a in addresses then Live
                                                 else if a < |Births(arrivals, buffer)| then Gone else Unknown
  {
    hide PeerLog.StatusOf, PeerLog.Greetings, Probes.LastPing, Probes.Birth, Probes.Recent, Probes.Ordered,
      Surviving, HasAddress, HasEndpoint, Keyed, AddressOf, TimeOf, PingsOf, Births, GreetingsOf, Listening;
    var s := new Server(self, printer, buffer);
    Nothing(s);
    for i := 0 to |arrivals|
      invariant s.Valid() && fresh(s) && s.buffer == buffer && Follows(s, arrivals[..i])
      invariant forall j :: 0 <= j < |s.connections| ==> fresh(s.connections[j])
    {
      assert arrivals[..i + 1] == arrivals[..i] + [arrivals[i]];
      Arrive(s, arrivals[..i], arrivals[i]);
    }
    assert arrivals[..|arrivals|] == arrivals;
    s.AdvanceTo(s.now + wait);
    s.TableIsIndex();
    endpoints, addresses := List(s);
    ListedHas(s.connections, endpoints, addresses);
    log := s.log;
  }

  lemma Nothing(s: Server)
    requires s.now == 0.0 && s.history == [] && s.receives == 1 && s.next == 0 && s.connections == [] && s.log == []
    ensures Follows(s, [])
  {
  }

  /** The table's endpoints and addresses. */
  method List(s: Server) returns (endpoints: seq<nat>, addresses: seq<nat>)
    ensures |endpoints| == |addresses| == |s.connections|
    ensures forall j :: 0 <= j < |endpoints| ==>
              endpoints[j] == s.connections[j].endpoint && addresses[j] == s.connections[j].address
  {
    endpoints, addresses := [], [];
    for i := 0 to |s.connections|
      invariant |endpoints| == |addresses| == i
      invariant forall j :: 0 <= j < i ==>
                  endpoints[j] == s.connections[j].endpoint && addresses[j] == s.connections[j].address
    {
      endpoints := endpoints + [s.connections[i].endpoint];
      addresses := addresses + [s.connections[i].address];
    }
  }

  lemma ListedHas(cs: seq<Connection>, endpoints: seq<nat>, addresses: seq<nat>)
    requires |endpoints| == |addresses| == |cs|
    requires forall j :: 0 <= j < |cs| ==> endpoints[j] == cs[j].endpoint && addresses[j] == cs[j].address
    ensures forall e :: e in endpoints <==> HasEndpoint(cs, e)
    ensures forall a :: a in addresses <==> HasAddress(cs, a)
  {
    forall c | c in cs ensures c.endpoint in endpoints && c.address in addresses {
      var j :| 0 <= j < |cs| && cs[j] == c;
      assert endpoints[j] == c.endpoint && addresses[j] == c.address;
    }
    forall e | e in endpoints ensures HasEndpoint(cs, e) {
      var j :| 0 <= j < |endpoints| && endpoints[j] == e;
      assert cs[j] in cs;
    }
    forall a | a in addresses ensures HasAddress(cs, a) {
      var j :| 0 <= j < |addresses| && addresses[j] == a;
      assert cs[j] in cs;
    }
  }

  /** A receive that fails is the server's last: whatever arrives later, no handler is called but for disconnects, and
      50 ms later the table is empty. */
  lemma {:induction false} FailedReceive(earlier: seq<Arrival>, later: seq<Arrival>, buffer: nat)
    requires !Listening(earlier)
    ensures PingsOf(earlier + later, buffer) == PingsOf(earlier, buffer)
    ensures GreetingsOf(earlier + later, buffer) == GreetingsOf(earlier, buffer)
    ensures !Listening(earlier + later)
    ensures TimeOf(earlier) <= TimeOf(earlier + later)
  {
    hide TimeOf, PingsOf, Births, GreetingsOf, Listening, Recent, Cut;
    if later == [] {
      assert earlier + later == earlier;
    } else {
      var init, last := later[..|later| - 1], later[|later| - 1];
      assert earlier + later == earlier + init + [last];
      FailedReceive(earlier, init, buffer);
      OneMore(earlier + init, last, buffer);
    }
  }

  lemma DeafServerEmpties(earlier: seq<Arrival>, later: seq<Arrival>, buffer: nat, wait: real, endpoint: nat)
    requires !Listening(earlier) && TimeOf(earlier) + EXPIRY <= TimeOf(earlier + later) + wait
    ensures !HeardSince(PingsOf(earlier + later, buffer), endpoint, TimeOf(earlier + later) + wait - EXPIRY)
  {
    FailedReceive(earlier, later, buffer);
    PingsBefore(earlier, buffer);
  }

  lemma {:induction false} PingsBefore(arrivals: seq<Arrival>, buffer: nat)
    ensures forall p :: p in PingsOf(arrivals, buffer) ==> p.at <= TimeOf(arrivals)
  {
    if arrivals != [] {
      PingsBefore(arrivals[..|arrivals| - 1], buffer);
    }
  }
}
