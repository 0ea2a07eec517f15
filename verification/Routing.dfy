/** Who is written to by `publish`, `publish_ex` and `send`, transport by transport and through a gateway. */
module Routing {
  import opened Ids

  /** `publish_ex`: every connection that is not listed. */
  function Unlisted(connections: seq<ID>, ids: seq<ID>): seq<ID> {
    if connections == [] then [] else
    (if connections[0] in ids then [] else [connections[0]]) + Unlisted(connections[1..], ids)
  }

  /** tcp and WebSocket `send`: for every listed id in turn, the connection that has it, if there is one. */
  function ListedInTurn(connections: seq<ID>, ids: seq<ID>): seq<ID> {
    if ids == [] then [] else
    (if ids[0] in connections then [ids[0]] else []) + ListedInTurn(connections, ids[1..])
  }

  /** The udp server compares owner and connection only, not the printer. */
  predicate SamePeer(a: ID, b: ID) { a.owner == b.owner && a.ref == b.ref }

  predicate ListsPeer(ids: seq<ID>, c: ID) { exists i :: 0 <= i < |ids| && SamePeer(ids[i], c) }

  /** udp `send` (`listed`) and `publish_ex` (not `listed`): one pass over the connections. */
  function Filtered(connections: seq<ID>, ids: seq<ID>, listed: bool): seq<ID> {
    if connections == [] then [] else
    (if ListsPeer(ids, connections[0]) == listed then [connections[0]] else [])
    + Filtered(connections[1..], ids, listed)
  }

  predicate Distinct(s: seq<ID>) { forall i, j :: 0 <= i < j < |s| ==> s[i] != s[j] }

  lemma {:induction false} UnlistedCount(connections: seq<ID>, ids: seq<ID>, c: ID)
    ensures multiset(Unlisted(connections, ids))[c] == if c in ids then 0 else multiset(connections)[c]
  {
    if connections != [] {
      UnlistedCount(connections[1..], ids, c);
      assert connections == [connections[0]] + connections[1..];
    }
  }

  lemma {:induction false} ListedCount(connections: seq<ID>, ids: seq<ID>, c: ID)
    ensures multiset(ListedInTurn(connections, ids))[c] == if c in connections then multiset(ids)[c] else 0
  {
    if ids != [] {
      ListedCount(connections, ids[1..], c);
      assert ids == [ids[0]] + ids[1..];
    }
  }

  lemma {:induction false} FilteredCount(connections: seq<ID>, ids: seq<ID>, listed: bool, c: ID)
    ensures multiset(Filtered(connections, ids, listed))[c]
         == if ListsPeer(ids, c) == listed then multiset(connections)[c] else 0
  {
    if connections != [] {
      FilteredCount(connections[1..], ids, listed, c);
      assert connections == [connections[0]] + connections[1..];
    }
  }

  lemma {:induction false} DistinctCount(s: seq<ID>, c: ID)
    requires Distinct(s)
    ensures multiset(s)[c] == if c in s then 1 else 0
  {
    if s != [] {
      assert s == [s[0]] + s[1..];
      DistinctCount(s[1..], c);
    }
  }

  /** tcp and WebSocket: `send(ids)` and `publish_ex(ids)` split `publish`, each connection written once, iff no
      connection is listed more than once. A repeated id of a connection is written as often as it is repeated. */
  lemma RegistryPartition(connections: seq<ID>, ids: seq<ID>)
    requires Distinct(connections)
    ensures multiset(ListedInTurn(connections, ids)) + multiset(Unlisted(connections, ids)) == multiset(connections)
            <==> forall c :: c in connections ==> multiset(ids)[c] <= 1
    ensures forall c :: c in connections ==> multiset(ListedInTurn(connections, ids))[c] == multiset(ids)[c]
  {
    forall c: ID
      ensures multiset(ListedInTurn(connections, ids))[c] == if c in connections then multiset(ids)[c] else 0
      ensures multiset(Unlisted(connections, ids))[c] == if c in ids || c !in connections then 0 else 1
      ensures multiset(connections)[c] == if c in connections then 1 else 0
    {
      ListedCount(connections, ids, c);
      UnlistedCount(connections, ids, c);
      DistinctCount(connections, c);
    }
    var both := multiset(ListedInTurn(connections, ids)) + multiset(Unlisted(connections, ids));
    if both == multiset(connections) {
      forall c | c in connections ensures multiset(ids)[c] <= 1 {
        assert both[c] == multiset(connections)[c];
      }
    }
    if forall c :: c in connections ==> multiset(ids)[c] <= 1 {
      forall c: ID ensures both[c] == multiset(connections)[c] {}
      assert both == multiset(connections);
    }
  }

  /** udp: they always split it, however often an id is repeated. */
  lemma DatagramPartition(connections: seq<ID>, ids: seq<ID>)
    ensures multiset(Filtered(connections, ids, true)) + multiset(Filtered(connections, ids, false))
         == multiset(connections)
  {
    var both := multiset(Filtered(connections, ids, true)) + multiset(Filtered(connections, ids, false));
    forall c: ID ensures both[c] == multiset(connections)[c] {
      FilteredCount(connections, ids, true, c);
      FilteredCount(connections, ids, false, c);
    }
    assert both == multiset(connections);
  }

  // ---- Several services behind a gateway ----

  /** How a service routes: a tcp or WebSocket registry, a udp server, or a service with one peer (pipe, tcp, ws and udp
      client), which writes at most once. */
  datatype Service = Registry(connections: seq<ID>) | Datagram(connections: seq<ID>) | Single(peer: Option<ID>)

  datatype Op = Publish | PublishEx(ids: seq<ID>) | Send(ids: seq<ID>)

  function Peers(s: Service): seq<ID> {
    match s
    case Registry(c) => c
    case Datagram(c) => c
    case Single(p) => if p.Some? then [p.value] else []
  }

  function Recipients(s: Service, op: Op): seq<ID> {
    match op
    case Publish => Peers(s)
    case PublishEx(ids) => if s.Datagram? then Filtered(s.connections, ids, false) else Unlisted(Peers(s), ids)
    case Send(ids) =>
      match s
      case Registry(c) => ListedInTurn(c, ids)
      case Datagram(c) => Filtered(c, ids, true)
      case Single(p) => if p.Some? && p.value in ids then [p.value] else []
  }

  /** The gateway hands the request to every service in turn. */
  function Fanned(services: seq<Service>, op: Op): seq<ID> {
    if services == [] then [] else Recipients(services[0], op) + Fanned(services[1..], op)
  }

  /** Whom a request reaches. `publish`: everyone. `send`: those that are listed; on udp an id lists the peer whose
      owner and connection it has, elsewhere the one whose id it is. `publish_ex`: those that are not. */
  lemma Reaches(s: Service, ids: seq<ID>, c: ID)
    ensures c in Recipients(s, Publish) <==>
              match s case Registry(cs) => c in cs case Datagram(cs) => c in cs case Single(p) => p == Some(c)
    ensures c in Recipients(s, Send(ids)) <==>
              match s
              case Registry(cs) => c in cs && c in ids
              case Datagram(cs) =>
                c in cs && exists i :: 0 <= i < |ids| && ids[i].owner == c.owner && ids[i].ref == c.ref
              case Single(p) => p == Some(c) && c in ids
    ensures c in Recipients(s, PublishEx(ids)) <==>
              match s
              case Registry(cs) => c in cs && c !in ids
              case Datagram(cs) =>
                c in cs && !exists i :: 0 <= i < |ids| && ids[i].owner == c.owner && ids[i].ref == c.ref
              case Single(p) => p == Some(c) && c !in ids
  {
    match s
    case Registry(cs) =>
      ListedCount(cs, ids, c);
      UnlistedCount(cs, ids, c);
    case Datagram(cs) =>
      FilteredCount(cs, ids, true, c);
      FilteredCount(cs, ids, false, c);
      assert ListsPeer(ids, c) <==> exists i :: 0 <= i < |ids| && SamePeer(ids[i], c);
    case Single(p) =>
      if p.Some? { OneUnlisted(p.value, ids); }
  }

  /** How often: `publish_ex` and, on udp or with one peer, `send` write to each of them once; on tcp and WebSocket
      `send` as often as the id is listed, in the order of the list. */
  lemma ReachesTimes(s: Service, ids: seq<ID>, c: ID)
    requires Distinct(Peers(s))
    ensures multiset(Recipients(s, Publish))[c] == if c in Recipients(s, Publish) then 1 else 0
    ensures multiset(Recipients(s, PublishEx(ids)))[c] == if c in Recipients(s, PublishEx(ids)) then 1 else 0
    ensures multiset(Recipients(s, Send(ids)))[c] == if c !in Recipients(s, Send(ids)) then 0
                                                     else if s.Registry? then multiset(ids)[c] else 1
  {
    DistinctCount(Peers(s), c);
    match s
    case Registry(cs) =>
      ListedCount(cs, ids, c);
      UnlistedCount(cs, ids, c);
    case Datagram(cs) =>
      FilteredCount(cs, ids, true, c);
      FilteredCount(cs, ids, false, c);
    case Single(p) =>
      if p.Some? { OneUnlisted(p.value, ids); }
  }

  /** Through a gateway: whom some service of it reaches. */
  lemma {:induction false} FannedReaches(services: seq<Service>, op: Op, c: ID)
    ensures c in Fanned(services, op) <==> exists s :: s in services && c in Recipients(s, op)
  {
    if services != [] {
      FannedReaches(services[1..], op, c);
      assert forall s :: s in services <==> s == services[0] || s in services[1..];
    }
  }

  /** No registry has a connection that is listed twice; other services do not care. */
  predicate ListedOnce(s: Service, ids: seq<ID>) {
    s.Registry? ==> forall c :: c in s.connections ==> multiset(ids)[c] <= 1
  }

  predicate WellFormed(services: seq<Service>) { forall s :: s in services ==> Distinct(Peers(s)) }

  lemma OneUnlisted(c: ID, ids: seq<ID>)
    ensures Unlisted([c], ids) == if c in ids then [] else [c]
  {
    assert [c][1..] == [];
  }

  lemma ServicePartition(s: Service, ids: seq<ID>)
    requires Distinct(Peers(s))
    ensures multiset(Recipients(s, Send(ids))) + multiset(Recipients(s, PublishEx(ids)))
            == multiset(Recipients(s, Publish))
            <==> ListedOnce(s, ids)
    ensures forall c: ID :: multiset(Recipients(s, Send(ids)))[c] + multiset(Recipients(s, PublishEx(ids)))[c]
              >= multiset(Recipients(s, Publish))[c]
  {
    match s
    case Registry(connections) =>
      RegistryPartition(connections, ids);
      forall c: ID
        ensures multiset(Recipients(s, Send(ids)))[c] + multiset(Recipients(s, PublishEx(ids)))[c]
             >= multiset(connections)[c]
      {
        ListedCount(connections, ids, c);
        UnlistedCount(connections, ids, c);
        DistinctCount(connections, c);
      }
    case Datagram(connections) => DatagramPartition(connections, ids);
    case Single(peer) =>
      if peer.Some? {
        OneUnlisted(peer.value, ids);
      }
  }

  /** Through a gateway, for any services: the recipients of `send(ids)` and of `publish_ex(ids)` together are exactly
      those of `publish` iff every registry's connections are listed at most once; no recipient is ever lost. */
  lemma {:induction false} GatewayPartition(services: seq<Service>, ids: seq<ID>)
    requires WellFormed(services)
    ensures multiset(Fanned(services, Send(ids))) + multiset(Fanned(services, PublishEx(ids)))
            == multiset(Fanned(services, Publish))
            <==> forall s :: s in services ==> ListedOnce(s, ids)
    ensures forall c: ID :: multiset(Fanned(services, Send(ids)))[c] + multiset(Fanned(services, PublishEx(ids)))[c]
              >= multiset(Fanned(services, Publish))[c]
  {
    hide Recipients, ListedOnce;
    if services != [] {
      var s, rest := services[0], services[1..];
      assert services == [s] + rest;
      ServicePartition(s, ids);
      GatewayPartition(rest, ids);
      var a := multiset(Recipients(s, Send(ids))) + multiset(Recipients(s, PublishEx(ids)));
      var b := multiset(Fanned(rest, Send(ids))) + multiset(Fanned(rest, PublishEx(ids)));
      SumsAgree(a, b, multiset(Recipients(s, Publish)), multiset(Fanned(rest, Publish)));
      FannedSum(services, ids);
    }
  }

  lemma FannedSum(services: seq<Service>, ids: seq<ID>)
    requires services != []
    ensures multiset(Fanned(services, Send(ids))) + multiset(Fanned(services, PublishEx(ids)))
         == multiset(Recipients(services[0], Send(ids))) + multiset(Recipients(services[0], PublishEx(ids)))
          + (multiset(Fanned(services[1..], Send(ids))) + multiset(Fanned(services[1..], PublishEx(ids))))
    ensures multiset(Fanned(services, Publish))
         == multiset(Recipients(services[0], Publish)) + multiset(Fanned(services[1..], Publish))
  {
    hide Recipients;
  }

  lemma SumsAgree(a: multiset<ID>, b: multiset<ID>, a': multiset<ID>, b': multiset<ID>)
    requires forall c: ID :: a[c] >= a'[c]
    requires forall c: ID :: b[c] >= b'[c]
    ensures a + b == a' + b' <==> a == a' && b == b'
  {
    if a + b == a' + b' {
      forall c: ID ensures a[c] == a'[c] && b[c] == b'[c] {
        assert (a + b)[c] == (a' + b')[c];
      }
      assert a == a' && b == b';
    }
  }

  /** Each peer of services with distinct owners is one of `send` and `publish_ex`, never both. */
  lemma {:induction false} GatewayDisjoint(services: seq<Service>, ids: seq<ID>, owners: seq<nat>)
    requires |owners| == |services| && forall i, j :: 0 <= i < j < |owners| ==> owners[i] != owners[j]
    requires forall i :: 0 <= i < |services| ==> OwnedBy(services[i], owners[i])
    ensures forall c :: c in Fanned(services, Send(ids)) ==> c !in Fanned(services, PublishEx(ids))
  {
    hide Recipients;
    if services != [] {
      GatewayDisjoint(services[1..], ids, owners[1..]);
      var s, rest := services[0], services[1..];
      forall c | c in Fanned(services, Send(ids)) ensures c !in Fanned(services, PublishEx(ids)) {
        ServiceDisjoint(s, ids, c);
        RecipientIsPeer(s, Send(ids), c);
        RecipientIsPeer(s, PublishEx(ids), c);
        FannedOwners(rest, Send(ids), owners[1..], c);
        FannedOwners(rest, PublishEx(ids), owners[1..], c);
        if c.owner == owners[0] {
          assert owners[0] !in owners[1..];
          assert c in Recipients(s, Send(ids));
        } else {
          assert c in Fanned(rest, Send(ids));
        }
      }
    }
  }

  /** And `publish` writes to each of them once. With `GatewayPartition` and `GatewayDisjoint`: when no registry's
      connection is listed twice, each is written once by exactly one of the two. */
  lemma {:induction false} GatewayOnce(services: seq<Service>, owners: seq<nat>, c: ID)
    requires WellFormed(services)
    requires |owners| == |services| && forall i, j :: 0 <= i < j < |owners| ==> owners[i] != owners[j]
    requires forall i :: 0 <= i < |services| ==> OwnedBy(services[i], owners[i])
    ensures multiset(Fanned(services, Publish))[c] == if c in Fanned(services, Publish) then 1 else 0
  {
    if services != [] {
      var s, rest := services[0], services[1..];
      assert forall r :: r in rest ==> r in services;
      GatewayOnce(rest, owners[1..], c);
      DistinctCount(Peers(s), c);
      FannedOwners(rest, Publish, owners[1..], c);
      assert owners[0] !in owners[1..];
    }
  }

  predicate OwnedBy(s: Service, owner: nat) { forall c :: c in Peers(s) ==> c.owner == owner }

  lemma RecipientIsPeer(s: Service, op: Op, c: ID)
    ensures c in Recipients(s, op) ==> c in Peers(s)
  {
    match op
    case Publish =>
    case PublishEx(ids) =>
      if s.Datagram? { FilteredCount(s.connections, ids, false, c); } else { UnlistedCount(Peers(s), ids, c); }
    case Send(ids) =>
      match s
      case Registry(cs) => ListedCount(cs, ids, c);
      case Datagram(cs) => FilteredCount(cs, ids, true, c);
      case Single(_) =>
  }

  lemma ServiceDisjoint(s: Service, ids: seq<ID>, c: ID)
    ensures c in Recipients(s, Send(ids)) ==> c !in Recipients(s, PublishEx(ids))
  {
    if s.Datagram? {
      FilteredCount(s.connections, ids, true, c);
      FilteredCount(s.connections, ids, false, c);
    } else {
      UnlistedCount(Peers(s), ids, c);
      if s.Registry? { ListedCount(s.connections, ids, c); }
    }
  }

  lemma {:induction false} FannedOwners(services: seq<Service>, op: Op, owners: seq<nat>, c: ID)
    requires |owners| == |services| && forall i :: 0 <= i < |services| ==> OwnedBy(services[i], owners[i])
    ensures c in Fanned(services, op) ==> c.owner in owners
  {
    if services != [] {
      RecipientIsPeer(services[0], op, c);
      FannedOwners(services[1..], op, owners[1..], c);
    }
  }
}
