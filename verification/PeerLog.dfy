/** The callbacks of a server, and what they say about one of its connections. */
module PeerLog {
  import opened Bytes

  datatype Event = Connected(peer: nat) | Message(peer: nat, payload: seq<byte>) | Disconnected(peer: nat)

  datatype Status = Unknown | Live | Gone | Broken

  function After(s: Status, e: Event): Status {
    match e
    case Connected(_) => if s == Unknown then Live else Broken
    case Message(_, _) => if s == Live then Live else Broken
    case Disconnected(_) => if s == Live then Gone else Broken
  }

  /** One connect, then messages, then at most one disconnect; anything else is `Broken`. */
  function StatusOf(log: seq<Event>, peer: nat): Status {
    if log == [] then Unknown else
    var before := StatusOf(log[..|log| - 1], peer);
    if log[|log| - 1].peer == peer then After(before, log[|log| - 1]) else before
  }

  /** The log without its disconnects. */
  function Greetings(log: seq<Event>): seq<Event> {
    if log == [] then [] else
    Greetings(log[..|log| - 1]) + if log[|log| - 1].Disconnected? then [] else [log[|log| - 1]]
  }

  lemma StatusAppend(log: seq<Event>, e: Event)
    ensures forall peer :: StatusOf(log + [e], peer)
                        == if e.peer == peer then After(StatusOf(log, peer), e) else StatusOf(log, peer)
    ensures Greetings(log + [e]) == Greetings(log) + if e.Disconnected? then [] else [e]
  {
    assert (log + [e])[..|log|] == log;
  }

  /** The callbacks of one peer. */
  function OfPeer(log: seq<Event>, peer: nat): seq<Event> {
    if log == [] then [] else
    OfPeer(log[..|log| - 1], peer) + if log[|log| - 1].peer == peer then [log[|log| - 1]] else []
  }

  /** A connect, and then nothing but messages. */
  predicate Talks(events: seq<Event>, peer: nat) {
    events != [] && events[0] == Connected(peer) && forall i :: 0 < i < |events| ==> events[i].Message?
  }

  /** What the status of a peer says about its callbacks: none; a connect and then messages; or these and a
      disconnect. */
  lemma {:induction false} Shape(log: seq<Event>, peer: nat)
    ensures forall e :: e in OfPeer(log, peer) ==> e.peer == peer
    ensures StatusOf(log, peer) == Unknown <==> OfPeer(log, peer) == []
    ensures StatusOf(log, peer) == Live <==> Talks(OfPeer(log, peer), peer)
    ensures StatusOf(log, peer) == Gone <==>
              var events, n := OfPeer(log, peer), |OfPeer(log, peer)|;
              n > 0 && events[n - 1] == Disconnected(peer) && Talks(events[..n - 1], peer)
  {
    if log != [] {
      var init, e := log[..|log| - 1], log[|log| - 1];
      Shape(init, peer);
      if e.peer == peer { TalksOn(OfPeer(init, peer), e, peer); }
    }
  }

  lemma TalksOn(events: seq<Event>, e: Event, peer: nat)
    requires e.peer == peer
    ensures Talks(events + [e], peer) <==> (if events == [] then e.Connected? else Talks(events, peer) && e.Message?)
    ensures (events + [e])[..|events|] == events
  {
    var all := events + [e];
    assert forall i :: 0 <= i < |events| ==> all[i] == events[i];
    assert all[|events|] == e;
  }

  /** What one peer said, in order. */
  function MessagesOf(log: seq<Event>, peer: nat): seq<seq<byte>> {
    if log == [] then [] else
    var e := log[|log| - 1];
    MessagesOf(log[..|log| - 1], peer) + if e.Message? && e.peer == peer then [e.payload] else []
  }

  lemma {:induction false} MessagesAppend(a: seq<Event>, b: seq<Event>, peer: nat)
    requires |b| <= 1
    ensures MessagesOf(a + b, peer)
              == MessagesOf(a, peer) + if b != [] && b[0].Message? && b[0].peer == peer then [b[0].payload] else []
  {
    if b == [] {
      assert a + b == a;
    } else {
      assert (a + b)[..|a|] == a;
    }
  }

  /** Disconnects do not count for it. */
  lemma {:induction false} MessagesInGreetings(log: seq<Event>, peer: nat)
    ensures MessagesOf(Greetings(log), peer) == MessagesOf(log, peer)
  {
    if log != [] {
      hide MessagesOf, Greetings;
      var init, e := log[..|log| - 1], log[|log| - 1];
      MessagesInGreetings(init, peer);
      StatusAppend(init, e);
      MessagesAppend(Greetings(init), if e.Disconnected? then [] else [e], peer);
      MessagesAppend(init, [e], peer);
      assert log == init + [e];
    }
  }

  lemma {:induction false} UnknownSaysNothing(log: seq<Event>, peer: nat)
    requires StatusOf(log, peer) == Unknown
    ensures MessagesOf(log, peer) == []
  {
    if log != [] {
      UnknownSaysNothing(log[..|log| - 1], peer);
    }
  }
}
