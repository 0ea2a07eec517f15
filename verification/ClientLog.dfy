/** The callbacks of a client, which has one peer: ready and connect together, messages, disconnect, and again. */
module ClientLog {
  import opened Bytes

  datatype Event = Ready | Connect | Message(payload: seq<byte>) | Disconnect

  datatype Phase = Out | Announced | In | Broken

  /** `datagram` clients hand over messages in any phase, stream clients only while connected. */
  function After(p: Phase, e: Event, datagram: bool): Phase {
    match e
    case Ready => if p == Out then Announced else Broken
    case Connect => if p == Announced then In else Broken
    case Message(_) => if p == In || (p == Out && datagram) then p else Broken
    case Disconnect => if p == In then Out else Broken
  }

  /** Where a log leaves the client; `Broken` if the callbacks did not alternate. */
  function PhaseOf(log: seq<Event>, datagram: bool): Phase {
    if log == [] then Out else After(PhaseOf(log[..|log| - 1], datagram), log[|log| - 1], datagram)
  }

  lemma PhaseAppend(log: seq<Event>, e: Event, datagram: bool)
    ensures PhaseOf(log + [e], datagram) == After(PhaseOf(log, datagram), e, datagram)
  {
    assert (log + [e])[..|log|] == log;
  }

  function Count(log: seq<Event>, e: Event): nat {
    if log == [] then 0 else Count(log[..|log| - 1], e) + if log[|log| - 1] == e then 1 else 0
  }

  /** What alternation means in numbers: connects lead disconnects by one while connected, else by none. */
  lemma {:induction false} Alternation(log: seq<Event>, datagram: bool)
    requires PhaseOf(log, datagram) != Broken
    ensures Count(log, Connect) == Count(log, Disconnect) + if PhaseOf(log, datagram) == In then 1 else 0
    ensures Count(log, Ready) == Count(log, Connect) + if PhaseOf(log, datagram) == Announced then 1 else 0
  {
    if log != [] {
      Alternation(log[..|log| - 1], datagram);
    }
  }

  /** And callback by callback: a ready when neither ready nor connected, a connect right after it, a disconnect when
      connected, and for a stream client a message only then. */
  lemma {:induction false} InTurn(log: seq<Event>, datagram: bool, i: nat)
    requires PhaseOf(log, datagram) != Broken && i < |log|
    ensures log[i] == Ready ==> Count(log[..i], Ready) == Count(log[..i], Disconnect)
    ensures log[i] == Connect ==> i > 0 && log[i - 1] == Ready
    ensures log[i] == Disconnect || (log[i].Message? && !datagram) ==>
              Count(log[..i], Connect) == Count(log[..i], Disconnect) + 1
    ensures log[i] == Ready && i + 1 < |log| ==> log[i + 1] == Connect
  {
    var init, n := log[..|log| - 1], |log| - 1;
    if i < n {
      InTurn(init, datagram, i);
      assert init[..i] == log[..i];
    } else {
      Alternation(init, datagram);
      assert init == log[..i];
    }
    if n > 0 { assert init[n - 1] == log[n - 1] && init[..n - 1] == log[..n - 1]; }
  }

  /** What the server said, in order. */
  function Messages(log: seq<Event>): seq<seq<byte>> {
    if log == [] then [] else
    Messages(log[..|log| - 1]) + if log[|log| - 1].Message? then [log[|log| - 1].payload] else []
  }

  lemma MessagesAppend(log: seq<Event>, e: Event)
    ensures Messages(log + [e]) == Messages(log) + if e.Message? then [e.payload] else []
  {
    assert (log + [e])[..|log|] == log;
  }
}
