/** The whole stack over one pipe: values, one buffer, frames among probes, any chunking, tag dispatch, values. */
module Stack {
  import opened Bytes
  import opened Framing
  import opened Ids
  import opened PipeSpec
  import opened Codec
  import Pipe
  import TcpConnection

  /** `publish(concat(tag, fields...))`. */
  datatype Letter = Letter(tag: Value, fields: seq<Value>)

  /** What `map` makes of a message: a handler call, with what the handler consumed and left over; no handler for the
      tag; or no tag. */
  datatype Call = Call(handler: nat, taken: Taken) | Nobody | NoTag

  /** What the writer's strand does: publish a letter, or a 25 ms probe. */
  datatype Act = Post(letter: Letter) | Probe

  function Payload(l: Letter): seq<byte>
    requires Sendable(l)
  {
    Serials([l.tag] + l.fields)
  }

  /** A letter the codec can read back, and which is not the empty payload that the pipe keeps for probes. */
  predicate Sendable(l: Letter) {
    && AllTyped([l.tag] + l.fields) && Flat([l.tag] + l.fields) && StringsLast([l.tag] + l.fields)
    && 0 < Sizes([l.tag] + l.fields) < U64_LIMIT
  }

  /** The letters of a script, in order. */
  function Letters(script: seq<Act>): seq<Letter> {
    if script == [] then [] else
    Letters(script[..|script| - 1]) + match script[|script| - 1] case Post(l) => [l] case Probe => []
  }

  function Payloads(letters: seq<Letter>): (r: seq<seq<byte>>)
    requires forall l :: l in letters ==> Sendable(l)
    ensures |r| == |letters| && forall i :: 0 <= i < |r| ==> r[i] == Payload(letters[i])
  {
    seq(|letters|, i requires 0 <= i < |letters| => Payload(letters[i]))
  }

  lemma {:induction false} LettersAreSent(script: seq<Act>)
    ensures forall l :: l in Letters(script) ==> Act.Post(l) in script
  {
    if script != [] {
      LettersAreSent(script[..|script| - 1]);
    }
  }

  lemma PayloadSize(l: Letter)
    requires Sendable(l)
    ensures 0 < |Payload(l)| == Sizes([l.tag] + l.fields) < U64_LIMIT
  {
    SerialsSize([l.tag] + l.fields);
  }

  lemma LetterParts(l: Letter)
    requires Sendable(l)
    ensures Typed(l.tag) && !l.tag.Arr? && AllTyped(l.fields) && Flat(l.fields)
  {
    assert l.tag in [l.tag] + l.fields;
    assert forall v :: v in l.fields ==> v in [l.tag] + l.fields;
  }

  /** The first mapping with this tag. */
  function FirstWith(table: seq<Mapping>, tag: Value): Option<Mapping> {
    if table == [] then None else if table[0].tag == tag then Some(table[0]) else FirstWith(table[1..], tag)
  }

  lemma {:induction false} FirstWithIsFirst(table: seq<Mapping>, tag: Value)
    ensures FirstWith(table, tag).None? <==> forall i :: 0 <= i < |table| ==> table[i].tag != tag
    ensures forall i: nat :: IsFirst(table, tag, i) ==> FirstWith(table, tag) == Some(table[i])
  {
    if table != [] {
      FirstWithIsFirst(table[1..], tag);
      forall i: nat | IsFirst(table, tag, i) ensures FirstWith(table, tag) == Some(table[i]) {
        if i > 0 {
          assert table[0].tag != tag;
          assert IsFirst(table[1..], tag, i - 1);
        }
      }
      assert table == [table[0]] + table[1..];
    }
  }

  /** The first registered wins: handlers for the same tag that come later do not count. */
  lemma {:induction false} FirstWins(before: seq<Mapping>, m: Mapping, after: seq<Mapping>)
    requires forall other :: other in before ==> other.tag != m.tag
    ensures FirstWith(before + [m] + after, m.tag) == Some(m)
  {
    if before == [] {
      assert ([m] + after)[0] == m;
      assert [] + [m] == [m];
    } else {
      FirstWins(before[1..], m, after);
      assert (before + [m] + after)[0] == before[0] && (before + [m] + after)[1..] == before[1..] + [m] + after;
    }
  }

  /** A `map` with this tag type, given any payload. */
  function Dispatch(tagType: Type, table: seq<Mapping>, payload: seq<byte>): Call {
    match Take(tagType, payload)
    case OutOfBounds => NoTag
    case Took(tag, rest) =>
      match FirstWith(table, tag)
      case None => Nobody
      case Some(m) => Call(m.handler, TakeAll(m.types, rest))
  }

  /** A letter in a `map` of its tag's type: the first handler registered for its tag is called, and it gets exactly the
      fields with nothing left over iff its signature is that of the fields. Without one there is no call. */
  predicate Handled(table: seq<Mapping>, l: Letter, call: Call)
    requires Sendable(l)
  {
    LetterParts(l);
    match FirstWith(table, l.tag)
    case None => call == Nobody
    case Some(m) =>
      && call.Call? && call.handler == m.handler
      && call.taken == TakeAll(m.types, Serials(l.fields))
      && (call.taken == AllTook(l.fields, []) <==> m.types == TypesOf(l.fields))
  }

  /** The tag comes off first and leaves exactly the fields, whatever the handler then makes of them. */
  lemma DispatchHandles(table: seq<Mapping>, l: Letter)
    requires Sendable(l)
    ensures !l.tag.Arr? && Handled(table, l, Dispatch(TypeOf(l.tag), table, Payload(l)))
  {
    var all := [l.tag] + l.fields;
    assert all[0] == l.tag && all[1..] == l.fields;
    LetterParts(l);
    StringsLastTail(all);
    TakeSerial(l.tag, Serials(l.fields));
    SerialsSize(l.fields);
    if l.tag.Str? {
      assert Serials(l.fields) == [];
      assert l.tag.chars + [] == l.tag.chars;
    }
    var m := FirstWith(table, l.tag);
    if m.Some? {
      ExactTypes(m.value.types, l.fields);
    }
  }

  ghost predicate Writing(w: Pipe.Service)
    reads w, w.rBuffer
  {
    w.Valid() && w.Abs().writer && w.Abs().mode == Reading && !w.stopped && w.tasks == []
  }

  /** The frame that an act puts on the wire. */
  function FrameOf(act: Act): Framing.Payload
    requires act.Post? ==> Sendable(act.letter)
  {
    match act
    case Probe => []
    case Post(l) => PayloadSize(l); Payload(l)
  }

  method Perform(host: Host, w: Pipe.Service, act: Act)
    requires Writing(w) && (act.Post? ==> Sendable(act.letter))
    modifies w, w.rBuffer
    ensures Writing(w) && w.sent == old(w.sent) + [FrameOf(act)]
    ensures w.rBuffer == old(w.rBuffer) || fresh(w.rBuffer)
  {
    hide Framing.Parse, Framing.First, PipeSpec.LogOf, Framing.Resume, Framing.Held;
    match act
    case Probe =>
      w.Handle(ProbeTimer);
    case Post(l) =>
      PayloadSize(l);
      var message := Concat(host, [l.tag] + l.fields);
      w.Handle(Input.Post(Publish(message[..])));
      w.Handle(RunTask);
  }

  function Sent(script: seq<Act>): seq<Framing.Payload>
    requires forall l :: Act.Post(l) in script ==> Sendable(l)
  {
    if script == [] then [] else Sent(script[..|script| - 1]) + [FrameOf(script[|script| - 1])]
  }

  /** Every frame is a probe or the payload of a letter of the script. */
  lemma {:induction false} SentComesFromScript(script: seq<Act>)
    requires forall l :: Act.Post(l) in script ==> Sendable(l)
    ensures |Sent(script)| == |script|
    ensures forall i :: 0 <= i < |script| ==>
              (script[i].Post? ==> Sendable(script[i].letter)) && Sent(script)[i] == FrameOf(script[i])
  {
    forall i | 0 <= i < |script| && script[i].Post? ensures Sendable(script[i].letter) {
      assert script[i] in script;
    }
    if script != [] {
      SentComesFromScript(script[..|script| - 1]);
    }
  }

  lemma {:induction false} SentIsLetters(script: seq<Act>)
    requires forall l :: Act.Post(l) in script ==> Sendable(l)
    ensures forall l :: l in Letters(script) ==> Sendable(l)
    ensures NonEmpty(Sent(script)) == Payloads(Letters(script))
  {
    hide Sendable, Payload;
    LettersAreSent(script);
    if script != [] {
      var init, last := script[..|script| - 1], script[|script| - 1];
      SentIsLetters(init);
      assert last in script;
      NonEmptyAppend(Sent(init), FrameOf(last));
      if last.Post? {
        PayloadSize(last.letter);
      }
    }
  }

  /** The writer's side. */
  method WriteAll(host: Host, o: Options, script: seq<Act>) returns (wire: seq<byte>)
    requires o.makeRead && o.makeWrite
    requires forall l :: Act.Post(l) in script ==> Sendable(l)
    ensures wire == Wire(Sent(script))
  {
    hide Framing.Parse, Framing.First, PipeSpec.LogOf, Framing.Resume, Framing.Held;
    var w := new Pipe.Service(o, host, 0, 1);
    for i := 0 to |script|
      invariant Writing(w) && fresh(w) && fresh(w.rBuffer) && w.sent == Sent(script[..i])
    {
      assert script[..i + 1][..i] == script[..i] && script[..i + 1][i] == script[i];
      assert script[i] in script;
      Perform(host, w, script[i]);
    }
    assert script[..|script|] == script;
    return w.wire;
  }

  /** The reader's handler: `map`, then `consume` of the types that the chosen handler expects. */
  method Receive(host: Host, tagType: Type, table: seq<Mapping>, payload: seq<byte>) returns (call: Call)
    ensures call == Dispatch(tagType, table, payload)
  {
    var routed := Route(host, tagType, table, payload);
    if routed.BadTag? {
      return NoTag;
    }
    FirstWithIsFirst(table, Take(tagType, payload).value);
    match routed
    case Called(mapping, rest) =>
      var taken := ConsumeAll(host, mapping.types, rest);
      return Call(mapping.handler, taken);
    case NoHandler => return Nobody;
  }

  /** Full stack. The letters of the script are published on one pipe, probes in between; the peer reads the bytes in
      any chunks, with any would-blocks, into a buffer that every payload fits. Its callbacks are one connect and then
      one message a letter, in order. Each message goes through a `map` that knows nothing of the letters but one tag
      type and its handlers' signatures: a letter whose tag has that type calls the first handler for it, which gets
      exactly the fields with nothing left over iff its signature is that of the fields. */
  method FullStack(host: Host, peer: Host, o: Options, script: seq<Act>, turns: seq<Pipe.Turn>,
                   tagType: Type, table: seq<Mapping>)
    returns (log: seq<Event>, calls: seq<Call>)
    requires o.makeRead && o.makeWrite
    requires forall l :: Act.Post(l) in script ==> Sendable(l) && Sizes([l.tag] + l.fields) <= o.limit
    ensures forall l :: l in Letters(script) ==> Sendable(l)
    ensures log == (if script == [] then [] else [Connect]) + Each(Payloads(Letters(script)))
    ensures |calls| == |Letters(script)|
    ensures forall i :: 0 <= i < |calls| ==>
              calls[i] == Dispatch(tagType, table, Payload(Letters(script)[i]))
              && (HasType(Letters(script)[i].tag, tagType) ==> Handled(table, Letters(script)[i], calls[i]))
  {
    SentIsLetters(script);
    var wire := WriteAll(host, o, script);
    log := ReadAll(peer, o, script, wire, turns);
    calls := HandleAll(peer, tagType, table, Letters(script), log);
    forall i | 0 <= i < |calls| && HasType(Letters(script)[i].tag, tagType)
      ensures Handled(table, Letters(script)[i], calls[i])
    {
      DispatchHandles(table, Letters(script)[i]);
    }
  }

  predicate HasType(v: Value, t: Type) { !v.Arr? && TypeOf(v) == t }

  method ReadAll(peer: Host, o: Options, ghost script: seq<Act>, wire: seq<byte>, turns: seq<Pipe.Turn>)
    returns (log: seq<Event>)
    requires o.makeRead
    requires forall l :: Act.Post(l) in script ==> Sendable(l) && Sizes([l.tag] + l.fields) <= o.limit
    requires wire == Wire(Sent(script))
    ensures forall l :: l in Letters(script) ==> Sendable(l)
    ensures log == (if script == [] then [] else [Connect]) + Each(Payloads(Letters(script)))
  {
    hide Framing.Parse, PipeSpec.LogOf, PipeSpec.Each, Payloads;
    SentIsLetters(script);
    ghost var sent := Sent(script);
    SentFits(script, o.limit);
    SentComesFromScript(script);
    ParseWire(sent, o.limit);
    if sent != [] { assert |Wire(sent)| >= |Frame(sent[0])| >= HEADER; }
    var lost;
    log, lost := Pipe.DeliverThrough(o, peer, wire, turns);
    assert !lost;
  }

  lemma SentFits(script: seq<Act>, limit: nat)
    requires forall l :: Act.Post(l) in script ==> Sendable(l) && Sizes([l.tag] + l.fields) <= limit
    ensures Accepted(Sent(script), limit) == Sent(script)
  {
    SentComesFromScript(script);
    forall i | 0 <= i < |script| ensures |Sent(script)[i]| <= limit {
      if script[i].Post? {
        assert script[i] in script;
        PayloadSize(script[i].letter);
      }
    }
    AllAccepted(Sent(script), limit);
  }

  method HandleAll(peer: Host, tagType: Type, table: seq<Mapping>, ghost letters: seq<Letter>, log: seq<Event>)
    returns (calls: seq<Call>)
    requires forall l :: l in letters ==> Sendable(l)
    requires log == Each(Payloads(letters)) || log == [Connect] + Each(Payloads(letters))
    ensures |calls| == |letters|
    ensures forall i :: 0 <= i < |calls| ==> calls[i] == Dispatch(tagType, table, Payload(letters[i]))
  {
    calls := [];
    ghost var before := |log| - |letters|;
    for i := 0 to |log|
      invariant |calls| == if i < before then 0 else i - before
      invariant forall j :: 0 <= j < |calls| ==> calls[j] == Dispatch(tagType, table, Payload(letters[j]))
    {
      if log[i].Message? {
        var call := Receive(peer, tagType, table, log[i].payload);
        calls := calls + [call];
      }
    }
  }

  lemma {:induction false} AllAccepted(frames: seq<Framing.Payload>, limit: nat)
    requires forall p :: p in frames ==> |p| <= limit
    ensures Accepted(frames, limit) == frames
  {
    if frames != [] {
      AllAccepted(frames[1..], limit);
    }
  }

  /** The pipe's and tcp's readers, each with its own chunking and would-blocks, hand over the same messages from the
      same bytes, and give up on the same streams. */
  method ReadersAgree(host: Host, o: Options, stream: seq<byte>, wishes: seq<nat>, turns: seq<Pipe.Turn>)
    returns (viaTcp: seq<seq<byte>>, log: seq<Event>, tcpEnded: bool, pipeEnded: bool)
    requires o.makeRead
    ensures PipeSpec.Payloads(log) == viaTcp && tcpEnded == pipeEnded
  {
    hide Framing.Parse;
    viaTcp, tcpEnded := TcpConnection.Deliver(host, o.limit, stream, wishes);
    log, pipeEnded := Pipe.DeliverThrough(o, host, stream, turns);
    var e := Epoch(stream, if pipeEnded then Disconnected else Open);
    PayloadsEpoch(e, o.limit);
    if pipeEnded { OversizeIsLong(stream, o.limit); }
    assert log == EpochLog(e, o.limit);
  }
}
