/** The stream format shared by the pipe and tcp: an 8-byte little-endian length, then the payload. */
module Framing {
  import opened Bytes

  /** `TCP_HEADER_SIZE`. */
  const HEADER: nat := 8

  type Payload = p: seq<byte> | |p| < U64_LIMIT

  function Frame(p: Payload): seq<byte> {
    LittleEndian(|p|, HEADER) + p
  }

  function Wire(frames: seq<Payload>): seq<byte> {
    if frames == [] then [] else Frame(frames[0]) + Wire(frames[1..])
  }

  lemma NoFrames()
    ensures Wire([]) == []
  {
  }

  /** Frames byte by byte: eight bytes of length, the lowest first, and then the payload as it is. */
  lemma FrameBytes(p: Payload, i: nat)
    requires i < HEADER
    ensures |Frame(p)| == 8 + |p| && Frame(p)[8..] == p
    ensures Frame(p)[i] == (|p| / Pow256(i)) % 256
  {
    Digit(|p|, HEADER, i);
  }

  /** What a whole-stream reader makes of the bytes: the non-empty payloads of the complete frames, whether it
      met a frame above the limit (it then stops), and the bytes of the frame it is inside of. */
  datatype Parsed = Parsed(messages: seq<seq<byte>>, oversize: bool, tail: seq<byte>)

  function Parse(s: seq<byte>, limit: nat): Parsed
    decreases |s|
  {
    match First(s, limit)
    case Short => Parsed([], false, s)
    case Oversize => Parsed([], true, s)
    case Complete(body, rest) => Prepend(body, Parse(rest, limit))
  }

  /** How a stream begins. */
  datatype Head = Short | Oversize | Complete(body: seq<byte>, rest: seq<byte>)

  function First(s: seq<byte>, limit: nat): (h: Head)
    ensures h.Complete? ==> |h.rest| < |s| && |h.body| <= limit
  {
    if |s| < HEADER then Short else
    var size := FromLittleEndian(s[..HEADER]);
    if size > limit then Oversize
    else if |s| < HEADER + size then Short
    else Complete(s[HEADER..HEADER + size], s[HEADER + size..])
  }

  lemma ShortStream(s: seq<byte>, limit: nat)
    ensures |s| < HEADER ==> Parse(s, limit) == Parsed([], false, s)
  {
  }

  /** A zero-length frame is a probe: it is not a message. */
  function Prepend(body: seq<byte>, r: Parsed): Parsed {
    if body == [] then r else r.(messages := [body] + r.messages)
  }

  function Then(messages: seq<seq<byte>>, r: Parsed): Parsed {
    r.(messages := messages + r.messages)
  }

  lemma PrependThen(body: seq<byte>, before: Parsed, after: Parsed)
    ensures Prepend(body, Then(before.messages, after)) == Then(Prepend(body, before).messages, after)
  {
    assert [body] + (before.messages + after.messages) == [body] + before.messages + after.messages;
  }

  lemma FirstAppend(s: seq<byte>, more: seq<byte>, limit: nat)
    ensures var h := First(s, limit);
            && (h.Complete? ==> First(s + more, limit) == Complete(h.body, h.rest + more))
            && (h.Oversize? ==> First(s + more, limit).Oversize?)
  {
    var h := First(s, limit);
    if |s| >= HEADER {
      assert (s + more)[..HEADER] == s[..HEADER];
    }
    if h.Complete? {
      var cut := HEADER + FromLittleEndian(s[..HEADER]);
      assert (s + more)[cut..] == s[cut..] + more;
      assert (s + more)[HEADER..cut] == s[HEADER..cut];
    }
  }

  /** Parsing is incremental: what was decided about a prefix stands, and only its tail is looked at again. */
  lemma {:induction false} ParseAppend(s: seq<byte>, more: seq<byte>, limit: nat)
    requires !Parse(s, limit).oversize
    ensures var before := Parse(s, limit);
            Parse(s + more, limit) == Then(before.messages, Parse(before.tail + more, limit))
    decreases |s|
  {
    var h := First(s, limit);
    if h.Complete? {
      FirstAppend(s, more, limit);
      ParseAppend(h.rest, more, limit);
      var before := Parse(h.rest, limit);
      PrependThen(h.body, before, Parse(before.tail + more, limit));
    }
  }

  /** A tail is a frame that is not complete yet, so parsing it again says nothing new. */
  lemma {:induction false} ParseTail(s: seq<byte>, limit: nat)
    requires !Parse(s, limit).oversize
    ensures var tail := Parse(s, limit).tail;
            Parse(tail, limit) == Parsed([], false, tail) && Partial(tail, limit)
    decreases |s|
  {
    var h := First(s, limit);
    if h.Complete? {
      ParseTail(h.rest, limit);
    }
  }

  /** The bytes of one frame whose size is acceptable and which is not complete. */
  predicate Partial(tail: seq<byte>, limit: nat) {
    HEADER <= |tail| ==> FromLittleEndian(tail[..HEADER]) <= limit && |tail| < HEADER + FromLittleEndian(tail[..HEADER])
  }

  /** The first frame of a written stream is found, unless the reader's limit refuses it. */
  lemma FirstFrame(p: Payload, more: seq<byte>, limit: nat)
    ensures First(Frame(p) + more, limit) == if |p| > limit then Oversize else Complete(p, more)
  {
    var s := Frame(p) + more;
    Pow256Eight();
    DecodeEncode(|p|, HEADER);
    assert s[..HEADER] == LittleEndian(|p|, HEADER);
    assert s[HEADER..HEADER + |p|] == p;
    assert s[HEADER + |p|..] == more;
  }

  function NonEmpty(frames: seq<Payload>): (r: seq<seq<byte>>) {
    if frames == [] then [] else (if frames[0] == [] then [] else [frames[0]]) + NonEmpty(frames[1..])
  }

  /** The frames before the first one that is larger than the reader's limit. */
  function Accepted(frames: seq<Payload>, limit: nat): (r: seq<Payload>)
    ensures r <= frames && (forall p :: p in r ==> |p| <= limit)
    ensures |r| < |frames| ==> |frames[|r|]| > limit
  {
    if frames == [] || |frames[0]| > limit then [] else [frames[0]] + Accepted(frames[1..], limit)
  }

  /** A complete written stream is read back as its non-empty frames up to the first oversize one. */
  lemma {:induction false} ParseWire(frames: seq<Payload>, limit: nat)
    ensures var r := Parse(Wire(frames), limit);
            && r.messages == NonEmpty(Accepted(frames, limit))
            && (r.oversize <==> Accepted(frames, limit) != frames)
            && (!r.oversize ==> r.tail == [])
  {
    hide Frame, First;
    if frames == [] {
      ShortStream([], limit);
    } else {
      FirstFrame(frames[0], Wire(frames[1..]), limit);
      if |frames[0]| <= limit {
        ParseWire(frames[1..], limit);
        assert Accepted(frames, limit) == [frames[0]] + Accepted(frames[1..], limit);
        assert Accepted(frames, limit)[1..] == Accepted(frames[1..], limit);
        assert frames == [frames[0]] + frames[1..];
      }
    }
  }

  lemma {:induction false} WireAppend(frames: seq<Payload>, p: Payload)
    ensures Wire(frames + [p]) == Wire(frames) + Frame(p)
  {
    if frames == [] {
      assert frames + [p] == [p];
    } else {
      WireAppend(frames[1..], p);
      assert (frames + [p])[1..] == frames[1..] + [p];
    }
  }

  lemma {:induction false} NonEmptyAppend(frames: seq<Payload>, p: Payload)
    ensures NonEmpty(frames + [p]) == NonEmpty(frames) + (if p == [] then [] else [p])
  {
    if frames == [] {
      assert frames + [p] == [p];
    } else {
      NonEmptyAppend(frames[1..], p);
      assert (frames + [p])[1..] == frames[1..] + [p];
    }
  }

  /** While bytes are still in flight the reader has delivered a prefix of what it will deliver. */
  lemma {:induction false} ParsePrefix(s: seq<byte>, whole: seq<byte>, limit: nat)
    requires s <= whole
    ensures Parse(s, limit).messages <= Parse(whole, limit).messages
    ensures Parse(s, limit).oversize ==>
              Parse(whole, limit).messages == Parse(s, limit).messages && Parse(whole, limit).oversize
    decreases |s|
  {
    assert s + whole[|s|..] == whole;
    if !Parse(s, limit).oversize {
      ParseAppend(s, whole[|s|..], limit);
    } else {
      FirstAppend(s, whole[|s|..], limit);
      var h := First(s, limit);
      if h.Complete? {
        ParsePrefix(h.rest, h.rest + whole[|s|..], limit);
      }
    }
  }

  /** The frames, empty ones included, that the reader has completed in `s`. */
  ghost function Frames(s: seq<byte>, limit: nat): (r: seq<Payload>)
    decreases |s|
  {
    var h := First(s, limit);
    if h.Complete? then FirstSplits(s, limit); [h.body] + Frames(h.rest, limit) else []
  }

  lemma FirstSplits(s: seq<byte>, limit: nat)
    ensures var h := First(s, limit); h.Complete? ==> |h.body| < U64_LIMIT && s == Frame(h.body) + h.rest
  {
    var h := First(s, limit);
    if h.Complete? {
      EncodeDecode(s[..HEADER]);
      Pow256Eight();
      assert s == s[..HEADER] + h.body + h.rest;
    }
  }

  /** The parser loses and invents no byte: any stream is the encoding of the frames it completed, then its tail. */
  lemma {:induction false} ParseKeepsBytes(s: seq<byte>, limit: nat)
    ensures s == Wire(Frames(s, limit)) + Parse(s, limit).tail
    ensures Parse(s, limit).messages == NonEmpty(Frames(s, limit))
    decreases |s|
  {
    var h := First(s, limit);
    if h.Complete? {
      FirstSplits(s, limit);
      ParseKeepsBytes(h.rest, limit);
      assert Frames(s, limit)[1..] == Frames(h.rest, limit);
    }
  }

  /** A reader that is still behind the writer has completed some of the frames that were sent, from the first on. */
  lemma {:induction false} FramesAreSent(s: seq<byte>, sent: seq<Payload>, limit: nat)
    requires s <= Wire(sent)
    ensures Frames(s, limit) <= sent
    decreases |s|
  {
    var h := First(s, limit);
    if h.Complete? {
      var more := Wire(sent)[|s|..];
      assert s + more == Wire(sent);
      FirstAppend(s, more, limit);
      FirstFrame(sent[0], Wire(sent[1..]), limit);
      FramesAreSent(h.rest, sent[1..], limit);
      assert sent == [sent[0]] + sent[1..];
    }
  }

  // ---- The in-place readers: one buffer, one outstanding read ----

  /** The continuation captured by an outstanding `async_read_some` (or by a parked retry): which of `readHeader`
      and `readBody` it belongs to, how much of the frame part is there, and how long that part is. */
  datatype Continuation = ReadHeader(pos: nat, size: nat) | ReadBody(pos: nat, size: nat)

  /** Where a reader has to resume, as a function of the incomplete frame alone. */
  function Resume(tail: seq<byte>): Continuation {
    if |tail| < HEADER then ReadHeader(|tail|, HEADER)
    else ReadBody(|tail| - HEADER, FromLittleEndian(tail[..HEADER]))
  }

  /** The part of the incomplete frame that the buffer has to hold: the header is overwritten by the body. */
  function Held(tail: seq<byte>): seq<byte> {
    if |tail| < HEADER then tail else tail[HEADER..]
  }

  lemma BetweenFrames(limit: nat)
    ensures Parse([], limit) == Parsed([], false, []) && Resume([]) == ReadHeader(0, HEADER) && Held([]) == []
  {
  }

  /** The same for a stream that begins with the incomplete frame. */
  lemma GrowTail(tail: seq<byte>, chunk: seq<byte>, limit: nat)
    requires Partial(tail, limit) && 0 < |chunk| <= Resume(tail).size - Resume(tail).pos
    ensures var after, grown, k := Parse(tail + chunk, limit), tail + chunk, Resume(tail);
            if k.pos + |chunk| < k.size then after == Parsed([], false, grown)
            else if k.ReadHeader? then
              && |grown| == HEADER
              && var size := FromLittleEndian(grown);
                 after == if size > limit then Parsed([], true, grown)
                          else Parsed([], false, if size == 0 then [] else grown)
            else after == Parsed([grown[HEADER..]], false, [])
  {
    hide FromLittleEndian;
    var grown := tail + chunk;
    if |tail| < HEADER {
      if |grown| == HEADER {
        assert grown[..HEADER] == grown && grown[HEADER..] == [];
      }
    } else {
      assert grown[..HEADER] == tail[..HEADER];
      var size := FromLittleEndian(tail[..HEADER]);
      if |grown| == HEADER + size {
        assert grown[HEADER + size..] == [] && grown[HEADER..HEADER + size] == grown[HEADER..];
      }
    }
    ShortStream([], limit);
  }

  /** One read completion, seen on the whole stream: the four ways a part of a frame can grow. */
  lemma Grow(stream: seq<byte>, chunk: seq<byte>, limit: nat)
    requires !Parse(stream, limit).oversize
    requires 0 < |chunk| <= Resume(Parse(stream, limit).tail).size - Resume(Parse(stream, limit).tail).pos
    ensures var before := Parse(stream, limit);
            var after := Parse(stream + chunk, limit);
            var grown := before.tail + chunk;
            var k := Resume(before.tail);
            if k.pos + |chunk| < k.size then
              after == before.(tail := grown)
            else if k.ReadHeader? then
              && |grown| == HEADER
              && var size := FromLittleEndian(grown);
                 after == if size > limit then before.(oversize := true, tail := grown)
                          else before.(tail := if size == 0 then [] else grown)
            else
              after == before.(messages := before.messages + [grown[HEADER..]], tail := [])
  {
    hide Parse, First, FromLittleEndian;
    ParseAppend(stream, chunk, limit);
    ParseTail(stream, limit);
    GrowTail(Parse(stream, limit).tail, chunk, limit);
    assert Parse(stream, limit).messages + [] == Parse(stream, limit).messages;
  }
}
