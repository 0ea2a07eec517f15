/** `tcp::Connection`: the in-place frame reader over a socket, and the frame writer. */
module TcpConnection {
  import opened Bytes
  import opened Framing

  class Connection {
    const host: Host
    const rBuffer: array<byte>
    /** Outstanding `async_read_some` operations. */
    var pending: seq<Continuation>
    /** Calls of `impl.message` and `impl.disconnect`. */
    var messages: seq<seq<byte>>
    var disconnects: nat
    /** Bytes offered to the socket by `write`. */
    var offered: seq<byte>
    /** All bytes the reads have returned. */
    ghost var stream: seq<byte>

    ghost function Limit(): int reads this { rBuffer.Length - HEADER }

    /** In every state: the messages are those of the whole-stream parser. The chain holds exactly one read, which
        resumes where the incomplete frame in the buffer ends, until it posts its one disconnect. */
    ghost predicate Valid()
      reads this, rBuffer
    {
      && Limit() >= 0
      && var parsed := Parse(stream, Limit());
      && messages == parsed.messages
      && (if disconnects == 0 then
            && !parsed.oversize
            && pending == [Resume(parsed.tail)]
            && Resume(parsed.tail).pos < Resume(parsed.tail).size <= rBuffer.Length
            && rBuffer[..Resume(parsed.tail).pos] == Held(parsed.tail)
          else disconnects == 1 && pending == [])
      && (parsed.oversize ==> disconnects == 1)
    }

    constructor (host: Host, buffer: nat)
      ensures pending == [] && messages == [] && disconnects == 0 && offered == [] && stream == []
      ensures fresh(rBuffer) && Limit() == buffer
    {
      this.host := host;
      rBuffer := new byte[buffer + HEADER];
      pending, messages, disconnects, offered, stream := [], [], 0, [], [];
    }

    /** The first read; `impl.connect` is the owner's part (see `Registry` and `Client`). */
    method Run()
      requires pending == [] && messages == [] && disconnects == 0 && stream == [] && Limit() >= 0
      modifies `pending
      ensures Valid()
    {
      StartHeader(0, HEADER);
    }

    method StartHeader(pos: nat, size: nat)
      requires pos < size <= rBuffer.Length
      modifies `pending
      ensures pending == old(pending) + [ReadHeader(pos, size)]
    {
      pending := pending + [ReadHeader(pos, size)];
    }

    method StartBody(pos: nat, size: nat)
      requires pos < size || size == 0
      requires rBuffer.Length >= HEADER
      modifies `pending, `disconnects
      ensures size == 0 ==> pending == old(pending) + [ReadHeader(0, HEADER)] && disconnects == old(disconnects)
      ensures size > Limit() ==> pending == old(pending) && disconnects == old(disconnects) + 1
      ensures 0 < size <= Limit() ==> pending == old(pending) + [ReadBody(pos, size)] && disconnects == old(disconnects)
    {
      if size == 0 {
        StartHeader(0, HEADER);
        return;
      }
      if size > rBuffer.Length - HEADER {
        disconnects := disconnects + 1;
        return;
      }
      pending := pending + [ReadBody(pos, size)];
    }

    /** The socket completes the outstanding read: with an error, or with bytes written at the start of its window.
        Whatever the chunk, the reader ends up where parsing the whole stream says. */
    method ReadCompleted(failed: bool, chunk: seq<byte>)
      requires Valid() && |pending| == 1
      requires !failed ==> 0 < |chunk| <= pending[0].size - pending[0].pos
      modifies `pending, `messages, `disconnects, `stream, rBuffer
      ensures Valid()
      ensures stream == if failed then old(stream) else old(stream) + chunk
      ensures disconnects == if failed || Parse(stream, Limit()).oversize then 1 else 0
    {
      var k := pending[0];
      pending := [];
      if failed {
        disconnects := disconnects + 1;
        return;
      }
      ghost var tail := Parse(stream, Limit()).tail;
      Grow(stream, chunk, Limit());
      ParseTail(stream, Limit());
      CopyTo(chunk, rBuffer, k.pos);
      stream := stream + chunk;
      assert rBuffer[..k.pos + |chunk|] == Held(tail) + chunk;
      ParseTailIfOpen();
      if k.ReadHeader? {
        HeaderRead(k.pos, k.size, |chunk|, tail + chunk);
      } else {
        assert (tail + chunk)[..HEADER] == tail[..HEADER];
        BodyRead(k.pos, k.size, |chunk|, tail + chunk);
      }
    }

    lemma ParseTailIfOpen()
      requires Limit() >= 0
      ensures !Parse(stream, Limit()).oversize ==> Partial(Parse(stream, Limit()).tail, Limit())
    {
      if !Parse(stream, Limit()).oversize { ParseTail(stream, Limit()); }
    }

    method HeaderRead(pos: nat, size: nat, count: nat, ghost grown: seq<byte>)
      requires size == HEADER && 0 < count <= size - pos && rBuffer.Length >= HEADER
      requires pending == [] && disconnects == 0 && |grown| == pos + count && rBuffer[..pos + count] == grown
      requires var parsed := Parse(stream, Limit());
               && messages == parsed.messages && (!parsed.oversize ==> Partial(parsed.tail, Limit()))
               && if pos + count < size then !parsed.oversize && parsed.tail == grown
                  else if FromLittleEndian(grown) > Limit() then parsed.oversize
                  else !parsed.oversize && parsed.tail == if FromLittleEndian(grown) == 0 then [] else grown
      modifies `pending, `disconnects
      ensures Valid() && (disconnects == 1 <==> Parse(stream, Limit()).oversize)
    {
      if pos + count != size {
        StartHeader(pos + count, size);
        return;
      }
      var bodySize := FromArray(host, rBuffer[..HEADER], HEADER);
      assert grown[..HEADER] == grown;
      StartBody(0, bodySize);
    }

    method BodyRead(pos: nat, size: nat, count: nat, ghost grown: seq<byte>)
      requires 0 < count <= size - pos && size <= Limit()
      requires pending == [] && disconnects == 0 && |grown| == HEADER + pos + count
      requires FromLittleEndian(grown[..HEADER]) == size && rBuffer[..pos + count] == grown[HEADER..]
      requires var parsed := Parse(stream, Limit());
               && !parsed.oversize
               && if pos + count < size then parsed.tail == grown && messages == parsed.messages
                  else parsed.tail == [] && messages + [grown[HEADER..]] == parsed.messages
      modifies `pending, `messages, `disconnects
      ensures Valid() && disconnects == 0
    {
      if pos + count != size {
        StartBody(pos + count, size);
      } else {
        messages := messages + [rBuffer[..size]];
        StartHeader(0, HEADER);
      }
    }

    /** `write` offers header and payload in one gather write. */
    method Write(data: Payload)
      modifies `offered
      ensures offered == old(offered) + Frame(data)
    {
      var header := ToArray(host, |data|, HEADER);
      offered := offered + (header[..] + data);
    }
  }

  /** Chunking independence. The socket holds `stream` and completes each read with as many bytes as `wishes` says
      (at least one, at most the window and what is left; the whole window once the wishes are used up). Whatever
      the wishes, the messages are those of the parser, and the chain ends exactly on an oversize frame. */
  method Deliver(host: Host, buffer: nat, stream: seq<byte>, wishes: seq<nat>)
    returns (messages: seq<seq<byte>>, closed: bool)
    ensures messages == Parse(stream, buffer).messages
    ensures closed == Parse(stream, buffer).oversize
  {
    var c := new Connection(host, buffer);
    c.Run();
    var taken, turn := 0, 0;
    while taken < |stream| && c.disconnects == 0
      invariant c.Valid() && fresh(c) && fresh(c.rBuffer) && c.Limit() == buffer
      invariant taken <= |stream| && c.stream == stream[..taken]
      invariant c.disconnects == if Parse(c.stream, buffer).oversize then 1 else 0
      decreases |stream| - taken
    {
      var window := c.pending[0].size - c.pending[0].pos;
      var wish := if turn < |wishes| then wishes[turn] else window;
      var count := Clamp(wish, window, |stream| - taken);
      assert stream[..taken + count] == stream[..taken] + stream[taken..taken + count];
      c.ReadCompleted(false, stream[taken..taken + count]);
      taken, turn := taken + count, turn + 1;
    }
    ParsePrefix(c.stream, stream, buffer);
    assert stream[..|stream|] == stream;
    return c.messages, c.disconnects != 0;
  }

  /** How many bytes a read completes with. */
  function Clamp(wish: nat, window: nat, left: nat): (count: nat)
    requires window > 0 && left > 0
    ensures 0 < count <= window && count <= left
  {
    var most := if window < left then window else left;
    if wish == 0 then 1 else if wish < most then wish else most
  }
}
