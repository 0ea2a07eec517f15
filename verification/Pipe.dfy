/** The pipe service as it is written: descriptors, two timers, flags and one read buffer, updated by every handler.
    Each handler is shown to take exactly the step that `PipeSpec` prescribes. */
module Pipe {
  import opened Bytes
  import opened Framing
  import opened Ids
  import opened PipeSpec
  import TcpConnection

  const NO_FD := -1

  /** What a wait on the shared `retry_read` timer will do: open the next descriptor, or resume a read. */
  datatype Wait = Reopen | ResumeRead(k: Continuation)

  datatype Code = Success | Aborted | WouldBlock | TryAgain | Interrupted | OtherError

  class Service {
    const o: Options
    const host: Host

    var reader: Option<int>
    var writer: Option<int>
    var readFd: int
    var writeFd: int
    var rBuffer: array<byte>
    var readyNotified: bool
    var connected: bool
    var readLoopActive: bool
    var stopped: bool

    /** Outstanding `async_read_some` operations, waits on the two timers, and tasks posted to the strand. */
    var pending: seq<Continuation>
    var retryWaits: seq<Wait>
    var probeWaits: nat
    var tasks: seq<Task>

    /** Callbacks made, bytes written to the current write descriptor, `on_ready` handlers registered and called. */
    var log: seq<Event>
    var wire: seq<byte>
    var onReady: nat
    var readyCalls: nat

    ghost var bytes: seq<byte>
    ghost var history: seq<Epoch>
    ghost var sent: seq<Payload>

    ghost function Abs(): State
      reads this
    {
      State(if reader.Some? then (if pending != [] then Reading else Parked)
            else if retryWaits != [] then Reopening else Idle,
            bytes, history, writer.Some?, sent, tasks, stopped)
    }

    ghost predicate Descriptors()
      reads this
    {
      && readFd == (if reader.Some? then reader.value else NO_FD) && (reader.Some? ==> o.makeRead && readFd >= 0)
      && writeFd == (if writer.Some? then writer.value else NO_FD) && (writer.Some? ==> o.makeWrite && writeFd >= 0)
      && (rBuffer.Length == 0 || rBuffer.Length == o.limit + HEADER)
    }

    ghost predicate Observed()
      reads this
    {
      && log == LogOf(history, bytes, o.limit) && (connected <==> |bytes| >= HEADER)
      && wire == Wire(sent)
      && readyCalls == 0
    }

    /** The frame part in the buffer is that of the incomplete frame, whose continuation is `Next()`. */
    ghost predicate Buffered()
      reads this, rBuffer
    {
      && rBuffer.Length == o.limit + HEADER
      && !Parse(bytes, o.limit).oversize
      && Next().pos < Next().size <= rBuffer.Length
      && rBuffer[..Next().pos] == Held(Parse(bytes, o.limit).tail)
    }

    ghost function Next(): Continuation reads this { Resume(Parse(bytes, o.limit).tail) }

    /** The lifecycle invariant. A reader exists iff the read loop is active. With a reader there is exactly one
        continuation, a pending read or a parked resume, unless the loop is stopped; without one there is at most a
        reopen wait. The probe wait is armed iff both descriptors exist. */
    ghost predicate Valid()
      reads this, rBuffer
    {
      && Descriptors() && Observed()
      && (readLoopActive <==> reader.Some?)
      && (if reader.Some? then
            && Buffered()
            && (!stopped ==> || (pending == [Next()] && retryWaits == [])
                             || (pending == [] && retryWaits == [ResumeRead(Next())]))
          else bytes == [] && pending == [] && (retryWaits == [] || retryWaits == [Reopen]))
      && (stopped ==> retryWaits == [])
      && probeWaits == (if reader.Some? && writer.Some? && !stopped then 1 else 0)
    }

    constructor (o: Options, host: Host, firstReadFd: int, firstWriteFd: int)
      ensures Valid() && this.o == o && fresh(rBuffer)
      ensures Abs() == Started(o, [], firstReadFd, firstWriteFd) && onReady == 0
    {
      this.o, this.host := o, host;
      reader, writer, readFd, writeFd := None, None, NO_FD, NO_FD;
      rBuffer := new byte[0];
      readyNotified, connected, readLoopActive, stopped := false, false, false, false;
      pending, retryWaits, probeWaits, tasks := [], [], 0, [];
      log, wire, onReady, readyCalls := [], [], 0, 0;
      bytes, history, sent := [], [], [];
      new;
      hide Framing.Parse, Framing.First, Framing.Wire, Framing.Frame, PipeSpec.LogOf, Framing.Held, Framing.Resume;
      NoFrames();
      FirstLog([], o.limit);
      ShortStream([], o.limit);
      var _ := ReconnectRead(true, firstReadFd);
      var _ := ReconnectWrite(firstWriteFd);
    }

    /** `reset_reader(fd)`: destroying the old descriptor aborts what it has outstanding. */
    method ResetReader(fd: int)
      modifies `reader, `pending
      ensures pending == [] && reader == if fd != NO_FD then Some(fd) else None
    {
      reader, pending := None, [];
      if fd != NO_FD {
        reader := Some(fd);
      }
    }

    /** `reset_writer(fd)`: a new descriptor has seen no bytes. */
    method ResetWriter(fd: int)
      modifies `writer, `wire, `sent
      ensures wire == [] && sent == [] && writer == if fd != NO_FD then Some(fd) else None
    {
      writer, wire, sent := None, [], [];
      if fd != NO_FD {
        writer := Some(fd);
      }
    }

    method CancelTimers()
      modifies `retryWaits, `probeWaits
      ensures retryWaits == [] && probeWaits == 0
    {
      retryWaits, probeWaits := [], 0;
    }

    method ScheduleReadRetry()
      modifies `retryWaits
      ensures retryWaits == [Reopen]
    {
      retryWaits := [];
      retryWaits := retryWaits + [Reopen];
    }

    method ScheduleReadWait(resume: Continuation)
      modifies `retryWaits
      ensures retryWaits == if reader.Some? then [ResumeRead(resume)] else old(retryWaits)
    {
      if reader.None? {
        return;
      }
      retryWaits := [];
      retryWaits := retryWaits + [ResumeRead(resume)];
    }

    predicate CanProbe() reads this { reader.Some? && writer.Some? }

    method ScheduleProbe()
      modifies `probeWaits
      ensures probeWaits == if CanProbe() then 1 else 0
    {
      probeWaits := 0;
      if !CanProbe() {
        return;
      }
      probeWaits := 0;
      probeWaits := probeWaits + 1;
    }

    /** `r_buffer.resize`: the old contents stay at the front. */
    method ResizeBuffer(length: nat)
      requires rBuffer.Length <= length
      modifies `rBuffer
      ensures rBuffer.Length == length && (rBuffer == old(rBuffer) || fresh(rBuffer))
    {
      if rBuffer.Length != length {
        var larger := new byte[length];
        CopyTo(rBuffer[..], larger, 0);
        rBuffer := larger;
      }
    }

    method NotifyReady(shouldNotify: bool)
      requires rBuffer.Length <= o.limit + HEADER
      requires shouldNotify ==> onReady == 0
      modifies `readyNotified, `readyCalls, `readLoopActive, `rBuffer, `pending
      ensures readyCalls == old(readyCalls) && readyNotified == (old(readyNotified) || shouldNotify)
      ensures rBuffer == old(rBuffer) || fresh(rBuffer)
      ensures if reader.Some? && !old(readLoopActive)
                then readLoopActive && rBuffer.Length == o.limit + HEADER
                     && pending == old(pending) + [ReadHeader(0, HEADER)]
                else readLoopActive == old(readLoopActive) && rBuffer == old(rBuffer) && pending == old(pending)
    {
      if shouldNotify && !readyNotified {
        readyCalls := readyCalls + onReady;
        readyNotified := true;
      }
      if reader.Some? && !readLoopActive {
        readLoopActive := true;
        ResizeBuffer(o.limit + HEADER);
        StartHeader(0, HEADER);
      }
    }

    method NotifyDisconnected()
      modifies `connected, `log
      ensures !connected
      ensures log == old(log) + if old(connected) then [Disconnect] else []
    {
      if connected {
        connected := false;
        log := log + [Disconnect];
      }
    }

    method StartHeader(pos: nat, size: nat)
      requires pos < size <= rBuffer.Length
      modifies `pending
      ensures pending == if reader.Some? then old(pending) + [ReadHeader(pos, size)] else old(pending)
    {
      if reader.None? {
        return;
      }
      pending := pending + [ReadHeader(pos, size)];
    }

    /** The first half of `reconnect_read`: drop the reader, its timers and its loop, and ask `make_read`. */
    method OpenReader(fd: int) returns (readRetry: bool)
      modifies `retryWaits, `probeWaits, `readLoopActive, `reader, `pending, `readFd
      ensures retryWaits == [] && probeWaits == 0 && !readLoopActive && pending == []
      ensures reader == if o.makeRead && fd >= 0 then Some(fd) else None
      ensures readFd == if reader.Some? then reader.value else NO_FD
      ensures readRetry <==> o.makeRead && fd == RETRY_FD
    {
      CancelTimers();
      readLoopActive := false;
      ResetReader(NO_FD);
      readFd := NO_FD;
      readRetry := false;
      if o.makeRead {
        if fd >= 0 {
          readFd := fd;
          ResetReader(readFd);
        } else if fd == RETRY_FD {
          readRetry := true;
        }
      }
    }

    /** Ask `make_read` for the next descriptor. Resetting the reader aborts whatever it had outstanding. */
    method ReconnectRead(shouldNotify: bool, fd: int) returns (ok: bool)
      requires Descriptors() && Observed() && bytes == [] && !stopped
      requires shouldNotify ==> onReady == 0
      modifies `retryWaits, `probeWaits, `readLoopActive, `reader, `pending, `readFd, `readyNotified, `readyCalls,
               `rBuffer
      ensures rBuffer == old(rBuffer) || fresh(rBuffer)
      ensures Valid()
      ensures Abs() == Opened(o, old(Abs()), fd)
      ensures ok <==> !o.makeRead || fd >= 0 || fd == RETRY_FD
      ensures reader == if o.makeRead && fd >= 0 then Some(fd) else None
      ensures retryWaits == if o.makeRead && fd == -2 then [Reopen] else []
    {
      hide Framing.Parse, Framing.First, Framing.Wire, Framing.Frame, PipeSpec.LogOf, Framing.Held, Framing.Resume;
      BetweenFrames(o.limit);
      var readRetry := OpenReader(fd);
      if reader.Some? {
        NotifyReady(shouldNotify);
        ScheduleProbe();
        return true;
      }
      if readRetry {
        ScheduleReadRetry();
        return true;
      }
      return !o.makeRead;
    }

    method ReconnectWrite(fd: int) returns (ok: bool)
      requires Valid() && !stopped
      modifies `probeWaits, `writer, `writeFd, `wire, `sent
      ensures Valid()
      ensures Abs() == old(Abs()).(writer := o.makeWrite && fd >= 0, sent := [])
      ensures ok <==> !o.makeWrite || fd >= 0
    {
      hide Framing.Parse, Framing.First, Framing.Wire, Framing.Frame, PipeSpec.LogOf, Framing.Held, Framing.Resume;
      NoFrames();
      probeWaits := 0;
      ResetWriter(NO_FD);
      writeFd := NO_FD;
      if o.makeWrite {
        if fd >= 0 {
          writeFd := fd;
          ResetWriter(writeFd);
        }
      }
      if writer.Some? {
        ScheduleProbe();
        return true;
      }
      return !o.makeWrite;
    }

    /** The step `Lost`: one disconnect callback if connected, the next descriptor, and perhaps the end of the loop. */
    method HandleReadDisconnect(fd: int)
      requires Descriptors() && Observed() && pending == [] && reader.Some? && !stopped
      modifies `retryWaits, `probeWaits, `readLoopActive, `reader, `pending, `readFd, `readyNotified, `readyCalls,
               `rBuffer, `connected, `log, `stopped, `bytes, `history
      ensures Valid() && (rBuffer == old(rBuffer) || fresh(rBuffer))
      ensures Abs() == Lost(o, old(Abs()), fd)
      ensures stopped <==> writer.None? && o.makeRead && fd < 0 && fd != -2
      ensures log == old(log) + if old(connected) then [Disconnect] else []
    {
      hide Framing.Parse, Framing.First, Framing.Wire, Framing.Frame, PipeSpec.LogOf, Framing.Held, Framing.Resume,
        PipeSpec.Started, PipeSpec.Writes;
      CancelTimers();
      NotifyDisconnected();
      LogClosed(history, bytes, Disconnected, o.limit);
      history := history + [Epoch(bytes, Disconnected)];
      bytes := [];
      var ok := ReconnectRead(false, fd);
      if !ok && writer.None? {
        stopped := true;
      }
    }

    /** True if the completion is dealt with here: aborted, parked on the retry timer, or a disconnect. */
    method HandleReadError(ec: Code, resume: Continuation, fd: int) returns (handled: bool)
      requires Descriptors() && Observed() && Buffered() && pending == [] && reader.Some? && !stopped && readLoopActive
      requires retryWaits == [] && probeWaits == (if writer.Some? then 1 else 0)
      requires resume == Next()
      modifies `retryWaits, `probeWaits, `readLoopActive, `reader, `pending, `readFd, `readyNotified, `readyCalls,
               `rBuffer, `connected, `log, `stopped, `bytes, `history
      ensures rBuffer == old(rBuffer) || fresh(rBuffer)
      ensures handled <==> ec != Success
      ensures ec == Success || ec == Aborted ==> Abs() == old(Abs()) && unchanged(this)
      ensures ec == WouldBlock || ec == TryAgain || ec == Interrupted ==> Valid() && Abs() == old(Abs())
      ensures ec == OtherError ==> Valid() && Abs() == Lost(o, old(Abs()), fd)
    {
      hide Framing.Parse, Framing.First, Framing.Wire, Framing.Frame, PipeSpec.LogOf;
      if ec == Success {
        return false;
      }
      if ec == Aborted {
        return true;
      }
      if ec == WouldBlock || ec == TryAgain || ec == Interrupted {
        ScheduleReadWait(resume);
        return true;
      }
      HandleReadDisconnect(fd);
      return true;
    }

    /** The outstanding read completes, with an error or with `chunk` at the start of its window. asio reports
        `operation_aborted` only for a read whose descriptor is gone, so not here. */
    method ReadCompleted(ec: Code, chunk: seq<byte>, fd: int)
      requires Valid() && !stopped && |pending| == 1 && ec != Aborted
      requires ec == Success ==> |chunk| <= pending[0].size - pending[0].pos
      modifies `retryWaits, `probeWaits, `readLoopActive, `reader, `pending, `readFd, `readyNotified, `readyCalls,
               `rBuffer, `connected, `log, `stopped, `bytes, `history, rBuffer
      ensures Valid() && (rBuffer == old(rBuffer) || fresh(rBuffer))
      ensures Abs() == Apply(o, old(Abs()), if ec == Success && chunk != [] then Data(chunk, fd)
                                            else if ec == Success || ec == OtherError then Failed(fd) else Blocked)
    {
      hide Framing.Parse, Framing.First, Framing.Wire, Framing.Frame, PipeSpec.LogOf, Framing.Held, Framing.Resume,
        PipeSpec.Started, PipeSpec.Writes;
      var k := pending[0];
      pending := [];
      var handled := HandleReadError(ec, k, fd);
      if handled {
        return;
      }
      if |chunk| == 0 {
        HandleReadDisconnect(fd);
        return;
      }
      Absorb(k, chunk, fd);
    }

    /** The bytes of a successful completion are in the window; the header or body handler goes on from there. */
    method Absorb(k: Continuation, chunk: seq<byte>, fd: int)
      requires Descriptors() && Observed() && Buffered() && reader.Some? && readLoopActive && !stopped
      requires pending == [] && retryWaits == [] && probeWaits == (if writer.Some? then 1 else 0)
      requires k == Next() && 0 < |chunk| <= k.size - k.pos
      modifies `retryWaits, `probeWaits, `readLoopActive, `reader, `pending, `readFd, `readyNotified, `readyCalls,
               `rBuffer, `connected, `log, `stopped, `bytes, `history, rBuffer
      ensures Valid() && (rBuffer == old(rBuffer) || fresh(rBuffer))
      ensures Abs() == Grown(o, old(Abs()), chunk, fd)
    {
      hide Framing.Parse, Framing.First, Framing.Wire, Framing.Frame, PipeSpec.LogOf, Bytes.FromLittleEndian;
      ghost var tail := Parse(bytes, o.limit).tail;
      Absorbed(o, history, bytes, chunk);
      CopyTo(chunk, rBuffer, k.pos);
      assert rBuffer[..k.pos + |chunk|] == Held(tail) + chunk;
      bytes := bytes + chunk;
      if k.ReadHeader? {
        HeaderRead(k.pos, k.size, |chunk|, fd, tail + chunk);
      } else {
        BodyRead(k.pos, k.size, |chunk|, fd, tail + chunk);
      }
    }

    /** The log lags behind the bytes by `late`. */
    ghost predicate Behind(late: seq<Event>)
      reads this
    {
      && log + late == LogOf(history, bytes, o.limit) && wire == Wire(sent) && readyCalls == 0
      && !stopped && pending == [] && retryWaits == [] && reader.Some? && readLoopActive
      && probeWaits == (if writer.Some? then 1 else 0)
      && Descriptors() && rBuffer.Length == o.limit + HEADER
      && (!Parse(bytes, o.limit).oversize ==> Partial(Parse(bytes, o.limit).tail, o.limit))
    }

    method HeaderRead(pos: nat, size: nat, count: nat, fd: int, ghost grown: seq<byte>)
      requires size == HEADER && 0 < count <= size - pos && |grown| == pos + count
      requires Behind(if pos + count == size && !connected then [Connect] else [])
      requires rBuffer[..pos + count] == grown
      requires if pos + count < size then connected <==> |bytes| >= HEADER else |bytes| >= HEADER
      requires var parsed := Parse(bytes, o.limit);
               if pos + count < size then !parsed.oversize && parsed.tail == grown
               else if FromLittleEndian(grown) > o.limit then parsed.oversize
               else !parsed.oversize && parsed.tail == if FromLittleEndian(grown) == 0 then [] else grown
      modifies `retryWaits, `probeWaits, `readLoopActive, `reader, `pending, `readFd, `readyNotified, `readyCalls,
               `rBuffer, `connected, `log, `stopped, `bytes, `history
      ensures Valid() && (rBuffer == old(rBuffer) || fresh(rBuffer))
      ensures Abs() == if old(Parse(bytes, o.limit).oversize) then Lost(o, old(Abs()), fd)
                       else old(Abs()).(mode := Reading)
    {
      hide Framing.Parse, Framing.First, Framing.Wire, Framing.Frame, PipeSpec.LogOf, PipeSpec.Opened, PipeSpec.Lost;
      if pos + count != size {
        StartHeader(pos + count, size);
        return;
      }
      if !connected {
        log := log + [Connect];
        connected := true;
      }
      var payloadSize := FromArray(host, rBuffer[..HEADER], HEADER);
      assert grown[..HEADER] == grown;
      if payloadSize == 0 {
        StartHeader(0, HEADER);
        return;
      }
      StartBody(0, payloadSize, fd);
    }

    method StartBody(pos: nat, size: nat, fd: int)
      requires pos < size
      requires size > o.limit ==> Descriptors() && Observed() && pending == [] && reader.Some? && !stopped
      modifies `retryWaits, `probeWaits, `readLoopActive, `reader, `pending, `readFd, `readyNotified, `readyCalls,
               `rBuffer, `connected, `log, `stopped, `bytes, `history
      ensures reader.None? && size <= o.limit ==> unchanged(this)
      ensures size > o.limit ==>
                Valid() && (rBuffer == old(rBuffer) || fresh(rBuffer)) && Abs() == Lost(o, old(Abs()), fd)
      ensures old(reader).Some? && size <= o.limit ==>
                && pending == old(pending) + [ReadBody(pos, size)]
                && unchanged(`retryWaits, `probeWaits, `readLoopActive, `reader, `readFd, `readyNotified, `readyCalls,
                             `rBuffer, `connected, `log, `stopped, `bytes, `history)
    {
      if reader.None? {
        return;
      }
      if size > o.limit {
        HandleReadDisconnect(fd);
        return;
      }
      pending := pending + [ReadBody(pos, size)];
    }

    method BodyRead(pos: nat, size: nat, count: nat, fd: int, ghost grown: seq<byte>)
      requires 0 < count <= size - pos && size <= o.limit && |grown| == HEADER + pos + count
      requires Behind(if pos + count == size then [Message(grown[HEADER..])] else [])
      requires FromLittleEndian(grown[..HEADER]) == size && rBuffer[..pos + count] == grown[HEADER..]
      requires connected <==> |bytes| >= HEADER
      requires var parsed := Parse(bytes, o.limit);
               !parsed.oversize && parsed.tail == if pos + count < size then grown else []
      modifies `retryWaits, `probeWaits, `readLoopActive, `reader, `pending, `readFd, `readyNotified, `readyCalls,
               `rBuffer, `connected, `log, `stopped, `bytes, `history
      ensures Valid() && rBuffer == old(rBuffer)
      ensures Abs() == old(Abs()).(mode := Reading)
    {
      hide Framing.Parse, Framing.First, Framing.Wire, Framing.Frame, PipeSpec.LogOf;
      if pos + count != size {
        StartBody(pos + count, size, fd);
      } else {
        log := log + [Message(rBuffer[..size])];
        StartHeader(0, HEADER);
      }
    }

    /** The wait on `retry_read` completes: reopen, or resume the parked read at the position it had. */
    method RetryFired(fd: int)
      requires Valid() && !stopped && |retryWaits| == 1
      modifies `retryWaits, `probeWaits, `readLoopActive, `reader, `pending, `readFd, `readyNotified, `readyCalls,
               `rBuffer, `connected, `log, `stopped, `bytes, `history
      ensures Valid() && (rBuffer == old(rBuffer) || fresh(rBuffer))
      ensures Abs() == Apply(o, old(Abs()), RetryTimer(fd))
    {
      hide Framing.Parse, Framing.First, Framing.Wire, Framing.Frame, PipeSpec.LogOf, PipeSpec.Started, PipeSpec.Writes;
      var wait := retryWaits[0];
      retryWaits := [];
      if reader.Some? { ParseTail(bytes, o.limit); }
      match wait
      case Reopen =>
        var _ := ReconnectRead(false, fd);
      case ResumeRead(k) =>
        if k.ReadHeader? {
          StartHeader(k.pos, k.size);
        } else {
          StartBody(k.pos, k.size, fd);
        }
    }

    /** The probe wait completes: an empty frame, and the next wait. */
    method ProbeFired()
      requires Valid() && !stopped && probeWaits == 1
      modifies `probeWaits, `wire, `sent
      ensures Valid() && Abs() == Apply(o, old(Abs()), ProbeTimer)
    {
      hide Framing.Parse, Framing.First, Framing.Wire, Framing.Frame, PipeSpec.LogOf, Framing.Held, Framing.Resume;
      probeWaits := 0;
      var _ := WriteMessage([]);
      ScheduleProbe();
    }

    /** The looping `asio::write`: all of the frame, header only when it is empty. */
    method WriteMessage(data: Payload) returns (written: bool)
      requires wire == Wire(sent)
      modifies `wire, `sent
      ensures wire == Wire(sent)
      ensures written <==> writer.Some?
      ensures sent == if writer.Some? then old(sent) + [data] else old(sent)
    {
      if writer.None? {
        return false;
      }
      var header := ToArray(host, |data|, HEADER);
      if |data| == 0 {
        wire := wire + header[..];
      } else {
        wire := wire + (header[..] + data);
      }
      assert Frame(data) == if |data| == 0 then header[..] else header[..] + data;
      WireAppend(sent, data);
      sent := sent + [data];
      return true;
    }

    /** `publish`, `publish_ex` and `send`: nothing without a writer, otherwise a task on the strand. */
    method PostTask(task: Task)
      requires Valid()
      modifies `tasks
      ensures Valid() && Abs() == Apply(o, old(Abs()), Post(task))
      ensures tasks == if writer.Some? then old(tasks) + [task] else old(tasks)
    {
      hide Framing.Parse, Framing.First, Framing.Wire, Framing.Frame, PipeSpec.LogOf;
      if writer.None? {
        return;
      }
      tasks := tasks + [task];
    }

    method RunFirstTask()
      requires Valid() && !stopped && tasks != []
      modifies `tasks, `wire, `sent
      ensures Valid() && Abs() == Apply(o, old(Abs()), RunTask) && tasks == old(tasks)[1..]
    {
      hide Framing.Parse, Framing.First, Framing.Wire, Framing.Frame, PipeSpec.LogOf, Framing.Held, Framing.Resume;
      var task := tasks[0];
      tasks := tasks[1..];
      WriteTask(task);
    }

    method WriteTask(task: Task)
      requires wire == Wire(sent)
      modifies `wire, `sent
      ensures wire == Wire(sent)
      ensures sent == if writer.Some? && match task
                                         case Publish(_) => true
                                         case PublishEx(ids, _) => o.self !in ids
                                         case Send(ids, _) => o.self in ids
                      then old(sent) + [task.data] else old(sent)
    {
      match task
      case Publish(data) => var _ := WriteMessage(data);
      case PublishEx(ids, data) => if o.self !in ids { var _ := WriteMessage(data); }
      case Send(ids, data) => if o.self in ids { var _ := WriteMessage(data); }
    }

    method StopLoop()
      requires Valid()
      modifies `retryWaits, `probeWaits, `stopped
      ensures Valid() && Abs() == Apply(o, old(Abs()), Stop)
    {
      hide Framing.Parse, Framing.First, Framing.Wire, Framing.Frame, PipeSpec.LogOf, Framing.Held, Framing.Resume;
      CancelTimers();
      stopped := true;
    }

    /** `restart`: the context and everything queued in it is replaced; `connected` is cleared without a callback. */
    method RestartService(readFd: int, writeFd: int)
      requires Valid()
      modifies this
      ensures Valid() && (rBuffer == old(rBuffer) || fresh(rBuffer))
      ensures Abs() == Apply(o, old(Abs()), RestartAll(readFd, writeFd)) && onReady == old(onReady)
    {
      hide Framing.Parse, Framing.First, Framing.Wire, Framing.Frame, PipeSpec.LogOf, Framing.Held, Framing.Resume;
      ReplaceContext();
      var _ := ReconnectRead(false, readFd);
      var _ := ReconnectWrite(writeFd);
    }

    /** A fresh `Context`: no descriptors, no operation, nothing queued, not stopped. */
    method NewContext()
      modifies `reader, `writer, `pending, `tasks, `stopped, `wire, `sent
      ensures reader.None? && writer.None? && pending == [] && tasks == [] && !stopped && wire == [] && sent == []
    {
      reader, writer, pending, tasks, stopped, wire, sent := None, None, [], [], false, [], [];
    }

    /** `connected` is cleared without a callback; a marker goes into the log. */
    method EndRun()
      requires log == LogOf(history, bytes, o.limit)
      modifies `connected, `log, `history, `bytes
      ensures !connected && history == old(history) + [Epoch(old(bytes), Restarted)] && bytes == []
      ensures log == LogOf(history, bytes, o.limit)
    {
      hide Framing.Parse, PipeSpec.LogOf;
      connected := false;
      LogClosed(history, bytes, Restarted, o.limit);
      history := history + [Epoch(bytes, Restarted)];
      bytes := [];
      log := log + [Restart];
    }

    /** A new context: no descriptors, no outstanding operation, nothing queued; the current epoch is over. */
    method ReplaceContext()
      requires Descriptors() && Observed()
      modifies this
      ensures Descriptors() && Observed() && rBuffer == old(rBuffer) && onReady == old(onReady)
      ensures reader.None? && writer.None? && retryWaits == [] && probeWaits == 0 && tasks == [] && !stopped
      ensures history == old(history) + [Epoch(old(bytes), Restarted)] && bytes == [] && sent == []
    {
      hide Framing.Parse, Framing.First, Framing.Wire, Framing.Frame, PipeSpec.LogOf, Framing.Held, Framing.Resume;
      NoFrames();
      CancelTimers();
      this.readFd, this.writeFd := NO_FD, NO_FD;
      readyNotified, readLoopActive := false, false;
      EndRun();
      NewContext();
    }

    method OnReady()
      requires Valid()
      modifies `onReady
      ensures Valid() && Abs() == old(Abs()) && onReady == old(onReady) + 1
    {
      hide Framing.Parse, Framing.First, Framing.Wire, Framing.Frame, PipeSpec.LogOf;
      onReady := onReady + 1;
    }

    /** The environment: an input that cannot happen in the present state does not happen. */
    method Handle(input: Input)
      requires Valid()
      modifies this, rBuffer
      ensures Valid() && (rBuffer == old(rBuffer) || fresh(rBuffer))
      ensures Abs() == Apply(o, old(Abs()), input)
      ensures onReady == old(onReady)
    {
      hide Framing.Parse, Framing.First, Framing.Wire, Framing.Frame, PipeSpec.LogOf, Framing.Held, Framing.Resume,
        PipeSpec.Grown, PipeSpec.Lost, PipeSpec.Opened, PipeSpec.Started, PipeSpec.Writes;
      match input
      case Data(chunk, fd) =>
        if !stopped && pending != [] && 0 < |chunk| <= pending[0].size - pending[0].pos {
          ReadCompleted(Success, chunk, fd);
        }
      case Blocked => if !stopped && pending != [] { ReadCompleted(WouldBlock, [], 0); }
      case Failed(fd) => if !stopped && pending != [] { ReadCompleted(OtherError, [], fd); }
      case RetryTimer(fd) => if !stopped && retryWaits != [] { RetryFired(fd); }
      case ProbeTimer => if probeWaits != 0 { ProbeFired(); }
      case Post(task) => PostTask(task);
      case RunTask => if !stopped && tasks != [] { RunFirstTask(); }
      case Stop => StopLoop();
      case RestartAll(readFd, writeFd) => RestartService(readFd, writeFd);
    }
  }

  /** What a service has going on: which descriptors, the loop flag, outstanding reads, waits on the two timers. */
  datatype Status = Status(reader: bool, writer: bool, loopActive: bool, outstanding: nat, retries: seq<Wait>,
                           probes: nat, stopped: bool)

  /** Any run of the service, whatever the descriptors, completions, errors, timers, traffic, stops and restarts: its
      callbacks and the bytes it wrote are those of the machine of `PipeSpec`. The read loop is active iff a reader
      exists; until the loop is stopped there is exactly one continuation with a reader, a read or a parked resume,
      and without one a reopen wait iff `make_read` said retry; the probe wait is armed iff both descriptors exist. No
      `on_ready` handler is ever called: the only notification is made in the constructor, when none can be
      registered. */
  method Run(o: Options, host: Host, readFd: int, writeFd: int, inputs: seq<Input>, handlersAt: nat)
    returns (log: seq<Event>, wire: seq<byte>, status: Status, readyCalls: nat)
    ensures var s := Steps(o, Started(o, [], readFd, writeFd), inputs);
            && log == Log(o, s) && wire == Wire(s.sent) && status.writer == s.writer
            && status.stopped == s.stopped
            && (!s.stopped ==>
                  && (status.reader <==> s.mode == Reading || s.mode == Parked)
                  && status.outstanding == (if s.mode == Reading then 1 else 0)
                  && status.retries == match s.mode
                                       case Parked => [ResumeRead(Resume(Parse(s.bytes, o.limit).tail))]
                                       case Reopening => [Reopen]
                                       case _ => [])
            && status.probes == if status.reader && status.writer && !s.stopped then 1 else 0
    ensures status.loopActive <==> status.reader
    ensures readyCalls == 0
  {
    hide Framing.Parse, Framing.First, PipeSpec.LogOf, Framing.Held, Framing.Resume, Framing.Wire;
    var p := new Service(o, host, readFd, writeFd);
    ghost var start := p.Abs();
    for i := 0 to |inputs|
      invariant p.Valid() && fresh(p) && fresh(p.rBuffer) && p.o == o
      invariant p.Abs() == Steps(o, start, inputs[..i])
    {
      if i == handlersAt {
        p.OnReady();
      }
      assert inputs[..i + 1] == inputs[..i] + [inputs[i]];
      StepsAppend(o, start, inputs[..i], inputs[i]);
      p.Handle(inputs[i]);
    }
    assert inputs[..|inputs|] == inputs;
    status := Status(p.reader.Some?, p.writer.Some?, p.readLoopActive, |p.pending|, p.retryWaits, p.probeWaits,
                     p.stopped);
    return p.log, p.wire, status, p.readyCalls;
  }

  /** What the environment does with the outstanding read of `DeliverThrough`. */
  datatype Turn = Take(wish: nat) | WouldBlockFirst

  /** Chunking independence, as for `TcpConnection.Deliver` and with the same result: a descriptor holding `stream` is
      read to its end or to its first oversize frame, with any chunk sizes and any would-blocks in between. */
  method DeliverThrough(o: Options, host: Host, stream: seq<byte>, turns: seq<Turn>)
    returns (log: seq<Event>, lost: bool)
    requires o.makeRead
    ensures log == (if |stream| >= HEADER then [Connect] else []) + Each(Parse(stream, o.limit).messages)
                   + (if lost then [Disconnect] else [])
    ensures lost <==> Parse(stream, o.limit).oversize
  {
    hide Framing.Parse, Framing.First, Framing.Wire, Framing.Frame, PipeSpec.LogOf, Framing.Held, Service.Valid;
    var p := new Service(o, host, 0, NO_FD);
    var taken, turn := 0, 0;
    lost := false;
    ShortStream([], o.limit);
    while taken < |stream| && !lost
      invariant p.Valid() && fresh(p) && fresh(p.rBuffer) && p.o == o
      invariant taken <= |stream| && HasRead(p.Abs(), stream[..taken], lost, o.limit)
      decreases |stream| - taken, |turns| - turn
    {
      if turn < |turns| && turns[turn].WouldBlockFirst? {
        BlockOnce(p);
      } else {
        var count := TakeSome(p, stream, taken, if turn < |turns| then Some(turns[turn].wish) else None);
        taken := taken + count;
        lost := p.reader.None?;
      }
      turn := turn + 1;
    }
    DeliveredLog(o.limit, stream, stream[..taken], lost);
    log := Logged(p);
  }

  /** A pipe without a writer that has read these bytes from its one descriptor, and has lost it if they say so. */
  predicate HasRead(s: State, bytes: seq<byte>, lost: bool, limit: nat) {
    && !s.writer && (lost <==> Parse(bytes, limit).oversize)
    && if lost then s.history == [Epoch(bytes, Disconnected)] && s.bytes == [] && s.mode != Reading && s.mode != Parked
       else s.history == [] && s.bytes == bytes && s.mode == Reading && !s.stopped
  }

  /** The read would block; the retry timer resumes it. */
  method BlockOnce(p: Service)
    requires p.Valid() && !p.stopped && p.Abs().mode == Reading
    modifies p, p.rBuffer
    ensures p.Valid() && (p.rBuffer == old(p.rBuffer) || fresh(p.rBuffer)) && p.Abs() == old(p.Abs())
  {
    hide Framing.Parse, Framing.First, Framing.Wire, Framing.Frame, PipeSpec.LogOf, Framing.Held, Service.Valid;
    p.Handle(Blocked);
    p.Handle(RetryTimer(NO_FD));
  }

  /** The read completes with some of what is left of the stream, as much as wished or all that the window takes. */
  method TakeSome(p: Service, stream: seq<byte>, taken: nat, wish: Option<nat>) returns (count: nat)
    requires p.Valid() && taken < |stream| && HasRead(p.Abs(), stream[..taken], false, p.o.limit)
    modifies p, p.rBuffer
    ensures p.Valid() && (p.rBuffer == old(p.rBuffer) || fresh(p.rBuffer))
    ensures 0 < count <= |stream| - taken
    ensures HasRead(p.Abs(), stream[..taken + count], p.reader.None?, p.o.limit)
  {
    hide Framing.Parse, Framing.First, Framing.Wire, Framing.Frame, PipeSpec.LogOf, Framing.Held;
    var window := p.pending[0].size - p.pending[0].pos;
    count := TcpConnection.Clamp(if wish.Some? then wish.value else window, window, |stream| - taken);
    assert stream[..taken + count] == stream[..taken] + stream[taken..taken + count];
    p.Handle(Data(stream[taken..taken + count], NO_FD));
  }

  method Logged(p: Service) returns (log: seq<Event>)
    requires p.Valid()
    ensures log == Log(p.o, p.Abs())
  {
    hide Framing.Parse, PipeSpec.LogOf;
    return p.log;
  }

  lemma DeliveredLog(limit: nat, stream: seq<byte>, part: seq<byte>, lost: bool)
    requires part <= stream && (Parse(part, limit).oversize <==> lost) && (lost || part == stream)
    ensures LogOf(if lost then [Epoch(part, Disconnected)] else [], if lost then [] else part, limit)
              == (if |stream| >= HEADER then [Connect] else []) + Each(Parse(stream, limit).messages)
                 + (if lost then [Disconnect] else [])
    ensures Parse(stream, limit).oversize <==> lost
  {
    hide Framing.Parse, Framing.First, Framing.Wire, Framing.Frame, PipeSpec.LogOf;
    ParsePrefix(part, stream, limit);
    FirstLog(part, limit);
    if lost {
      OversizeIsLong(part, limit);
      LogClosed([], part, Disconnected, limit);
      assert [] + [Epoch(part, Disconnected)] == [Epoch(part, Disconnected)];
    }
  }

  /** What a chunk makes of the frame that is being read. */
  lemma Absorbed(o: Options, history: seq<Epoch>, bytes: seq<byte>, chunk: seq<byte>)
    requires !Parse(bytes, o.limit).oversize
    requires var k := Resume(Parse(bytes, o.limit).tail); 0 < |chunk| <= k.size - k.pos
    ensures var before, after := Parse(bytes, o.limit), Parse(bytes + chunk, o.limit);
            var k, grown := Resume(before.tail), before.tail + chunk;
            && |grown| == |before.tail| + |chunk| && (!after.oversize ==> Partial(after.tail, o.limit))
            && if k.ReadHeader? then
                 && k.size == HEADER && |before.tail| == k.pos && Held(before.tail) == before.tail
                 && (if k.pos + |chunk| < k.size then
                       after.tail == grown && !after.oversize && (|bytes| >= HEADER <==> |bytes + chunk| >= HEADER)
                       && LogOf(history, bytes + chunk, o.limit) == LogOf(history, bytes, o.limit)
                     else
                       && |bytes + chunk| >= HEADER
                       && LogOf(history, bytes + chunk, o.limit)
                            == LogOf(history, bytes, o.limit) + (if |bytes| < HEADER then [Connect] else [])
                       && if FromLittleEndian(grown) > o.limit then after.oversize
                          else !after.oversize && after.tail == if FromLittleEndian(grown) == 0 then [] else grown)
               else
                 && |before.tail| == HEADER + k.pos && Held(before.tail) == before.tail[HEADER..] && k.size <= o.limit
                 && |bytes| >= HEADER && FromLittleEndian(grown[..HEADER]) == k.size
                 && !after.oversize && after.tail == (if k.pos + |chunk| < k.size then grown else [])
                 && LogOf(history, bytes + chunk, o.limit)
                      == LogOf(history, bytes, o.limit)
                         + if k.pos + |chunk| == k.size then [Message(grown[HEADER..])] else []
  {
    hide Framing.Parse, Framing.First, Bytes.FromLittleEndian;
    var s := State(Reading, bytes, history, false, [], [], false);
    Grow(bytes, chunk, o.limit);
    ParseTail(bytes, o.limit);
    LogGrow(o, s, chunk);
    ShortStream(bytes, o.limit);
    if !Parse(bytes + chunk, o.limit).oversize { ParseTail(bytes + chunk, o.limit); }
    assert |Parse(bytes, o.limit).tail| >= HEADER ==>
             (Parse(bytes, o.limit).tail + chunk)[..HEADER] == Parse(bytes, o.limit).tail[..HEADER];
  }

  lemma FirstLog(bytes: seq<byte>, limit: nat)
    ensures LogOf([], bytes, limit) == (if |bytes| >= HEADER then [Connect] else [])
        + Each(Parse(bytes, limit).messages)
  {
    hide Framing.Parse;
    assert HistoryLog([], limit) == [];
  }
}
