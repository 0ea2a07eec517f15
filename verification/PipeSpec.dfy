/** The pipe service seen from outside: which bytes each read descriptor yielded and how it ended determine every
    callback. `Pipe` refines this machine; the theorems about whole runs are stated here. */
module PipeSpec {
  import opened Bytes
  import opened Framing
  import opened Ids
  import Routing

  // ---- Observable history ----

  /** How the bytes of one read descriptor ended: not yet, by a read disconnect, or by `restart`. */
  datatype End = Open | Disconnected | Restarted
  datatype Epoch = Epoch(bytes: seq<byte>, end: End)

  /** The callbacks, with a marker where `restart` was called. */
  datatype Event = Connect | Message(payload: seq<byte>) | Disconnect | Restart

  function Each(messages: seq<seq<byte>>): (r: seq<Event>)
    ensures |r| == |messages| && forall i :: 0 <= i < |r| ==> r[i] == Message(messages[i])
  {
    seq(|messages|, i requires 0 <= i < |messages| => Message(messages[i]))
  }

  /** The callbacks owed to one descriptor: connect at its first complete header, its own parse, and a disconnect
      for every connect unless `restart` dropped it. */
  function EpochLog(e: Epoch, limit: nat): seq<Event> {
    (if |e.bytes| >= HEADER then [Connect] else [])
    + Each(Parse(e.bytes, limit).messages)
    + match e.end
      case Open => []
      case Disconnected => if |e.bytes| >= HEADER then [Disconnect] else []
      case Restarted => [Restart]
  }

  function HistoryLog(history: seq<Epoch>, limit: nat): seq<Event> {
    if history == [] then []
    else HistoryLog(history[..|history| - 1], limit) + EpochLog(history[|history| - 1], limit)
  }

  // ---- The machine ----

  datatype Options = Options(limit: nat, makeRead: bool, makeWrite: bool, self: ID)

  /** The one thing the read side waits for: a read, the retry of a read that would block, the next attempt to open
      a descriptor, or nothing. */
  datatype Mode = Reading | Parked | Reopening | Idle

  datatype Task = Publish(data: Payload) | PublishEx(ids: seq<ID>, data: Payload) | Send(ids: seq<ID>, data: Payload)

  /** `bytes` is what the current read descriptor has yielded, `sent` the frames put on the current write descriptor. */
  datatype State = State(mode: Mode, bytes: seq<byte>, history: seq<Epoch>,
                         writer: bool, sent: seq<Payload>, queue: seq<Task>, stopped: bool)

  /** A number `fd` is the answer `make_read` (or `make_write`) gives if it is asked during the step. */
  datatype Input =
    | Data(chunk: seq<byte>, fd: int)
    | Blocked
    | Failed(fd: int)
    | RetryTimer(fd: int)
    | ProbeTimer
    | Post(task: Task)
    | RunTask
    | Stop
    | RestartAll(readFd: int, writeFd: int)

  const RETRY_FD := -2

  function Log(o: Options, s: State): seq<Event> {
    LogOf(s.history, s.bytes, o.limit)
  }

  function LogOf(history: seq<Epoch>, current: seq<byte>, limit: nat): seq<Event> {
    HistoryLog(history, limit) + EpochLog(Epoch(current, Open), limit)
  }

  lemma LogClosed(history: seq<Epoch>, bytes: seq<byte>, end: End, limit: nat)
    requires end != Open
    ensures LogOf(history + [Epoch(bytes, end)], [], limit)
              == LogOf(history, bytes, limit)
                 + if end == Restarted then [Restart] else if |bytes| >= HEADER then [Disconnect] else []
  {
    assert (history + [Epoch(bytes, end)])[..|history|] == history;
    assert EpochLog(Epoch([], Open), limit) == [];
  }

  function Opened(o: Options, s: State, fd: int): State {
    s.(bytes := [],
       mode := if !o.makeRead then Idle else if fd >= 0 then Reading else if fd == RETRY_FD then Reopening else Idle)
  }

  /** A read disconnect: the epoch ends, the next descriptor is asked for, and the loop stops itself exactly when there
      is neither a descriptor nor a retry nor a writer. */
  function Lost(o: Options, s: State, fd: int): State {
    Opened(o, s.(history := s.history + [Epoch(s.bytes, Disconnected)],
                 stopped := o.makeRead && fd < 0 && fd != RETRY_FD && !s.writer), fd)
  }

  function Grown(o: Options, s: State, chunk: seq<byte>, fd: int): State {
    var t := s.(bytes := s.bytes + chunk, mode := Reading);
    if Parse(t.bytes, o.limit).oversize then Lost(o, t, fd) else t
  }

  /** A completion carries at least one byte and at most what the current frame part still misses. */
  predicate Fits(o: Options, s: State, chunk: seq<byte>) {
    var k := Resume(Parse(s.bytes, o.limit).tail);
    0 < |chunk| <= k.size - k.pos
  }

  predicate Writes(o: Options, task: Task) {
    match task
    case Publish(_) => true
    case PublishEx(ids, _) => o.self !in ids
    case Send(ids, _) => o.self in ids
  }

  function OpOf(task: Task): Routing.Op {
    match task
    case Publish(_) => Routing.Publish
    case PublishEx(ids, _) => Routing.PublishEx(ids)
    case Send(ids, _) => Routing.Send(ids)
  }

  /** A pipe routes like a gateway's service with one peer, whose id is the pipe's own: `publish` always writes,
      `publish_ex` if that id is not listed, `send` if it is. */
  lemma WritesAsRouted(o: Options, ids: seq<ID>, data: Payload)
    ensures forall task: Task ::
              Routing.Recipients(Routing.Single(Some(o.self)), OpOf(task)) == if Writes(o, task) then [o.self] else []
    ensures Writes(o, Publish(data))
    ensures Writes(o, PublishEx(ids, data)) <==> o.self !in ids
    ensures Writes(o, Send(ids, data)) <==> o.self in ids
    ensures OpOf(PublishEx(ids, data)) == Routing.PublishEx(ids) && OpOf(Send(ids, data)) == Routing.Send(ids)
  {
    forall task: Task
      ensures Routing.Recipients(Routing.Single(Some(o.self)), OpOf(task)) == if Writes(o, task) then [o.self] else []
    {
      if task.PublishEx? { Routing.OneUnlisted(o.self, task.ids); }
    }
  }

  /** Which inputs the environment can produce in a state. */
  predicate Enabled(o: Options, s: State, input: Input) {
    match input
    case Data(chunk, _) => !s.stopped && s.mode == Reading && Fits(o, s, chunk)
    case Blocked => !s.stopped && s.mode == Reading
    case Failed(_) => !s.stopped && s.mode == Reading
    case RetryTimer(_) => !s.stopped && (s.mode == Parked || s.mode == Reopening)
    case ProbeTimer => !s.stopped && (s.mode == Reading || s.mode == Parked) && s.writer
    case RunTask => !s.stopped && s.queue != []
    case Post(_) => true
    case Stop => true
    case RestartAll(_, _) => true
  }

  function Apply(o: Options, s: State, input: Input): State {
    if !Enabled(o, s, input) then s else
    match input
    case Data(chunk, fd) => Grown(o, s, chunk, fd)
    case Blocked => s.(mode := Parked)
    case Failed(fd) => Lost(o, s, fd)
    case RetryTimer(fd) => if s.mode == Parked then s.(mode := Reading) else Opened(o, s, fd)
    case ProbeTimer => s.(sent := s.sent + [[]])
    case Post(task) => if s.writer then s.(queue := s.queue + [task]) else s
    case RunTask =>
      var t := s.(queue := s.queue[1..]);
      if s.writer && Writes(o, s.queue[0]) then t.(sent := s.sent + [s.queue[0].data]) else t
    case Stop => s.(stopped := true, mode := if s.mode == Reopening then Idle else s.mode)
    case RestartAll(readFd, writeFd) => Started(o, s.history + [Epoch(s.bytes, Restarted)], readFd, writeFd)
  }

  function Started(o: Options, history: seq<Epoch>, readFd: int, writeFd: int): State {
    Opened(o, State(Idle, [], history, o.makeWrite && writeFd >= 0, [], [], false), readFd)
  }

  function Steps(o: Options, s: State, inputs: seq<Input>): State
    decreases |inputs|
  {
    if inputs == [] then s else Steps(o, Apply(o, s, inputs[0]), inputs[1..])
  }

  lemma {:induction false} StepsAppend(o: Options, s: State, inputs: seq<Input>, last: Input)
    ensures Steps(o, s, inputs + [last]) == Apply(o, Steps(o, s, inputs), last)
    decreases |inputs|
  {
    if inputs == [] {
      assert inputs + [last] == [last];
    } else {
      StepsAppend(o, Apply(o, s, inputs[0]), inputs[1..], last);
      assert (inputs + [last])[1..] == inputs[1..] + [last];
    }
  }

  // ---- How one completion changes the log ----

  lemma LogGrow(o: Options, s: State, chunk: seq<byte>)
    requires !Parse(s.bytes, o.limit).oversize && Fits(o, s, chunk)
    ensures var before := Parse(s.bytes, o.limit);
            var k := Resume(before.tail);
            var t := s.(bytes := s.bytes + chunk);
            Log(o, t) == Log(o, s)
              + (if |s.bytes| < HEADER <= |t.bytes| then [Connect] else [])
              + (if k.ReadBody? && k.pos + |chunk| == k.size then [Message((before.tail + chunk)[HEADER..])] else [])
    ensures |s.bytes| < HEADER <= |s.bytes + chunk| ==>
              var k := Resume(Parse(s.bytes, o.limit).tail); k.ReadHeader? && k.pos + |chunk| == k.size
  {
    hide Framing.Parse, Framing.First;
    Grow(s.bytes, chunk, o.limit);
    ShortStream(s.bytes, o.limit);
    var before, after := Parse(s.bytes, o.limit), Parse(s.bytes + chunk, o.limit);
    if |s.bytes| < HEADER {
      assert before.messages == [] && before.tail == s.bytes;
      assert Each(before.messages) == [] && Each(after.messages) == [];
    } else if after.messages != before.messages {
      assert Each(after.messages) == Each(before.messages) + [Message((before.tail + chunk)[HEADER..])];
    }
  }

  // ---- Theorems about whole runs ----

  /** Connect and disconnect alternate, starting with connect; messages come in between; `restart` starts anew. */
  predicate WellFormed(log: seq<Event>) { Inside(log).Some? }

  /** Whether the service is connected after a well-formed log. */
  function Inside(log: seq<Event>): Option<bool> {
    if log == [] then Some(false) else
    var before := Inside(log[..|log| - 1]);
    if before.None? then None else
    match log[|log| - 1]
    case Connect => if before.value then None else Some(true)
    case Message(_) => if before.value then Some(true) else None
    case Disconnect => if before.value then Some(false) else None
    case Restart => Some(false)
  }

  lemma InsideOne(log: seq<Event>, e: Event)
    ensures Inside(log + [e]) == if Inside(log).None? then None else
              match e
              case Connect => if Inside(log).value then None else Some(true)
              case Message(_) => if Inside(log).value then Some(true) else None
              case Disconnect => if Inside(log).value then Some(false) else None
              case Restart => Some(false)
  {
    assert (log + [e])[..|log|] == log;
  }

  /** Before position `i` there was a connect, and only messages since. */
  ghost predicate OpenAt(log: seq<Event>, i: nat)
    requires i <= |log|
  {
    exists j: nat :: j < i && log[j] == Connect && forall k :: j < k < i ==> log[k].Message?
  }

  /** A connect comes when there is no open one, a message or a disconnect when there is. */
  ghost predicate InTurn(log: seq<Event>, i: nat)
    requires i < |log|
  {
    match log[i]
    case Connect => !OpenAt(log, i)
    case Message(_) => OpenAt(log, i)
    case Disconnect => OpenAt(log, i)
    case Restart => true
  }

  /** What it means for a log to be well-formed, event by event. */
  lemma {:induction false} Language(log: seq<Event>)
    ensures WellFormed(log) <==> forall i: nat :: i < |log| ==> InTurn(log, i)
    ensures WellFormed(log) ==> (Inside(log).value <==> OpenAt(log, |log|))
  {
    if log != [] {
      var n := |log| - 1;
      var init := log[..n];
      Language(init);
      forall i: nat | i <= n
        ensures OpenAt(init, i) == OpenAt(log, i) && (i < n ==> InTurn(init, i) == InTurn(log, i))
      {
        OpenBefore(log, n, i);
      }
      OpenAfter(log);
      assert WellFormed(log) <==> WellFormed(init) && InTurn(log, n);
    }
  }

  lemma OpenBefore(log: seq<Event>, n: nat, i: nat)
    requires i <= n <= |log|
    ensures OpenAt(log[..n], i) == OpenAt(log, i)
  {
    forall j: nat | j < i ensures log[..n][j] == log[j] {}
    if OpenAt(log[..n], i) {
      var j: nat :| j < i && log[..n][j] == Connect && forall k :: j < k < i ==> log[..n][k].Message?;
      forall k | j < k < i ensures log[k].Message? { assert log[..n][k].Message?; }
      assert log[j] == Connect;
    }
  }

  lemma OpenAfter(log: seq<Event>)
    requires log != []
    ensures var last := log[|log| - 1];
            OpenAt(log, |log|) <==> last.Connect? || (last.Message? && OpenAt(log, |log| - 1))
  {
    var n := |log| - 1;
    if log[n].Connect? {
      assert OpenAt(log, |log|);
    } else if log[n].Message? && OpenAt(log, n) {
      var j: nat :| j < n && log[j] == Connect && forall k :: j < k < n ==> log[k].Message?;
      assert OpenAt(log, |log|);
    }
  }

  lemma {:induction false} InsideEach(log: seq<Event>, messages: seq<seq<byte>>)
    requires Inside(log) == Some(true)
    ensures Inside(log + Each(messages)) == Some(true)
  {
    if messages == [] {
      assert log + Each(messages) == log;
    } else {
      var init := messages[..|messages| - 1];
      InsideEach(log, init);
      InsideOne(log + Each(init), Message(messages[|messages| - 1]));
      assert log + Each(messages) == log + Each(init) + [Message(messages[|messages| - 1])];
    }
  }

  lemma InsideEpoch(log: seq<Event>, e: Epoch, limit: nat)
    requires Inside(log) == Some(false)
    ensures Inside(log + EpochLog(e, limit)) == Some(e.end == Open && |e.bytes| >= HEADER)
  {
    hide Framing.Parse;
    ShortStream(e.bytes, limit);
    var messages := Parse(e.bytes, limit).messages;
    var open := log + (if |e.bytes| >= HEADER then [Connect] else []) + Each(messages);
    if |e.bytes| >= HEADER {
      InsideOne(log, Connect);
      InsideEach(log + [Connect], messages);
    } else {
      assert messages == [] && open == log;
    }
    InsideOne(open, Disconnect);
    InsideOne(open, Restart);
    var closing := match e.end
      case Open => []
      case Disconnected => if |e.bytes| >= HEADER then [Disconnect] else []
      case Restarted => [Restart];
    assert log + EpochLog(e, limit) == open + closing;
    assert open + [] == open;
  }

  lemma {:induction false} InsideHistory(history: seq<Epoch>, limit: nat)
    requires forall e :: e in history ==> e.end != Open
    ensures Inside(HistoryLog(history, limit)) == Some(false)
  {
    if history != [] {
      var init := history[..|history| - 1];
      InsideHistory(init, limit);
      InsideEpoch(HistoryLog(init, limit), history[|history| - 1], limit);
    }
  }

  /** What holds in every state of a run: past epochs are closed, the current one is not oversize, and without a
      descriptor there are no bytes. */
  predicate Coherent(o: Options, s: State) {
    && (forall e :: e in s.history ==> e.end != Open)
    && !Parse(s.bytes, o.limit).oversize
    && (s.mode == Reading || s.mode == Parked || s.bytes == [])
    && (s.mode != Idle ==> o.makeRead)
  }

  lemma StepKeeps(o: Options, s: State, input: Input)
    requires Coherent(o, s)
    ensures Coherent(o, Apply(o, s, input))
  {
    hide First;
    ShortStream([], o.limit);
  }

  lemma {:induction false} RunKeeps(o: Options, s: State, inputs: seq<Input>)
    requires Coherent(o, s)
    ensures Coherent(o, Steps(o, s, inputs))
    decreases |inputs|
  {
    if inputs != [] {
      StepKeeps(o, s, inputs[0]);
      RunKeeps(o, Apply(o, s, inputs[0]), inputs[1..]);
    }
  }

  /** Event language: over every run, with any descriptors, errors, retries and restarts. */
  lemma EventLanguage(o: Options, readFd: int, writeFd: int, inputs: seq<Input>)
    ensures var s := Steps(o, Started(o, [], readFd, writeFd), inputs);
            WellFormed(Log(o, s)) && (Inside(Log(o, s)).value <==> |s.bytes| >= HEADER)
  {
    var s := Steps(o, Started(o, [], readFd, writeFd), inputs);
    ShortStream([], o.limit);
    RunKeeps(o, Started(o, [], readFd, writeFd), inputs);
    InsideHistory(s.history, o.limit);
    InsideEpoch(HistoryLog(s.history, o.limit), Epoch(s.bytes, Open), o.limit);
  }

  /** The payloads in a log. */
  function Payloads(log: seq<Event>): seq<seq<byte>> {
    if log == [] then [] else
    var e := log[|log| - 1];
    Payloads(log[..|log| - 1]) + if e.Message? then [e.payload] else []
  }

  function Parses(history: seq<Epoch>, limit: nat): seq<seq<byte>> {
    if history == [] then []
    else Parses(history[..|history| - 1], limit) + Parse(history[|history| - 1].bytes, limit).messages
  }

  lemma {:induction false} PayloadsAppend(a: seq<Event>, b: seq<Event>)
    ensures Payloads(a + b) == Payloads(a) + Payloads(b)
  {
    if b == [] {
      assert a + b == a;
    } else {
      PayloadsAppend(a, b[..|b| - 1]);
      assert (a + b)[..|a + b| - 1] == a + b[..|b| - 1];
    }
  }

  lemma {:induction false} PayloadsEach(messages: seq<seq<byte>>)
    ensures Payloads(Each(messages)) == messages
  {
    if messages != [] {
      PayloadsEach(messages[..|messages| - 1]);
      assert Each(messages)[..|messages| - 1] == Each(messages[..|messages| - 1]);
      assert messages == messages[..|messages| - 1] + [messages[|messages| - 1]];
    }
  }

  lemma PayloadsEpoch(e: Epoch, limit: nat)
    ensures Payloads(EpochLog(e, limit)) == Parse(e.bytes, limit).messages
  {
    var opening := if |e.bytes| >= HEADER then [Connect] else [];
    var body := Each(Parse(e.bytes, limit).messages);
    var closing := match e.end
      case Open => []
      case Disconnected => if |e.bytes| >= HEADER then [Disconnect] else []
      case Restarted => [Restart];
    assert EpochLog(e, limit) == (opening + body) + closing;
    PayloadsAppend(opening + body, closing);
    PayloadsAppend(opening, body);
    PayloadsEach(Parse(e.bytes, limit).messages);
    assert Payloads(opening) == [] && Payloads(closing) == [];
  }

  lemma {:induction false} PayloadsHistory(history: seq<Epoch>, limit: nat)
    ensures Payloads(HistoryLog(history, limit)) == Parses(history, limit)
  {
    if history != [] {
      PayloadsHistory(history[..|history| - 1], limit);
      PayloadsAppend(HistoryLog(history[..|history| - 1], limit), EpochLog(history[|history| - 1], limit));
      PayloadsEpoch(history[|history| - 1], limit);
    }
  }

  lemma DeliveredByState(o: Options, s: State)
    ensures Payloads(Log(o, s)) == Parses(s.history + [Epoch(s.bytes, Open)], o.limit)
  {
    var all := s.history + [Epoch(s.bytes, Open)];
    assert all[..|all| - 1] == s.history;
    PayloadsHistory(s.history, o.limit);
    PayloadsAppend(HistoryLog(s.history, o.limit), EpochLog(Epoch(s.bytes, Open), o.limit));
    PayloadsEpoch(Epoch(s.bytes, Open), o.limit);
  }

  // ---- What the inputs of a run carried ----

  /** The bytes that one read completion carried; nothing for any other input, and for a completion that cannot be. */
  function Carried(o: Options, s: State, input: Input): seq<byte> {
    if input.Data? && Enabled(o, s, input) then input.chunk else []
  }

  /** The bytes that the read completions of a run carried, on whichever descriptor. */
  function Received(o: Options, s: State, inputs: seq<Input>): seq<byte>
    decreases |inputs|
  {
    if inputs == [] then [] else Carried(o, s, inputs[0]) + Received(o, Apply(o, s, inputs[0]), inputs[1..])
  }

  /** Whether and how an input takes the descriptor away: `restart`, a failed read, or the header of an oversize
      frame. */
  function Ending(o: Options, s: State, input: Input): End {
    match input
    case RestartAll(_, _) => Restarted
    case Failed(_) => if Enabled(o, s, input) then Disconnected else Open
    case Data(chunk, _) =>
      if Enabled(o, s, input) && Parse(s.bytes + chunk, o.limit).oversize then Disconnected else Open
    case _ => Open
  }

  /** The chunks of a run, in order, cut wherever a descriptor was taken away; the last span is that of the present
      descriptor, and a span is empty when no descriptor could be opened. */
  function Spans(o: Options, s: State, inputs: seq<Input>): (r: seq<Epoch>)
    ensures |r| > 0
    decreases |inputs|
  {
    if inputs == [] then [Epoch([], Open)] else
    var chunk, end := Carried(o, s, inputs[0]), Ending(o, s, inputs[0]);
    var rest := Spans(o, Apply(o, s, inputs[0]), inputs[1..]);
    if end == Open then Joined(chunk, rest) else [Epoch(chunk, end)] + rest
  }

  function Yielded(epochs: seq<Epoch>): seq<byte> {
    if epochs == [] then [] else epochs[0].bytes + Yielded(epochs[1..])
  }

  /** The epochs of a state, the present one last. */
  function Epochs(s: State): seq<Epoch> { s.history + [Epoch(s.bytes, Open)] }

  lemma OneSpan(o: Options, s: State, input: Input)
    requires Coherent(o, s)
    ensures var end, now := Ending(o, s, input), s.bytes + Carried(o, s, input);
            var t := Apply(o, s, input);
            if end == Open then t.history == s.history && t.bytes == now
            else t.history == s.history + [Epoch(now, end)] && t.bytes == []
  {
    hide Parse;
    assert s.bytes + [] == s.bytes;
  }

  /** For every run: each descriptor's epoch holds exactly the chunks accepted while it was there, and ended as the
      inputs say. Nothing of a partial frame crosses from one descriptor to the next. */
  lemma {:induction false} EpochsAreSpans(o: Options, s: State, inputs: seq<Input>)
    requires Coherent(o, s)
    ensures Epochs(Steps(o, s, inputs)) == s.history + Joined(s.bytes, Spans(o, s, inputs))
    decreases |inputs|
  {
    hide Parse, Coherent, Ending, Carried, Apply, Joined;
    if inputs == [] {
      JoinedTwice(s.bytes, [], Open, [Epoch([], Open)]);
    } else {
      var t := Apply(o, s, inputs[0]);
      var chunk, end := Carried(o, s, inputs[0]), Ending(o, s, inputs[0]);
      var rest := Spans(o, t, inputs[1..]);
      StepKeeps(o, s, inputs[0]);
      OneSpan(o, s, inputs[0]);
      EpochsAreSpans(o, t, inputs[1..]);
      JoinedTwice(s.bytes, chunk, end, rest);
      AppendAssociates(s.history, [Epoch(s.bytes + chunk, end)], rest);
    }
  }

  /** Spans of which the first began with these bytes. */
  function Joined(bytes: seq<byte>, spans: seq<Epoch>): seq<Epoch>
    requires spans != []
  {
    [spans[0].(bytes := bytes + spans[0].bytes)] + spans[1..]
  }

  lemma JoinedTwice(a: seq<byte>, b: seq<byte>, end: End, spans: seq<Epoch>)
    requires spans != []
    ensures Joined(a, Joined(b, spans)) == Joined(a + b, spans)
    ensures Joined([], spans) == spans && Joined(a, [Epoch([], end)]) == [Epoch(a, end)]
    ensures Joined(a, [Epoch(b, end)] + spans) == [Epoch(a + b, end)] + spans
  {
    assert a + b + spans[0].bytes == a + (b + spans[0].bytes);
    assert [] + spans[0].bytes == spans[0].bytes && a + [] == a;
  }

  lemma YieldedJoined(bytes: seq<byte>, spans: seq<Epoch>)
    requires spans != []
    ensures Yielded(Joined(bytes, spans)) == bytes + Yielded(spans)
  {
    assert Joined(bytes, spans)[1..] == spans[1..];
    assert bytes + spans[0].bytes + Yielded(spans[1..]) == bytes + (spans[0].bytes + Yielded(spans[1..]));
  }

  lemma {:induction false} SpansAreReceived(o: Options, s: State, inputs: seq<Input>)
    ensures Yielded(Spans(o, s, inputs)) == Received(o, s, inputs)
    decreases |inputs|
  {
    hide Carried, Ending, Apply;
    if inputs != [] {
      var t := Apply(o, s, inputs[0]);
      SpansAreReceived(o, t, inputs[1..]);
      YieldedJoined(Carried(o, s, inputs[0]), Spans(o, t, inputs[1..]));
    }
  }

  lemma YieldedOne(e: Epoch, rest: seq<Epoch>)
    ensures Yielded([e] + rest) == e.bytes + Yielded(rest)
  {
    assert ([e] + rest)[1..] == rest;
  }

  lemma {:induction false} YieldedAppend(a: seq<Epoch>, b: seq<Epoch>)
    ensures Yielded(a + b) == Yielded(a) + Yielded(b)
  {
    if a == [] {
      assert a + b == b;
    } else {
      hide Yielded;
      var e, rest := a[0], a[1..];
      YieldedAppend(rest, b);
      YieldedOne(e, rest);
      YieldedOne(e, rest + b);
      assert a == [e] + rest;
      AppendAssociates([e], rest, b);
      AppendAssociates(e.bytes, Yielded(rest), Yielded(b));
    }
  }

  /** For every run, whatever was lost, restarted, retried or would block in it: the descriptors together yielded what
      the completions carried, in order, no byte lost or repeated. */
  lemma BytesAreReceived(o: Options, s: State, inputs: seq<Input>)
    requires Coherent(o, s)
    ensures Yielded(Epochs(Steps(o, s, inputs))) == Yielded(Epochs(s)) + Received(o, s, inputs)
  {
    hide Spans, Received, Joined;
    var spans := Spans(o, s, inputs);
    EpochsAreSpans(o, s, inputs);
    SpansAreReceived(o, s, inputs);
    YieldedAppend(s.history, Joined(s.bytes, spans));
    YieldedJoined(s.bytes, spans);
    YieldedAppend(s.history, [Epoch(s.bytes, Open)]);
    assert Yielded([Epoch(s.bytes, Open)]) == s.bytes;
    AppendAssociates(Yielded(s.history), s.bytes, Yielded(spans));
  }

  /** Per-descriptor epochs: the payloads of every run are the independent parses of the chunks that the run's inputs
      carried between one loss or restart and the next. */
  lemma DeliveredPerEpoch(o: Options, readFd: int, writeFd: int, inputs: seq<Input>)
    ensures var start := Started(o, [], readFd, writeFd);
            Payloads(Log(o, Steps(o, start, inputs))) == Parses(Spans(o, start, inputs), o.limit)
  {
    var start := Started(o, [], readFd, writeFd);
    SpansFromStart(o, readFd, writeFd, inputs);
    DeliveredByState(o, Steps(o, start, inputs));
  }

  lemma SpansFromStart(o: Options, readFd: int, writeFd: int, inputs: seq<Input>)
    ensures var start := Started(o, [], readFd, writeFd);
            Epochs(Steps(o, start, inputs)) == Spans(o, start, inputs)
  {
    hide Joined, Spans, Steps;
    var start := Started(o, [], readFd, writeFd);
    var spans := Spans(o, start, inputs);
    ShortStream([], o.limit);
    EpochsAreSpans(o, start, inputs);
    JoinedTwice([], [], Open, spans);
    AppendNothing(spans);
  }

  /** Chunking independence: two runs, of whatever chunks, would-blocks, timers and writes, make the same callbacks when
      their descriptors yielded the same bytes and ended alike. */
  lemma ChunkingIndependence(o: Options, a: seq<Input>, b: seq<Input>, readFds: (int, int), writeFds: (int, int))
    requires Spans(o, Started(o, [], readFds.0, writeFds.0), a) == Spans(o, Started(o, [], readFds.1, writeFds.1), b)
    ensures Log(o, Steps(o, Started(o, [], readFds.0, writeFds.0), a))
         == Log(o, Steps(o, Started(o, [], readFds.1, writeFds.1), b))
  {
    SpansFromStart(o, readFds.0, writeFds.0, a);
    SpansFromStart(o, readFds.1, writeFds.1, b);
    LogByEpochs(o, Steps(o, Started(o, [], readFds.0, writeFds.0), a));
    LogByEpochs(o, Steps(o, Started(o, [], readFds.1, writeFds.1), b));
  }

  lemma LogByEpochs(o: Options, s: State)
    ensures Log(o, s) == HistoryLog(Epochs(s), o.limit)
  {
    assert Epochs(s)[..|s.history|] == s.history;
  }

  /** An input that leaves the current descriptor in place: a chunk, a would-block, a timer, traffic of the writer. */
  predicate Quiet(input: Input) {
    !input.Failed? && !input.RestartAll?
  }

  /** While nothing fails and no frame is oversize there is one descriptor, and it yielded all that was carried. */
  lemma {:induction false} OneDescriptor(o: Options, s: State, inputs: seq<Input>)
    requires Coherent(o, s) && (s.mode == Reading || s.mode == Parked)
    requires forall i :: 0 <= i < |inputs| ==> Quiet(inputs[i])
    requires !Parse(s.bytes + Received(o, s, inputs), o.limit).oversize
    ensures var t := Steps(o, s, inputs);
            && t.bytes == s.bytes + Received(o, s, inputs) && t.history == s.history
            && (t.mode == Reading || t.mode == Parked)
    decreases |inputs|
  {
    if inputs != [] {
      var t := Apply(o, s, inputs[0]);
      var chunk := Carried(o, s, inputs[0]);
      var rest := Received(o, t, inputs[1..]);
      assert s.bytes + (chunk + rest) == (s.bytes + chunk) + rest;
      ParsePrefix(s.bytes + chunk, s.bytes + Received(o, s, inputs), o.limit);
      assert s.bytes + [] == s.bytes;
      assert t.bytes == s.bytes + chunk;
      OneDescriptor(o, t, inputs[1..]);
    }
  }

  // ---- When the loop stops ----

  /** `stop`, or a read disconnect that finds neither a descriptor nor a retry nor a writer. */
  predicate Stops(o: Options, s: State, input: Input) {
    || input.Stop?
    || (Ending(o, s, input) == Disconnected && !s.writer && input.fd < 0 && input.fd != RETRY_FD)
  }

  /** Input `i` of a run stopped the loop and no later one restarted it. */
  predicate StopsAt(o: Options, s: State, inputs: seq<Input>, i: nat)
    requires i < |inputs|
  {
    Stops(o, Steps(o, s, inputs[..i]), inputs[i]) && forall j :: i < j < |inputs| ==> !inputs[j].RestartAll?
  }

  ghost predicate StoppedBy(o: Options, s: State, inputs: seq<Input>) {
    exists i: nat :: i < |inputs| && StopsAt(o, s, inputs, i)
  }

  predicate NoRestart(inputs: seq<Input>) { forall i :: 0 <= i < |inputs| ==> !inputs[i].RestartAll? }

  lemma StepStops(o: Options, s: State, input: Input)
    requires Coherent(o, s)
    ensures Apply(o, s, input).stopped <==> Stops(o, s, input) || (s.stopped && !input.RestartAll?)
  {
    hide Parse;
  }

  /** What stops a running loop, read by read: `stop`, or a failed or oversize read of a pipe without a writer whose
      `make_read` then gives neither a descriptor nor a retry. */
  lemma StopsExactly(o: Options, s: State, input: Input)
    requires Coherent(o, s) && !s.stopped
    ensures Apply(o, s, input).stopped <==>
              || input.Stop?
              || (input.Failed? && s.mode == Reading && !s.writer && input.fd < 0 && input.fd != -2)
              || (input.Data? && s.mode == Reading && Fits(o, s, input.chunk) && !s.writer
                  && Parse(s.bytes + input.chunk, o.limit).oversize && input.fd < 0 && input.fd != -2)
  {
    hide Parse;
  }

  /** Over every run: the loop is stopped iff it was told to stop, or stopped itself in a read disconnect, and was not
      restarted since. */
  lemma {:induction false} SelfStop(o: Options, s: State, inputs: seq<Input>)
    requires Coherent(o, s) && !s.stopped
    ensures Steps(o, s, inputs).stopped <==> StoppedBy(o, s, inputs)
    decreases |inputs|
  {
    hide Stops, Coherent, Apply, StoppedBy;
    if inputs == [] {
      NeverStopped(o, s);
    } else {
      var init, last := inputs[..|inputs| - 1], inputs[|inputs| - 1];
      assert inputs == init + [last];
      StepsAppend(o, s, init, last);
      RunKeeps(o, s, init);
      StepStops(o, Steps(o, s, init), last);
      SelfStop(o, s, init);
      StoppedByAppend(o, s, init, last);
    }
  }

  lemma NeverStopped(o: Options, s: State)
    ensures !StoppedBy(o, s, [])
  {
  }

  lemma StopsAtAppend(o: Options, s: State, init: seq<Input>, last: Input, i: nat)
    requires i <= |init|
    ensures StopsAt(o, s, init + [last], i)
            == if i == |init| then Stops(o, Steps(o, s, init), last) else StopsAt(o, s, init, i) && !last.RestartAll?
  {
    hide Stops, Steps;
    var inputs := init + [last];
    assert inputs[..i] == init[..i] && init[..|init|] == init && inputs[|init|] == last;
    assert forall j :: 0 <= j < |init| ==> inputs[j] == init[j];
  }

  lemma StoppedByAppend(o: Options, s: State, init: seq<Input>, last: Input)
    ensures StoppedBy(o, s, init + [last])
            <==> Stops(o, Steps(o, s, init), last) || (StoppedBy(o, s, init) && !last.RestartAll?)
  {
    hide Stops, Steps, StopsAt;
    forall i: nat | i <= |init|
      ensures StopsAt(o, s, init + [last], i)
              == if i == |init| then Stops(o, Steps(o, s, init), last) else StopsAt(o, s, init, i) && !last.RestartAll?
    {
      StopsAtAppend(o, s, init, last, i);
    }
    if StoppedBy(o, s, init) && !last.RestartAll? {
      var i: nat :| i < |init| && StopsAt(o, s, init, i);
      assert StopsAt(o, s, init + [last], i);
    }
    if Stops(o, Steps(o, s, init), last) {
      assert StopsAt(o, s, init + [last], |init|);
    }
  }

  /** Once stopped, until a restart: no descriptor is opened or lost, nothing is read or written, no handler called. */
  lemma {:induction false} StoppedIsStill(o: Options, s: State, inputs: seq<Input>)
    requires s.stopped && NoRestart(inputs)
    ensures var t := Steps(o, s, inputs);
            t.stopped && Log(o, t) == Log(o, s) && t.history == s.history && t.bytes == s.bytes && t.sent == s.sent
    decreases |inputs|
  {
    hide LogOf;
    if inputs != [] {
      StoppedIsStill(o, Apply(o, s, inputs[0]), inputs[1..]);
    }
  }

  // ---- When a descriptor is opened again ----

  /** What `make_read` answered last. It is asked at the start and by `restart`, when a descriptor is lost, and by the
      retry timer of a running loop when the answer before was to retry. */
  function LastAnswer(o: Options, start: State, readFd: int, inputs: seq<Input>): int {
    if inputs == [] then readFd else
    var init, last := inputs[..|inputs| - 1], inputs[|inputs| - 1];
    var before, s := LastAnswer(o, start, readFd, init), Steps(o, start, init);
    match last
    case RestartAll(fd, _) => fd
    case RetryTimer(fd) => if o.makeRead && before == -2 && !s.stopped then fd else before
    case Data(_, fd) => if Ending(o, s, last) == Disconnected then fd else before
    case Failed(fd) => if Ending(o, s, last) == Disconnected then fd else before
    case _ => before
  }

  /** What the read side does is what the last answer of `make_read` says: read, try again, or nothing. */
  predicate Follows(o: Options, s: State, answer: int) {
    && (s.mode == Reading || s.mode == Parked <==> o.makeRead && answer >= 0)
    && (s.mode == Reopening <==> o.makeRead && answer == -2)
    && (s.mode == Idle <==> !o.makeRead || answer == -1 || answer < -2)
  }

  lemma StepFollows(o: Options, s: State, answer: int, input: Input)
    requires Coherent(o, s) && (s.stopped || Follows(o, s, answer))
    ensures var t := Apply(o, s, input);
            var next := match input
              case RestartAll(fd, _) => fd
              case RetryTimer(fd) => if o.makeRead && answer == -2 && !s.stopped then fd else answer
              case Data(_, fd) => if Ending(o, s, input) == Disconnected then fd else answer
              case Failed(fd) => if Ending(o, s, input) == Disconnected then fd else answer
              case _ => answer;
            t.stopped || Follows(o, t, next)
  {
    hide Parse;
  }

  /** Over every run, until the loop is stopped: a pipe that was told to retry is waiting to try again, it has a
      descriptor exactly when the last answer was one, and otherwise it is idle. */
  lemma {:induction false} ReopensAsTold(o: Options, readFd: int, writeFd: int, inputs: seq<Input>)
    ensures var start := Started(o, [], readFd, writeFd);
            var s, answer := Steps(o, start, inputs), LastAnswer(o, start, readFd, inputs);
            !s.stopped ==>
              && (s.mode == Reading || s.mode == Parked <==> o.makeRead && answer >= 0)
              && (s.mode == Reopening <==> o.makeRead && answer == -2)
              && (s.mode == Idle <==> !o.makeRead || answer == -1 || answer < -2)
  {
    hide Apply, Coherent, Ending;
    var start := Started(o, [], readFd, writeFd);
    if inputs != [] {
      var init, last := inputs[..|inputs| - 1], inputs[|inputs| - 1];
      ReopensAsTold(o, readFd, writeFd, init);
      StartKeeps(o, readFd, writeFd);
      RunKeeps(o, start, init);
      StepFollows(o, Steps(o, start, init), LastAnswer(o, start, readFd, init), last);
      StepsAppend(o, start, init, last);
      assert inputs == init + [last];
    }
  }

  lemma StartKeeps(o: Options, readFd: int, writeFd: int)
    ensures Coherent(o, Started(o, [], readFd, writeFd))
  {
    ShortStream([], o.limit);
  }

  /** A descriptor that is lost, a retry that opens the next one, and a chunk on it: an epoch of its own. */
  lemma ReopenedReads(o: Options, s: State, fd: int, chunk: seq<byte>, more: int)
    requires Coherent(o, s) && s.mode == Reading && !s.stopped && fd >= 0
    requires 0 < |chunk| < HEADER || (|chunk| == HEADER && FromLittleEndian(chunk) <= o.limit)
    ensures var t := Steps(o, s, [Failed(-2), RetryTimer(fd), Data(chunk, more)]);
            && t.history == s.history + [Epoch(s.bytes, Disconnected)] && t.bytes == chunk
            && t.mode == Reading && !t.stopped
  {
    hide Parse, Steps;
    ThreeSteps(o, s, Failed(-2), RetryTimer(fd), Data(chunk, more));
    FirstChunk(chunk, o.limit);
    AppendNothing(chunk);
  }

  lemma ThreeSteps(o: Options, s: State, a: Input, b: Input, c: Input)
    ensures Steps(o, s, [a, b, c]) == Apply(o, Apply(o, Apply(o, s, a), b), c)
  {
    hide Apply;
    StepsAppend(o, s, [], a);
    StepsAppend(o, s, [a], b);
    StepsAppend(o, s, [a, b], c);
    assert [] + [a] == [a] && [a] + [b] == [a, b] && [a, b] + [c] == [a, b, c];
  }

  lemma FirstChunk(chunk: seq<byte>, limit: nat)
    requires 0 < |chunk| < HEADER || (|chunk| == HEADER && FromLittleEndian(chunk) <= limit)
    ensures Parse([], limit) == Parsed([], false, []) && !Parse(chunk, limit).oversize
  {
    ShortStream([], limit);
    ShortStream(chunk, limit);
    if |chunk| == HEADER {
      GrowTail([], chunk, limit);
      AppendNothing(chunk);
    }
  }

  /** A reopen attempt that is told "disabled" does not stop the loop. */
  lemma DisabledLeavesIdle(o: Options, s: State, fd: int)
    requires Coherent(o, s) && s.mode == Reopening && !s.stopped && fd < 0 && fd != RETRY_FD
    ensures var t := Apply(o, s, RetryTimer(fd)); t.mode == Idle && !t.stopped
  {
  }

  /** And it stays idle: until a restart nothing is opened, no handler is called, and only `stop` ends the loop. */
  lemma {:induction false} IdleForGood(o: Options, s: State, inputs: seq<Input>)
    requires Coherent(o, s) && s.mode == Idle && !s.stopped && NoRestart(inputs)
    ensures var t := Steps(o, s, inputs);
            && t.mode == Idle && Log(o, t) == Log(o, s) && (t.stopped <==> Stop in inputs)
    decreases |inputs|
  {
    hide LogOf, Coherent;
    if inputs != [] {
      var n := |inputs| - 1;
      var init, last := inputs[..n], inputs[n];
      assert inputs == init + [last];
      StepsAppend(o, s, init, last);
      IdleForGood(o, s, init);
    }
  }

  /** End-to-end delivery on one uninterrupted descriptor. One pipe put the frames `sent` on its write descriptor,
      published payloads and probes in any interleaving; the other has read some prefix of their bytes. It completed
      the first so many of these frames, and its messages are the non-empty ones among them, in order and once each. */
  lemma EndToEnd(o: Options, s: State, sent: seq<Payload>)
    requires s.history == [] && s.bytes <= Wire(sent)
    ensures Frames(s.bytes, o.limit) <= sent && Payloads(Log(o, s)) == NonEmpty(Frames(s.bytes, o.limit))
  {
    FramesAreSent(s.bytes, sent, o.limit);
    ParseKeepsBytes(s.bytes, o.limit);
    DeliveredByState(o, s);
    assert s.history + [Epoch(s.bytes, Open)] == [Epoch(s.bytes, Open)];
    assert Parses([], o.limit) + Parse(s.bytes, o.limit).messages == Parse(s.bytes, o.limit).messages;
  }

  /** With all bytes read, none of the frames being oversize, the callbacks are one connect and every non-empty
      frame. */
  lemma EndToEndComplete(o: Options, s: State, sent: seq<Payload>)
    requires Coherent(o, s) && s.history == [] && s.bytes == Wire(sent)
    ensures Accepted(sent, o.limit) == sent
    ensures Log(o, s) == (if sent == [] then [] else [Connect]) + Each(NonEmpty(sent))
  {
    ParseWire(sent, o.limit);
    if sent != [] {
      assert |Wire(sent)| >= |Frame(sent[0])| >= HEADER;
    }
  }

  /** When a frame is oversize, its header ends the descriptor: connect, the non-empty frames before it, disconnect. */
  lemma EndToEndOversize(o: Options, s: State, chunk: seq<byte>, fd: int, sent: seq<Payload>)
    requires Coherent(o, s) && s.history == [] && Enabled(o, s, Data(chunk, fd))
    requires s.bytes + chunk <= Wire(sent) && Parse(s.bytes + chunk, o.limit).oversize
    ensures Log(o, Apply(o, s, Data(chunk, fd)))
              == [Connect] + Each(NonEmpty(Accepted(sent, o.limit))) + [Disconnect]
  {
    var all := s.bytes + chunk;
    ParsePrefix(all, Wire(sent), o.limit);
    ParseWire(sent, o.limit);
    var t := Apply(o, s, Data(chunk, fd));
    assert t.history == [Epoch(all, Disconnected)] && t.bytes == [];
    assert HistoryLog(t.history[..0], o.limit) == [];
    OversizeIsLong(all, o.limit);
    assert EpochLog(Epoch([], Open), o.limit) == [];
  }

  lemma OversizeIsLong(s: seq<byte>, limit: nat)
    requires Parse(s, limit).oversize
    ensures |s| >= HEADER
  {
  }

  /** The non-empty payload that an input puts on the wire: that of an executed write task which addresses the peer. */
  function ExecutedNow(o: Options, s: State, input: Input): seq<seq<byte>> {
    if input.RunTask? && Enabled(o, s, input) && Writes(o, s.queue[0]) && s.queue[0].data != []
    then [s.queue[0].data] else []
  }

  function Executed(o: Options, s: State, inputs: seq<Input>): seq<seq<byte>>
    decreases |inputs|
  {
    if inputs == [] then [] else ExecutedNow(o, s, inputs[0]) + Executed(o, Apply(o, s, inputs[0]), inputs[1..])
  }

  lemma SentByStep(o: Options, s: State, input: Input)
    requires s.writer && !input.RestartAll?
    ensures var t := Apply(o, s, input);
            t.writer && NonEmpty(t.sent) == NonEmpty(s.sent) + ExecutedNow(o, s, input)
  {
    if input.ProbeTimer? && Enabled(o, s, input) {
      NonEmptyAppend(s.sent, []);
    } else if input.RunTask? && Enabled(o, s, input) && Writes(o, s.queue[0]) {
      NonEmptyAppend(s.sent, s.queue[0].data);
    }
  }

  /** What a run put on the write descriptor: the payload of every executed task in order; the rest are probes. */
  lemma {:induction false} SentByRun(o: Options, s: State, inputs: seq<Input>)
    requires s.writer
    requires forall i :: 0 <= i < |inputs| ==> !inputs[i].RestartAll?
    ensures NonEmpty(Steps(o, s, inputs).sent) == NonEmpty(s.sent) + Executed(o, s, inputs)
    decreases |inputs|
  {
    hide Apply, NonEmpty, ExecutedNow;
    if inputs != [] {
      var t := Apply(o, s, inputs[0]);
      SentByStep(o, s, inputs[0]);
      SentByRun(o, t, inputs[1..]);
      assert NonEmpty(t.sent) + Executed(o, t, inputs[1..])
          == NonEmpty(s.sent) + (ExecutedNow(o, s, inputs[0]) + Executed(o, t, inputs[1..]));
    }
  }

  // ---- In which order requests run ----

  /** The requests that a run posts, in order. */
  function Posted(inputs: seq<Input>): seq<Task> {
    if inputs == [] then [] else
    Posted(inputs[..|inputs| - 1]) + if inputs[|inputs| - 1].Post? then [inputs[|inputs| - 1].task] else []
  }

  /** The requests that a run executes, in order. */
  function Ran(o: Options, s: State, inputs: seq<Input>): seq<Task> {
    if inputs == [] then [] else
    var init, last := inputs[..|inputs| - 1], inputs[|inputs| - 1];
    Ran(o, s, init) + if last.RunTask? && Enabled(o, Steps(o, s, init), last) then [Steps(o, s, init).queue[0]] else []
  }

  lemma StepQueues(o: Options, s: State, input: Input)
    requires !input.RestartAll?
    ensures var t := Apply(o, s, input);
            && t.writer == s.writer
            && (if input.RunTask? && Enabled(o, s, input) then [s.queue[0]] else []) + t.queue
               == s.queue + (if input.Post? && s.writer then [input.task] else [])
  {
    if input.RunTask? && Enabled(o, s, input) {
      assert [s.queue[0]] + s.queue[1..] == s.queue;
    }
    AppendNothing(s.queue);
  }

  /** First posted, first run: what was executed and then what is queued are what was queued and then what was posted.
      Without a writer nothing is ever queued. */
  lemma {:induction false} InOrder(o: Options, s: State, inputs: seq<Input>)
    requires NoRestart(inputs)
    ensures Ran(o, s, inputs) + Steps(o, s, inputs).queue == s.queue + (if s.writer then Posted(inputs) else [])
    ensures Steps(o, s, inputs).writer == s.writer
  {
    hide Apply, Enabled;
    if inputs == [] {
      AppendNothing(s.queue);
    } else {
      var init, last := inputs[..|inputs| - 1], inputs[|inputs| - 1];
      var t := Steps(o, s, init);
      assert inputs == init + [last];
      InOrder(o, s, init);
      StepsAppend(o, s, init, last);
      StepQueues(o, t, last);
      var now := if last.RunTask? && Enabled(o, t, last) then [t.queue[0]] else [];
      var posted := if last.Post? && s.writer then [last.task] else [];
      AppendAssociates(Ran(o, s, init), now, Apply(o, t, last).queue);
      AppendAssociates(Ran(o, s, init), t.queue, posted);
      AppendAssociates(s.queue, if s.writer then Posted(init) else [], posted);
    }
  }

  /** The payloads of the requests that are for the peer and not empty: `publish` always, `publish_ex` if the pipe is
      not listed, `send` if it is. */
  function ForPeer(self: ID, tasks: seq<Task>): seq<seq<byte>> {
    if tasks == [] then [] else
    ForPeer(self, tasks[..|tasks| - 1]) + ForPeerNow(self, tasks[|tasks| - 1])
  }

  function ForPeerNow(self: ID, task: Task): seq<seq<byte>> {
    if task.data != [] && match task
                          case Publish(_) => true
                          case PublishEx(ids, _) => self !in ids
                          case Send(ids, _) => self in ids
    then [task.data] else []
  }

  lemma {:induction false} ForPeerJoin(self: ID, a: seq<Task>, b: seq<Task>)
    ensures ForPeer(self, a + b) == ForPeer(self, a) + ForPeer(self, b)
  {
    if b == [] {
      AppendNothing(a);
      AppendNothing(ForPeer(self, a));
    } else {
      var init, last := b[..|b| - 1], b[|b| - 1];
      ForPeerJoin(self, a, init);
      assert (a + b)[..|a + b| - 1] == a + init;
      AppendAssociates(ForPeer(self, a), ForPeer(self, init), ForPeerNow(self, last));
    }
  }

  lemma {:induction false} ExecutedAppend(o: Options, s: State, inputs: seq<Input>, last: Input)
    ensures Executed(o, s, inputs + [last]) == Executed(o, s, inputs) + ExecutedNow(o, Steps(o, s, inputs), last)
    decreases |inputs|
  {
    hide ExecutedNow, Apply;
    if inputs == [] {
      AppendNothing([last]);
      AppendNothing(ExecutedNow(o, s, last));
    } else {
      var t := Apply(o, s, inputs[0]);
      ExecutedAppend(o, t, inputs[1..], last);
      assert (inputs + [last])[1..] == inputs[1..] + [last];
      AppendAssociates(ExecutedNow(o, s, inputs[0]), Executed(o, t, inputs[1..]),
                       ExecutedNow(o, Steps(o, t, inputs[1..]), last));
    }
  }

  lemma {:induction false} ExecutedIsRan(o: Options, s: State, inputs: seq<Input>)
    ensures Executed(o, s, inputs) == ForPeer(o.self, Ran(o, s, inputs))
  {
    hide Apply, ForPeerNow, ExecutedNow;
    if inputs != [] {
      var init, last := inputs[..|inputs| - 1], inputs[|inputs| - 1];
      assert inputs == init + [last];
      ExecutedIsRan(o, s, init);
      ExecutedAppend(o, s, init, last);
      ExecutedIsForPeer(o, Steps(o, s, init), last);
      var now := Ran(o, s, inputs)[|Ran(o, s, init)|..];
      ForPeerJoin(o.self, Ran(o, s, init), now);
    }
  }

  lemma ExecutedIsForPeer(o: Options, s: State, input: Input)
    ensures ExecutedNow(o, s, input)
            == ForPeer(o.self, if input.RunTask? && Enabled(o, s, input) then [s.queue[0]] else [])
  {
    assert ForPeer(o.self, []) == [];
    if input.RunTask? && Enabled(o, s, input) {
      assert [s.queue[0]][..0] == [];
      assert ForPeer(o.self, [s.queue[0]]) == ForPeerNow(o.self, s.queue[0]);
    }
  }

  lemma {:induction false} NonEmptyPrefix(some: seq<Payload>, all: seq<Payload>)
    requires some <= all
    ensures NonEmpty(some) <= NonEmpty(all)
  {
    if some != [] {
      NonEmptyPrefix(some[1..], all[1..]);
    }
  }

  lemma NothingSent()
    ensures NonEmpty([]) == []
  {
  }

  /** From run to run: whatever one pipe's run did, the peer that reads its descriptor hands over what was posted for
      it, in the order of posting and once each; a prefix while requests are queued or bytes in flight, all of it once
      the queue is empty and the bytes are read. */
  lemma PipeToPipe(o: Options, readFd: int, writeFd: int, inputs: seq<Input>, peer: Options, s: State)
    requires o.makeWrite && writeFd >= 0 && NoRestart(inputs)
    requires s.history == [] && s.bytes <= Wire(Steps(o, Started(o, [], readFd, writeFd), inputs).sent)
    ensures Payloads(Log(peer, s)) <= ForPeer(o.self, Posted(inputs))
    ensures var end := Steps(o, Started(o, [], readFd, writeFd), inputs);
            Coherent(peer, s) && s.bytes == Wire(end.sent) ==>
              ForPeer(o.self, Posted(inputs)) == Payloads(Log(peer, s)) + ForPeer(o.self, end.queue)
    ensures var end := Steps(o, Started(o, [], readFd, writeFd), inputs);
            Coherent(peer, s) && s.bytes == Wire(end.sent) && end.queue == [] ==>
              Payloads(Log(peer, s)) == ForPeer(o.self, Posted(inputs))
  {
    hide Framing.Parse, Framing.First, Framing.Frame, LogOf, Steps, Executed, Payloads, NonEmpty, Frames, Ran, Posted,
      ForPeer;
    var start := Started(o, [], readFd, writeFd);
    var end := Steps(o, start, inputs);
    WrittenIsRead(o, readFd, writeFd, inputs, peer, s);
    InOrder(o, start, inputs);
    ExecutedIsRan(o, start, inputs);
    AppendNothing(Posted(inputs));
    ForPeerJoin(o.self, Ran(o, start, inputs), end.queue);
    AppendNothing(Ran(o, start, inputs));
  }

  lemma WrittenIsRead(o: Options, readFd: int, writeFd: int, inputs: seq<Input>, peer: Options, s: State)
    requires o.makeWrite && writeFd >= 0 && NoRestart(inputs)
    requires s.history == [] && s.bytes <= Wire(Steps(o, Started(o, [], readFd, writeFd), inputs).sent)
    ensures Payloads(Log(peer, s)) <= Executed(o, Started(o, [], readFd, writeFd), inputs)
    ensures Coherent(peer, s) && s.bytes == Wire(Steps(o, Started(o, [], readFd, writeFd), inputs).sent) ==>
              Payloads(Log(peer, s)) == Executed(o, Started(o, [], readFd, writeFd), inputs)
  {
    hide Framing.Parse, Framing.First, Framing.Frame, LogOf, Steps, Executed, Payloads, NonEmpty, Frames;
    NothingSent();
    var start := Started(o, [], readFd, writeFd);
    var sent := Steps(o, start, inputs).sent;
    SentByRun(o, start, inputs);
    AppendNothing(Executed(o, start, inputs));
    EndToEnd(peer, s, sent);
    NonEmptyPrefix(Frames(s.bytes, peer.limit), sent);
    if Coherent(peer, s) && s.bytes == Wire(sent) {
      ParseWire(sent, peer.limit);
      ParseKeepsBytes(s.bytes, peer.limit);
    }
  }
}
