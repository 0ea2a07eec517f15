/** The gateway: it hands requests to every added service and forwards their events through its own queue. */
module Gateway {
  import opened Bytes
  import opened Ids
  import Routing

  datatype Kind = OnMessage | OnReady | OnConnect | OnDisconnect

  /** A queued event; the payload was copied when the event was raised. */
  datatype Job = Job(kind: Kind, id: ID, payload: seq<byte>)

  datatype Call = Call(handler: nat, job: Job)

  /** What became of a raised event: run with the handlers registered at that time, or dropped by a restart. An empty
      `std::function` in the handler list is `None`. */
  datatype Fate = Delivered(handlers: seq<Option<nat>>) | Discarded

  datatype Request = Request(service: nat, op: Routing.Op, payload: seq<byte>)

  function ToEach(services: seq<nat>, op: Routing.Op, payload: seq<byte>): (r: seq<Request>)
    ensures |r| == |services| && forall i :: 0 <= i < |r| ==> r[i] == Request(services[i], op, payload)
  {
    seq(|services|, i requires 0 <= i < |services| => Request(services[i], op, payload))
  }

  /** One call for every handler that is there, in registration order. */
  function CallsOf(handlers: seq<Option<nat>>, job: Job): seq<Call> {
    if handlers == [] then [] else
    CallsOf(handlers[..|handlers| - 1], job)
    + match handlers[|handlers| - 1] case Some(h) => [Call(h, job)] case None => []
  }

  /** The calls that the fates of the first events amount to. */
  function CallsFor(raised: seq<Job>, fates: seq<Fate>): seq<Call>
    requires |fates| <= |raised|
  {
    if fates == [] then [] else
    var n := |fates| - 1;
    CallsFor(raised, fates[..n]) + match fates[n] case Delivered(hs) => CallsOf(hs, raised[n]) case Discarded => []
  }

  /** Every handler that is there is called, once for each time it is registered, in order. */
  lemma {:induction false} CallsOfJoin(a: seq<Option<nat>>, b: seq<Option<nat>>, job: Job)
    ensures CallsOf(a + b, job) == CallsOf(a, job) + CallsOf(b, job)
    ensures forall h :: CallsOf([Some(h)], job) == [Call(h, job)]
    ensures CallsOf([None], job) == [] && CallsOf([], job) == []
  {
    if b == [] {
      AppendNothing(a);
    } else {
      var n := |b| - 1;
      CallsOfJoin(a, b[..n], job);
      assert (a + b)[..|a + b| - 1] == a + b[..n];
    }
    forall h ensures CallsOf([Some(h)], job) == [Call(h, job)] { assert [Some(h)][..0] == []; }
    var nobody: seq<Option<nat>> := [None];
    assert nobody[..0] == [];
  }

  lemma NobodyCalled(job: Job)
    ensures CallsOf([], job) == []
  {
  }

  lemma CallsOfLast(handler: Option<nat>, job: Job, call: Call)
    ensures multiset(CallsOf([handler], job))[call]
         == if call.job == job then multiset([handler])[Some(call.handler)] else 0
  {
    CallsOfJoin([], [], job);
  }

  lemma CountJoin<T>(a: seq<T>, b: seq<T>, x: T)
    ensures multiset(a + b)[x] == multiset(a)[x] + multiset(b)[x]
  {
  }

  lemma {:induction false} CallsOfCount(handlers: seq<Option<nat>>, job: Job, call: Call)
    ensures multiset(CallsOf(handlers, job))[call] == if call.job == job then multiset(handlers)[Some(call.handler)]
        else 0
  {
    hide CallsOf;
    NobodyCalled(job);
    if handlers != [] {
      var init, last := handlers[..|handlers| - 1], handlers[|handlers| - 1];
      CallsOfCount(init, job, call);
      CallsOfJoin(init, [last], job);
      assert handlers == init + [last];
      CountJoin(init, [last], Some(call.handler));
      CountJoin(CallsOf(init, job), CallsOf([last], job), call);
      CallsOfLast(last, job, call);
    }
  }

  lemma CountedCalls(before: seq<Call>, handlers: seq<Option<nat>>, job: Job)
    ensures forall h :: multiset(before + CallsOf(handlers, job))[Call(h, job)]
                     == multiset(before)[Call(h, job)] + multiset(handlers)[Some(h)]
  {
    hide CallsOf;
    forall h ensures multiset(before + CallsOf(handlers, job))[Call(h, job)]
                  == multiset(before)[Call(h, job)] + multiset(handlers)[Some(h)]
    {
      CallsOfCount(handlers, job, Call(h, job));
      CountJoin(before, CallsOf(handlers, job), Call(h, job));
    }
  }

  /** How often the fates gave an event like this to a handler. */
  function Deliveries(raised: seq<Job>, fates: seq<Fate>, call: Call): nat
    requires |fates| <= |raised|
  {
    if fates == [] then 0 else
    var n := |fates| - 1;
    Deliveries(raised, fates[..n], call)
    + if fates[n].Delivered? && raised[n] == call.job then multiset(fates[n].handlers)[Some(call.handler)] else 0
  }

  /** A handler is called with an event as often as it is registered in the deliveries of that event. */
  lemma {:induction false} CallsForCount(raised: seq<Job>, fates: seq<Fate>, call: Call)
    requires |fates| <= |raised|
    ensures multiset(CallsFor(raised, fates))[call] == Deliveries(raised, fates, call)
  {
    if fates != [] {
      var n := |fates| - 1;
      CallsForCount(raised, fates[..n], call);
      if fates[n].Delivered? { CallsOfCount(fates[n].handlers, raised[n], call); }
    }
  }

  /** In raise order: the calls for an event come after those for the events before it. */
  lemma CallsForNext(raised: seq<Job>, fates: seq<Fate>, i: nat)
    requires i < |fates| <= |raised|
    ensures CallsFor(raised, fates[..i + 1])
         == CallsFor(raised, fates[..i]) + if fates[i].Delivered? then CallsOf(fates[i].handlers, raised[i]) else []
  {
    assert fates[..i + 1][..i] == fates[..i];
  }

  /** Two handlers registered for an event, in this order: both are called, in this order. */
  lemma BothAreCalled(h: nat, k: nat, job: Job)
    ensures CallsOf([Some(h), Some(k)], job) == [Call(h, job), Call(k, job)]
    ensures CallsOf([Some(h), None, Some(k)], job) == [Call(h, job), Call(k, job)]
  {
    CallsOfJoin([Some(h)], [Some(k)], job);
    CallsOfJoin([Some(h)], [None], job);
    CallsOfJoin([Some(h), None], [Some(k)], job);
    assert [Some(h)] + [Some(k)] == [Some(h), Some(k)] && [Some(h)] + [None] == [Some(h), None];
    assert [Some(h), None] + [Some(k)] == [Some(h), None, Some(k)];
  }

  function Times<T>(x: T, n: nat): (r: seq<T>)
    ensures |r| == n && forall i :: 0 <= i < n ==> r[i] == x
  {
    seq(n, i => x)
  }

  lemma {:induction false} CallsForLonger(raised: seq<Job>, more: seq<Job>, fates: seq<Fate>)
    requires |fates| <= |raised|
    ensures CallsFor(raised + more, fates) == CallsFor(raised, fates)
  {
    if fates != [] {
      CallsForLonger(raised, more, fates[..|fates| - 1]);
    }
  }

  lemma CallsForOne(raised: seq<Job>, fates: seq<Fate>, f: Fate)
    requires |fates| < |raised|
    ensures CallsFor(raised, fates + [f])
              == CallsFor(raised, fates)
                 + match f case Delivered(hs) => CallsOf(hs, raised[|fates|]) case Discarded => []
  {
    assert (fates + [f])[..|fates|] == fates;
  }

  lemma {:induction false} CallsForDiscarded(raised: seq<Job>, fates: seq<Fate>, n: nat)
    requires |fates| + n <= |raised|
    ensures CallsFor(raised, fates + Times(Discarded, n)) == CallsFor(raised, fates)
  {
    if n == 0 {
      assert fates + Times(Discarded, n) == fates;
    } else {
      CallsForDiscarded(raised, fates, n - 1);
      CallsForOne(raised, fates + Times(Discarded, n - 1), Discarded);
      assert fates + Times(Discarded, n) == fates + Times(Discarded, n - 1) + [Discarded];
    }
  }

  class Service {
    var services: seq<nat>
    var onMessage: seq<Option<nat>>
    var onReady: seq<Option<nat>>
    var onConnect: seq<Option<nat>>
    var onDisconnect: seq<Option<nat>>
    var queue: seq<Job>
    var stopped: bool
    var calls: seq<Call>
    var requests: seq<Request>

    ghost var raised: seq<Job>
    ghost var fates: seq<Fate>

    /** Conservation and order: the raised events are those with a fate, in order, and then the queue; the handlers were
        called exactly as the fates say. */
    ghost predicate Valid()
      reads this
    {
      && |fates| <= |raised|
      && queue == raised[|fates|..]
      && calls == CallsFor(raised, fates)
    }

    constructor ()
      ensures Valid() && services == [] && queue == [] && calls == [] && requests == [] && !stopped
      ensures raised == [] && fates == []
      ensures onMessage == onReady == onConnect == onDisconnect == []
    {
      services, onMessage, onReady, onConnect, onDisconnect := [], [], [], [], [];
      queue, stopped, calls, requests, raised, fates := [], false, [], [], [], [];
    }

    function Handlers(kind: Kind): seq<Option<nat>>
      reads this
    {
      match kind
      case OnMessage => onMessage
      case OnReady => onReady
      case OnConnect => onConnect
      case OnDisconnect => onDisconnect
    }

    method Register(kind: Kind, handler: Option<nat>)
      requires Valid()
      modifies `onMessage, `onReady, `onConnect, `onDisconnect
      ensures Valid()
      ensures forall k :: Handlers(k) == old(Handlers(k)) + if k == kind then [handler] else []
    {
      match kind
      case OnMessage => onMessage := onMessage + [handler];
      case OnReady => onReady := onReady + [handler];
      case OnConnect => onConnect := onConnect + [handler];
      case OnDisconnect => onDisconnect := onDisconnect + [handler];
    }

    /** `add_service`: requests go to it from now on, and one forwarder of each kind is subscribed to it. */
    method AddService(service: nat)
      requires Valid()
      modifies `services
      ensures Valid() && services == old(services) + [service]
    {
      services := services + [service];
    }

    /** A service raises an event: each forwarder subscribed to it, one for every time it was added, queues a copy. */
    method Raise(service: nat, job: Job)
      requires Valid()
      modifies `queue, `raised
      ensures Valid() && raised == old(raised) + Times(job, multiset(services)[service])
    {
      ghost var n: nat := 0;
      for i := 0 to |services|
        invariant Valid() && n == multiset(services[..i])[service]
        invariant raised == old(raised) + Times(job, n)
      {
        assert services[..i + 1] == services[..i] + [services[i]];
        if services[i] == service {
          CallsForLonger(raised, [job], fates);
          queue := queue + [job];
          raised := raised + [job];
          n := n + 1;
        }
      }
      assert services[..|services|] == services;
    }

    /** The loop runs its first task: every handler that is registered by now is called once. */
    method RunTask()
      requires Valid() && !stopped && queue != []
      modifies `queue, `calls, `fates
      ensures Valid() && fates == old(fates) + [Delivered(Handlers(raised[|old(fates)|].kind))]
      ensures calls == old(calls) + CallsOf(Handlers(old(queue)[0].kind), old(queue)[0]) && queue == old(queue)[1..]
      ensures forall h :: multiset(calls)[Call(h, old(queue)[0])] == multiset(old(calls))[Call(h, old(queue)[0])]
                                                                + multiset(Handlers(old(queue)[0].kind))[Some(h)]
    {
      hide CallsOf, CallsFor;
      var job := queue[0];
      queue := queue[1..];
      var handlers := Handlers(job.kind);
      ghost var before := calls;
      CallsForOne(raised, fates, Delivered(handlers));
      Invoke(handlers, job);
      CountedCalls(before, handlers, job);
      fates := fates + [Delivered(handlers)];
    }

    /** `invoke_message_handlers` and `invoke_event_handlers`. */
    method Invoke(handlers: seq<Option<nat>>, job: Job)
      modifies `calls
      ensures calls == old(calls) + CallsOf(handlers, job)
    {
      for i := 0 to |handlers|
        invariant calls == old(calls) + CallsOf(handlers[..i], job)
      {
        assert handlers[..i + 1][..i] == handlers[..i] && handlers[..i + 1][i] == handlers[i];
        if handlers[i].Some? {
          calls := calls + [Call(handlers[i].value, job)];
        }
      }
      assert handlers[..|handlers|] == handlers;
    }

    method Stop()
      requires Valid()
      modifies `stopped
      ensures Valid() && stopped
    {
      stopped := true;
    }

    /** `restart`: a new context; whatever was queued in the old one is gone. */
    method Restart()
      requires Valid()
      modifies `queue, `stopped, `fates
      ensures Valid() && queue == [] && !stopped
      ensures fates == old(fates) + Times(Discarded, |old(queue)|)
    {
      CallsForDiscarded(raised, fates, |queue|);
      fates := fates + Times(Discarded, |queue|);
      queue, stopped := [], false;
    }

    method Handle(input: Input)
      requires Valid()
      modifies this
      ensures Valid() && stopped == StopAfter(old(stopped), input)
      ensures services == old(services) + if input.AddService? then [input.service] else []
      ensures forall k ::
                Handlers(k) == old(Handlers(k)) + if input.Register? && k == input.kind then [input.handler] else []
      ensures raised == old(raised)
                        + if input.Raise? then Times(input.job, multiset(old(services))[input.service]) else []
      ensures fates == old(fates) + (match input
                                     case Run => if old(stopped) || |old(fates)| == |raised| then []
                                                 else [Delivered(old(Handlers(raised[|fates|].kind)))]
                                     case Restart => Times(Discarded, |raised| - |old(fates)|)
                                     case _ => [])
    {
      hide CallsFor, CallsOf;
      match input
      case Register(kind, handler) => Register(kind, handler);
      case AddService(service) => AddService(service);
      case Raise(service, job) => Raise(service, job);
      case Run => if !stopped && queue != [] { RunTask(); }
      case Stop => Stop();
      case Restart => Restart();
    }

    /** `publish`, `publish_ex`, `send`: the same request to every service in turn. */
    method Forward(op: Routing.Op, payload: seq<byte>)
      requires Valid()
      modifies `requests
      ensures Valid()
      ensures requests == old(requests) + ToEach(services, op, payload)
    {
      for i := 0 to |services|
        invariant requests == old(requests) + ToEach(services[..i], op, payload)
      {
        requests := requests + [Request(services[i], op, payload)];
      }
      assert services[..|services|] == services;
    }
  }

  /** Everyone the requests reach, when service number `i` routes as `table[i]`. */
  function Reached(requests: seq<Request>, table: seq<Routing.Service>): seq<ID>
    requires forall i :: 0 <= i < |requests| ==> requests[i].service < |table|
  {
    if requests == [] then [] else
    Routing.Recipients(table[requests[0].service], requests[0].op) + Reached(requests[1..], table)
  }

  /** What `Forward` sends out reaches the recipients that `Routing.GatewayPartition` speaks about. */
  lemma {:induction false} ForwardReaches(services: seq<nat>, table: seq<Routing.Service>,
                                          op: Routing.Op, payload: seq<byte>)
    requires forall i :: 0 <= i < |services| ==> services[i] < |table|
    ensures Reached(ToEach(services, op, payload), table)
              == Routing.Fanned(seq(|services|, i requires 0 <= i < |services| => table[services[i]]), op)
  {
    if services != [] {
      var rest := services[1..];
      assert forall i :: 0 <= i < |rest| ==> rest[i] == services[i + 1];
      ForwardReaches(rest, table, op, payload);
      assert ToEach(services, op, payload)[1..] == ToEach(rest, op, payload);
      var routed := seq(|services|, i requires 0 <= i < |services| => table[services[i]]);
      assert routed[1..] == seq(|rest|, i requires 0 <= i < |rest| => table[rest[i]]);
    }
  }

  datatype Input =
    | Register(kind: Kind, handler: Option<nat>) | AddService(service: nat) | Raise(service: nat, job: Job)
    | Run | Stop | Restart

  function Added(inputs: seq<Input>): seq<nat> {
    if inputs == [] then [] else
    Added(inputs[..|inputs| - 1]) + if inputs[|inputs| - 1].AddService? then [inputs[|inputs| - 1].service] else []
  }

  /** What added services raise, once for every time the service was added before. */
  function RaisedBy(inputs: seq<Input>): seq<Job> {
    if inputs == [] then [] else
    var init, last := inputs[..|inputs| - 1], inputs[|inputs| - 1];
    RaisedBy(init) + if last.Raise? then Times(last.job, multiset(Added(init))[last.service]) else []
  }

  /** The handlers of a kind, in the order of registration. */
  function Registered(inputs: seq<Input>, kind: Kind): seq<Option<nat>> {
    if inputs == [] then [] else
    var init, last := inputs[..|inputs| - 1], inputs[|inputs| - 1];
    Registered(init, kind) + if last.Register? && last.kind == kind then [last.handler] else []
  }

  function StopAfter(stopped: bool, input: Input): bool {
    input.Stop? || (stopped && !input.Restart?)
  }

  predicate Stopped(inputs: seq<Input>) {
    inputs != [] && StopAfter(Stopped(inputs[..|inputs| - 1]), inputs[|inputs| - 1])
  }

  /** What became of the raised events, oldest first; events beyond those are waiting. */
  function Fates(inputs: seq<Input>): (r: seq<Fate>)
    ensures |r| <= |RaisedBy(inputs)|
    decreases inputs, 0
  {
    if inputs == [] then [] else
    var init := inputs[..|inputs| - 1];
    Fates(init) + Fated(init, inputs[|inputs| - 1])
  }

  /** A turn of a loop that is not stopped gives the oldest waiting event to the handlers registered so far; a restart
      discards all that are waiting. */
  function Fated(inputs: seq<Input>, last: Input): (r: seq<Fate>)
    ensures |Fates(inputs)| + |r| <= |RaisedBy(inputs)|
    decreases inputs, 1
  {
    var done, raised := |Fates(inputs)|, RaisedBy(inputs);
    match last
    case Run => if Stopped(inputs) || done == |raised| then [] else [Delivered(Registered(inputs, raised[done].kind))]
    case Restart => Times(Discarded, |raised| - done)
    case _ => []
  }

  /** Without a restart nothing is discarded. */
  lemma {:induction false} NoneDiscarded(inputs: seq<Input>)
    requires Input.Restart !in inputs
    ensures Discarded !in Fates(inputs)
  {
    hide RaisedBy, Registered, Stopped, Fates;
    if inputs == [] {
      Nothing();
    } else {
      var init, last := inputs[..|inputs| - 1], inputs[|inputs| - 1];
      NoneDiscarded(init);
      assert inputs == init + [last];
      Latest(init, last);
    }
  }

  lemma Nothing()
    ensures Added([]) == [] && RaisedBy([]) == [] && Fates([]) == [] && !Stopped([])
    ensures forall k :: Registered([], k) == []
  {
  }

  /** One more input. */
  lemma Latest(inputs: seq<Input>, last: Input)
    ensures var after := inputs + [last];
            && Added(after) == Added(inputs) + (if last.AddService? then [last.service] else [])
            && RaisedBy(after) == RaisedBy(inputs)
                 + (if last.Raise? then Times(last.job, multiset(Added(inputs))[last.service]) else [])
            && Stopped(after) == StopAfter(Stopped(inputs), last)
            && (forall k :: Registered(after, k) == Registered(inputs, k)
                              + if last.Register? && k == last.kind then [last.handler] else [])
            && Fates(after) == Fates(inputs) + Fated(inputs, last)
  {
    assert (inputs + [last])[..|inputs|] == inputs;
  }

  lemma OneTurn(inputs: seq<Input>)
    requires !Stopped(inputs) && |Fates(inputs)| < |RaisedBy(inputs)|
    ensures var after := inputs + [Input.Run];
            && RaisedBy(after) == RaisedBy(inputs) && !Stopped(after)
            && Fates(after) == Fates(inputs) + [Delivered(Registered(inputs, RaisedBy(inputs)[|Fates(inputs)|].kind))]
            && forall k :: Registered(after, k) == Registered(inputs, k)
  {
    hide RaisedBy, Registered, Stopped, Fates;
    Latest(inputs, Input.Run);
    forall k ensures Registered(inputs + [Input.Run], k) == Registered(inputs, k) {
      assert Registered(inputs + [Input.Run], k) == Registered(inputs, k) + [];
    }
    assert RaisedBy(inputs + [Input.Run]) == RaisedBy(inputs) + [];
  }

  /** Turns of the loop after a run that is not stopped deliver what is waiting, one event each, to the handlers
      registered by the end of the run. */
  lemma {:induction false} TurnsDeliver(inputs: seq<Input>, n: nat)
    requires !Stopped(inputs) && n == |RaisedBy(inputs)| - |Fates(inputs)|
    ensures var after, raised, done := inputs + Times(Input.Run, n), RaisedBy(inputs), |Fates(inputs)|;
            && RaisedBy(after) == raised && |Fates(after)| == |raised|
            && forall i :: done <= i < |raised| ==> Fates(after)[i] == Delivered(Registered(inputs, raised[i].kind))
    decreases n
  {
    hide RaisedBy, Registered, Stopped, Fates, Fated;
    if n == 0 {
      assert inputs + Times(Input.Run, 0) == inputs;
    } else {
      var next := inputs + [Input.Run];
      OneTurn(inputs);
      TurnsDeliver(next, n - 1);
      assert inputs + Times(Input.Run, n) == next + Times(Input.Run, n - 1);
      FatesStay(next, n - 1);
    }
  }

  lemma {:induction false} FatesStay(inputs: seq<Input>, n: nat)
    ensures Fates(inputs) <= Fates(inputs + Times(Input.Run, n))
  {
    hide RaisedBy, Registered, Stopped, Fates;
    if n == 0 {
      assert inputs + Times(Input.Run, 0) == inputs;
    } else {
      FatesStay(inputs, n - 1);
      hide Fated;
      Latest(inputs + Times(Input.Run, n - 1), Input.Run);
      assert inputs + Times(Input.Run, n) == inputs + Times(Input.Run, n - 1) + [Input.Run];
    }
  }

  /** Any run: every event raised by an added service was delivered, in order, exactly once to each handler registered
      when its task ran; or was discarded by a restart; or is still queued. Nothing else was called. */
  method RunAll(inputs: seq<Input>) returns (calls: seq<Call>, queue: seq<Job>)
    ensures queue == RaisedBy(inputs)[|Fates(inputs)|..]
    ensures calls == CallsFor(RaisedBy(inputs), Fates(inputs))
    ensures forall call :: multiset(calls)[call] == Deliveries(RaisedBy(inputs), Fates(inputs), call)
  {
    hide CallsFor, CallsOf, Added, RaisedBy, Registered, Stopped, Fates;
    var g := new Service();
    Nothing();
    for i := 0 to |inputs|
      invariant g.Valid() && fresh(g)
      invariant g.services == Added(inputs[..i]) && g.raised == RaisedBy(inputs[..i])
      invariant g.stopped == Stopped(inputs[..i]) && g.fates == Fates(inputs[..i])
      invariant forall k :: g.Handlers(k) == Registered(inputs[..i], k)
    {
      Latest(inputs[..i], inputs[i]);
      assert inputs[..i + 1] == inputs[..i] + [inputs[i]];
      g.Handle(inputs[i]);
    }
    assert inputs[..|inputs|] == inputs;
    forall call ensures multiset(g.calls)[call] == Deliveries(g.raised, g.fates, call) {
      CallsForCount(g.raised, g.fates, call);
    }
    return g.calls, g.queue;
  }
}
