/**
 The spike manager: concurrent calls for the same key share one fetch.

 Clients, the dispatcher loop and the goroutines it spawns are modelled by their atomic actions: an
 operation on a channel, taking the mutex, one look at the cache, one change of the waiter map. A call
 is named by its index, which also names its result channel, its task and the goroutine spawned for it.
 */
module SpikeMachine {

  type Value(==, !new)
  type Problem(==, !new)

  datatype Option<T> = None | Some(value: T)

  const TASK_QUEUE_LEN: nat := 60

  datatype Reply = Found(value: Value) | Failed(problem: Problem)

  /** A result channel, which buffers one reply. */
  datatype Channel = Channel(buffer: seq<Reply>, sends: nat, closes: nat)

  datatype Client = Enqueueing | Waiting | Returned(reply: Reply) | Cancelled

  /** Program points of the goroutine spawned for a task. */
  datatype Goroutine =
    | NotSpawned
    | WantsLock | Locked | Hit(value: Value) | Missed
    | Fetching | Fetched(value: Value) | WantsToDeliver(reply: Reply) | Delivering(reply: Reply, done: nat)
    | Finished

  /** Program points of the dispatcher loop; `call` is the task it handles. */
  datatype Dispatcher =
    | Receiving
    | Took(call: nat) | TookLock(call: nat) | TaskHit(call: nat, value: Value) | TaskMissed(call: nat)
    | Spawning(call: nat)

  /** Who will answer the call's channel; a place in the task queue is numbered from the first task ever queued. */
  datatype Owner =
    | ByClient | InQueue(place: nat) | ByDispatcher | ByGoroutine | InWaiters(place: nat) | Answered

  datatype Call = Call(key: string, client: Client, channel: Channel, goroutine: Goroutine, owner: Owner)

  datatype Holder = TheDispatcher | TheGoroutine(call: nat)

  /**
   `waiters` is the manager's currentlyExecuted. History: `taken` counts tasks ever received from the
   queue, `flights` names the goroutine that registered a key, `replies` holds every reply of a fetch,
   `direct` the results that GetResult found in the cache.
   */
  datatype State = State(
    calls: seq<Call>,
    queue: seq<nat>,
    dispatcher: Dispatcher,
    waiters: map<string, seq<nat>>,
    lock: Option<Holder>,
    cache: map<string, Value>,
    taken: nat,
    flights: map<string, nat>,
    replies: set<(string, Reply)>,
    direct: set<(string, Reply)>)

  const INITIAL: State := State([], [], Receiving, map[], None, map[], 0, map[], {}, {})

  datatype Event =
    | DirectHit(key: string)
    | NewCall(key: string)
    | Expire(key: string)
    | Enqueue(call: nat)
    | Cancel(call: nat)
    | Receive(call: nat)
    | Take
    | DispatcherLocks
    | DispatcherLooks
    | DispatcherReplies
    | DispatcherRegisters
    | Spawn
    | GoroutineLocks(call: nat)
    | GoroutineLooks(call: nat)
    | GoroutineReplies(call: nat)
    | GoroutineRegisters(call: nat)
    | FetchReturns(call: nat, reply: Reply)
    | SetCache(call: nat)
    | LocksToDeliver(call: nat)
    | Deliver(call: nat)
    | FinishDelivery(call: nat)

  // The actions

  predicate IsCall(s: State, c: nat) {
    c < |s.calls|
  }

  /** A send on a channel with a full buffer blocks. */
  predicate CanSend(s: State, c: nat) {
    IsCall(s, c) && s.calls[c].channel.buffer == []
  }

  predicate Enabled(s: State, e: Event) {
    match e
    case DirectHit(k) => k in s.cache
    case NewCall(k) => k !in s.cache
    case Expire(k) => k in s.cache
    case Enqueue(c) => IsCall(s, c) && s.calls[c].client.Enqueueing? && |s.queue| < TASK_QUEUE_LEN
    case Cancel(c) => IsCall(s, c) && s.calls[c].client.Waiting?
    case Receive(c) => IsCall(s, c) && s.calls[c].client.Waiting? && s.calls[c].channel.buffer != []
    case Take => s.dispatcher.Receiving? && s.queue != []
    case DispatcherLocks => s.dispatcher.Took? && s.lock.None?
    case DispatcherLooks => s.dispatcher.TookLock? && IsCall(s, s.dispatcher.call)
    case DispatcherReplies => s.dispatcher.TaskHit? && CanSend(s, s.dispatcher.call)
    case DispatcherRegisters => s.dispatcher.TaskMissed? && IsCall(s, s.dispatcher.call)
    case Spawn => s.dispatcher.Spawning? && IsCall(s, s.dispatcher.call)
    case GoroutineLocks(c) => IsCall(s, c) && s.calls[c].goroutine.WantsLock? && s.lock.None?
    case GoroutineLooks(c) => IsCall(s, c) && s.calls[c].goroutine.Locked?
    case GoroutineReplies(c) => IsCall(s, c) && s.calls[c].goroutine.Hit? && CanSend(s, c)
    case GoroutineRegisters(c) => IsCall(s, c) && s.calls[c].goroutine.Missed?
    case FetchReturns(c, _) => IsCall(s, c) && s.calls[c].goroutine.Fetching?
    case SetCache(c) => IsCall(s, c) && s.calls[c].goroutine.Fetched?
    case LocksToDeliver(c) => IsCall(s, c) && s.calls[c].goroutine.WantsToDeliver? && s.lock.None?
    case Deliver(c) =>
      && IsCall(s, c) && s.calls[c].goroutine.Delivering? && s.calls[c].key in s.waiters
      && s.calls[c].goroutine.done < |s.waiters[s.calls[c].key]|
      && CanSend(s, s.waiters[s.calls[c].key][s.calls[c].goroutine.done])
    case FinishDelivery(c) =>
      && IsCall(s, c) && s.calls[c].goroutine.Delivering? && s.calls[c].key in s.waiters
      && s.calls[c].goroutine.done == |s.waiters[s.calls[c].key]|
  }

  /** Send on the call's channel and close it. */
  function Answer(call: Call, r: Reply): Call {
    call.(channel := Channel(call.channel.buffer + [r], call.channel.sends + 1, call.channel.closes + 1),
          owner := Answered)
  }

  function SetCall(s: State, c: nat, call: Call): State
    requires IsCall(s, c)
  {
    s.(calls := s.calls[c := call])
  }

  function Apply(s: State, e: Event): State
    requires Enabled(s, e)
  {
    match e
    case DirectHit(k) => s.(direct := s.direct + {(k, Found(s.cache[k]))})
    case NewCall(k) => s.(calls := s.calls + [Call(k, Enqueueing, Channel([], 0, 0), NotSpawned, ByClient)])
    case Expire(k) => s.(cache := s.cache - {k})
    case Enqueue(c) =>
      SetCall(s, c, s.calls[c].(client := Waiting, owner := InQueue(s.taken + |s.queue|))).(queue := s.queue + [c])
    case Cancel(c) => SetCall(s, c, s.calls[c].(client := Cancelled))
    case Receive(c) =>
      var call := s.calls[c];
      SetCall(s, c, call.(client := Returned(call.channel.buffer[0]),
                          channel := call.channel.(buffer := call.channel.buffer[1..])))
    case Take =>
      var c := s.queue[0];
      var s1 := s.(queue := s.queue[1..], taken := s.taken + 1, dispatcher := Took(c));
      if IsCall(s, c) then SetCall(s1, c, s.calls[c].(owner := ByDispatcher)) else s1
    case DispatcherLocks => s.(dispatcher := TookLock(s.dispatcher.call), lock := Some(TheDispatcher))
    case DispatcherLooks =>
      var c := s.dispatcher.call;
      var k := s.calls[c].key;
      s.(dispatcher := if k in s.cache then TaskHit(c, s.cache[k]) else TaskMissed(c))
    case DispatcherReplies =>
      var c := s.dispatcher.call;
      SetCall(s, c, Answer(s.calls[c], Found(s.dispatcher.value))).(dispatcher := Receiving, lock := None)
    case DispatcherRegisters =>
      var c := s.dispatcher.call;
      var k := s.calls[c].key;
      if k in s.waiters then
        SetCall(s, c, s.calls[c].(owner := InWaiters(|s.waiters[k]|)))
          .(waiters := s.waiters[k := s.waiters[k] + [c]], dispatcher := Receiving, lock := None)
      else s.(dispatcher := Spawning(c), lock := None)
    case Spawn =>
      var c := s.dispatcher.call;
      SetCall(s, c, s.calls[c].(goroutine := WantsLock, owner := ByGoroutine)).(dispatcher := Receiving)
    case GoroutineLocks(c) =>
      SetCall(s, c, s.calls[c].(goroutine := Locked)).(lock := Some(TheGoroutine(c)))
    case GoroutineLooks(c) =>
      var k := s.calls[c].key;
      SetCall(s, c, s.calls[c].(goroutine := if k in s.cache then Hit(s.cache[k]) else Missed))
    case GoroutineReplies(c) =>
      SetCall(s, c, Answer(s.calls[c], Found(s.calls[c].goroutine.value)).(goroutine := Finished)).(lock := None)
    case GoroutineRegisters(c) =>
      var k := s.calls[c].key;
      if k in s.waiters then
        SetCall(s, c, s.calls[c].(goroutine := Finished, owner := InWaiters(|s.waiters[k]|)))
          .(waiters := s.waiters[k := s.waiters[k] + [c]], lock := None)
      else
        SetCall(s, c, s.calls[c].(goroutine := Fetching, owner := InWaiters(0)))
          .(waiters := s.waiters[k := [c]], flights := s.flights[k := c], lock := None)
    case FetchReturns(c, r) =>
      SetCall(s, c, s.calls[c].(goroutine := if r.Found? then Fetched(r.value) else WantsToDeliver(r)))
        .(replies := s.replies + {(s.calls[c].key, r)})
    case SetCache(c) =>
      var v := s.calls[c].goroutine.value;
      SetCall(s, c, s.calls[c].(goroutine := WantsToDeliver(Found(v)))).(cache := s.cache[s.calls[c].key := v])
    case LocksToDeliver(c) =>
      SetCall(s, c, s.calls[c].(goroutine := Delivering(s.calls[c].goroutine.reply, 0)))
        .(lock := Some(TheGoroutine(c)))
    case Deliver(c) =>
      var g := s.calls[c].goroutine;
      var j := s.waiters[s.calls[c].key][g.done];
      var s1 := SetCall(s, c, s.calls[c].(goroutine := Delivering(g.reply, g.done + 1)));
      SetCall(s1, j, Answer(s1.calls[j], g.reply))
    case FinishDelivery(c) =>
      var k := s.calls[c].key;
      SetCall(s, c, s.calls[c].(goroutine := Finished))
        .(waiters := s.waiters - {k}, flights := s.flights - {k}, lock := None)
  }

  // Runs

  ghost predicate CanRun(es: seq<Event>)
    decreases |es|, 0
  {
    es == [] || (CanRun(es[..|es| - 1]) && Enabled(Run(es[..|es| - 1]), es[|es| - 1]))
  }

  ghost function Run(es: seq<Event>): State
    requires CanRun(es)
    decreases |es|, 1
  {
    if es == [] then INITIAL else Apply(Run(es[..|es| - 1]), es[|es| - 1])
  }
}
