/** Ownership of result channels and single flight, in every reachable state of the spike manager. */
module SpikeSafety {
  import opened SpikeMachine

  // One call

  /** Goroutine program points between registering the key and deleting it. */
  predicate InFlight(g: Goroutine) {
    g.Fetching? || g.Fetched? || g.WantsToDeliver? || g.Delivering?
  }

  /** Goroutine program points at which it owns its task's channel. */
  predicate OwnsTask(g: Goroutine) {
    g.WantsLock? || g.Locked? || g.Hit? || g.Missed?
  }

  predicate HoldsLock(g: Goroutine) {
    g.Locked? || g.Hit? || g.Missed? || g.Delivering?
  }

  /** The channel has been sent to and closed once if it is answered, and not at all otherwise. */
  predicate ChannelOk(call: Call) {
    if call.owner.Answered? then
      && call.channel.sends == 1 && call.channel.closes == 1
      && (match call.client
          case Enqueueing => false
          case Returned(_) => call.channel.buffer == []
          case _ => |call.channel.buffer| == 1)
    else call.channel == Channel([], 0, 0) && !call.client.Returned?
  }

  /** Replies on the way to the client were given by a fetch of this key. */
  predicate RepliesOk(call: Call, replies: set<(string, Reply)>) {
    && (forall r :: r in call.channel.buffer ==> (call.key, r) in replies)
    && (call.client.Returned? ==> (call.key, call.client.reply) in replies)
    && (match call.goroutine
        case Hit(v) => (call.key, Found(v)) in replies
        case Fetched(v) => (call.key, Found(v)) in replies
        case WantsToDeliver(r) => (call.key, r) in replies
        case Delivering(r, _) => (call.key, r) in replies
        case _ => true)
  }

  predicate CallOk(call: Call, replies: set<(string, Reply)>) {
    && ChannelOk(call)
    && RepliesOk(call, replies)
    && (call.owner.ByClient? <==> call.client.Enqueueing?)
    && (call.owner.ByGoroutine? <==> OwnsTask(call.goroutine))
    && (call.owner.ByClient? || call.owner.InQueue? || call.owner.ByDispatcher? ==> call.goroutine.NotSpawned?)
  }

  /** How many waiters a goroutine has answered. */
  function DoneBy(g: Goroutine): nat {
    if g.Delivering? then g.done else 0
  }

  predicate DispatcherHolds(d: Dispatcher) {
    d.TookLock? || d.TaskHit? || d.TaskMissed?
  }

  // The parts of the state and the calls agree

  predicate CallsOk(calls: seq<Call>, replies: set<(string, Reply)>) {
    forall c :: 0 <= c < |calls| ==> CallOk(calls[c], replies)
  }

  predicate QueueOk(calls: seq<Call>, queue: seq<nat>, taken: nat) {
    && (forall i :: 0 <= i < |queue| ==> queue[i] < |calls| && calls[queue[i]].owner == InQueue(taken + i))
    && (forall c :: 0 <= c < |calls| && calls[c].owner.InQueue? ==>
          && taken <= calls[c].owner.place < taken + |queue|
          && queue[calls[c].owner.place - taken] == c)
  }

  predicate DispatcherOk(calls: seq<Call>, dispatcher: Dispatcher, replies: set<(string, Reply)>) {
    && (!dispatcher.Receiving? ==> dispatcher.call < |calls|)
    && (forall c :: 0 <= c < |calls| ==>
          (calls[c].owner.ByDispatcher? <==> !dispatcher.Receiving? && dispatcher.call == c))
    && (dispatcher.TaskHit? ==> (calls[dispatcher.call].key, Found(dispatcher.value)) in replies)
  }

  predicate LockOk(calls: seq<Call>, dispatcher: Dispatcher, lock: Option<Holder>) {
    && (lock == Some(TheDispatcher) <==> DispatcherHolds(dispatcher))
    && (forall c :: 0 <= c < |calls| ==> (lock == Some(TheGoroutine(c)) <==> HoldsLock(calls[c].goroutine)))
    && (lock.Some? && lock.value.TheGoroutine? ==> lock.value.call < |calls|)
  }

  /** A key has waiters exactly while one goroutine, named by `flights`, is in flight for it. */
  predicate FlightsOk(calls: seq<Call>, waiters: map<string, seq<nat>>, flights: map<string, nat>) {
    && waiters.Keys == flights.Keys
    && (forall k :: k in flights ==>
          flights[k] < |calls| && calls[flights[k]].key == k && InFlight(calls[flights[k]].goroutine))
    && (forall c :: 0 <= c < |calls| && InFlight(calls[c].goroutine) ==>
          calls[c].key in flights && flights[calls[c].key] == c)
  }

  /** How many of the waiters for `k` have been answered. */
  function DoneFor(calls: seq<Call>, flights: map<string, nat>, k: string): nat {
    if k in flights && flights[k] < |calls| then DoneBy(calls[flights[k]].goroutine) else 0
  }

  predicate WaiterOk(calls: seq<Call>, k: string, i: nat, c: nat) {
    c < |calls| && calls[c].key == k && calls[c].owner == InWaiters(i)
  }

  predicate WaitersOk(calls: seq<Call>, waiters: map<string, seq<nat>>, flights: map<string, nat>) {
    && (forall k :: k in waiters ==> DoneFor(calls, flights, k) <= |waiters[k]|)
    && (forall k, i :: k in waiters && DoneFor(calls, flights, k) <= i < |waiters[k]| ==>
          WaiterOk(calls, k, i, waiters[k][i]))
    && (forall c :: 0 <= c < |calls| && calls[c].owner.InWaiters? ==>
          && calls[c].key in waiters
          && DoneFor(calls, flights, calls[c].key) <= calls[c].owner.place < |waiters[calls[c].key]|
          && waiters[calls[c].key][calls[c].owner.place] == c)
  }

  predicate CacheOk(cache: map<string, Value>, direct: set<(string, Reply)>, replies: set<(string, Reply)>) {
    && (forall k :: k in cache ==> (k, Found(cache[k])) in replies)
    && direct <= replies
  }

  predicate Inv(s: State) {
    && CallsOk(s.calls, s.replies)
    && QueueOk(s.calls, s.queue, s.taken)
    && DispatcherOk(s.calls, s.dispatcher, s.replies)
    && LockOk(s.calls, s.dispatcher, s.lock)
    && FlightsOk(s.calls, s.waiters, s.flights)
    && WaitersOk(s.calls, s.waiters, s.flights)
    && CacheOk(s.cache, s.direct, s.replies)
  }

  // Changing one call

  lemma CallsSet(calls: seq<Call>, c: nat, call: Call, replies: set<(string, Reply)>)
    requires c < |calls| && CallsOk(calls, replies) && CallOk(call, replies)
    ensures CallsOk(calls[c := call], replies)
  {
  }

  lemma CallsMoreReplies(calls: seq<Call>, replies: set<(string, Reply)>, more: set<(string, Reply)>)
    requires CallsOk(calls, replies) && replies <= more
    ensures CallsOk(calls, more)
  {
    forall c | 0 <= c < |calls|
      ensures CallOk(calls[c], more)
    {
      assert CallOk(calls[c], replies);
    }
  }

  lemma QueueFrame(calls: seq<Call>, c: nat, call: Call, queue: seq<nat>, taken: nat)
    requires c < |calls| && QueueOk(calls, queue, taken)
    requires (!call.owner.InQueue? && !calls[c].owner.InQueue?) || call.owner == calls[c].owner
    ensures QueueOk(calls[c := call], queue, taken)
  {
  }

  lemma DispatcherFrame(calls: seq<Call>, c: nat, call: Call, d: Dispatcher, replies: set<(string, Reply)>, more: set<(string, Reply)>)
    requires c < |calls| && DispatcherOk(calls, d, replies) && replies <= more
    requires call.key == calls[c].key && (call.owner.ByDispatcher? <==> calls[c].owner.ByDispatcher?)
    ensures DispatcherOk(calls[c := call], d, more)
  {
  }

  lemma LockFrame(calls: seq<Call>, c: nat, call: Call, d: Dispatcher, d': Dispatcher, lock: Option<Holder>)
    requires c < |calls| && LockOk(calls, d, lock)
    requires HoldsLock(call.goroutine) <==> HoldsLock(calls[c].goroutine)
    requires DispatcherHolds(d) <==> DispatcherHolds(d')
    ensures LockOk(calls[c := call], d', lock)
  {
  }

  lemma LockTaken(calls: seq<Call>, c: nat, call: Call, d: Dispatcher)
    requires c < |calls| && LockOk(calls, d, None) && HoldsLock(call.goroutine)
    ensures LockOk(calls[c := call], d, Some(TheGoroutine(c)))
  {
  }

  /** Whoever holds the lock gives it up. */
  lemma LockReleased(calls: seq<Call>, c: nat, call: Call, d: Dispatcher, d': Dispatcher, lock: Option<Holder>)
    requires c < |calls| && LockOk(calls, d, lock)
    requires lock == Some(TheGoroutine(c)) || lock == Some(TheDispatcher)
    requires !HoldsLock(call.goroutine) && !DispatcherHolds(d')
    ensures LockOk(calls[c := call], d', None)
  {
  }

  lemma FlightsFrame(calls: seq<Call>, c: nat, call: Call, waiters: map<string, seq<nat>>, waiters': map<string, seq<nat>>,
                     flights: map<string, nat>)
    requires c < |calls| && FlightsOk(calls, waiters, flights) && waiters.Keys == waiters'.Keys
    requires call.key == calls[c].key && (InFlight(call.goroutine) <==> InFlight(calls[c].goroutine))
    ensures FlightsOk(calls[c := call], waiters', flights)
  {
  }

  lemma DoneFrame(calls: seq<Call>, c: nat, call: Call, flights: map<string, nat>)
    requires c < |calls| && DoneBy(call.goroutine) == DoneBy(calls[c].goroutine)
    ensures forall k :: DoneFor(calls[c := call], flights, k) == DoneFor(calls, flights, k)
  {
  }

  lemma WaitersFrame(calls: seq<Call>, c: nat, call: Call, waiters: map<string, seq<nat>>, flights: map<string, nat>)
    requires c < |calls| && WaitersOk(calls, waiters, flights)
    requires call.key == calls[c].key && DoneBy(call.goroutine) == DoneBy(calls[c].goroutine)
    requires (!call.owner.InWaiters? && !calls[c].owner.InWaiters?) || call.owner == calls[c].owner
    ensures WaitersOk(calls[c := call], waiters, flights)
  {
    DoneFrame(calls, c, call, flights);
    forall k, i | k in waiters && DoneFor(calls, flights, k) <= i < |waiters[k]|
      ensures WaiterOk(calls[c := call], k, i, waiters[k][i])
    {
      assert WaiterOk(calls, k, i, waiters[k][i]);
    }
  }

  /** A change of a call that no other part of the state can see. */
  predicate Unseen(call: Call, call': Call) {
    && call'.key == call.key
    && (call'.owner == call.owner || (!Linked(call.owner) && !Linked(call'.owner)))
    && (HoldsLock(call'.goroutine) <==> HoldsLock(call.goroutine))
    && (InFlight(call'.goroutine) <==> InFlight(call.goroutine))
    && DoneBy(call'.goroutine) == DoneBy(call.goroutine)
  }

  predicate Linked(o: Owner) {
    o.InQueue? || o.ByDispatcher? || o.InWaiters?
  }

  lemma UnseenKeeps(s: State, c: nat, call: Call)
    requires Inv(s) && c < |s.calls| && Unseen(s.calls[c], call) && CallOk(call, s.replies)
    ensures Inv(SetCall(s, c, call))
  {
    hide CallsOk, QueueOk, DispatcherOk, LockOk, FlightsOk, WaitersOk, CacheOk;
    CallsSet(s.calls, c, call, s.replies);
    QueueFrame(s.calls, c, call, s.queue, s.taken);
    DispatcherFrame(s.calls, c, call, s.dispatcher, s.replies, s.replies);
    LockFrame(s.calls, c, call, s.dispatcher, s.dispatcher, s.lock);
    FlightsFrame(s.calls, c, call, s.waiters, s.waiters, s.flights);
    WaitersFrame(s.calls, c, call, s.waiters, s.flights);
  }

  /** What the invariant says about one call. */
  lemma CallFacts(s: State, c: nat)
    requires Inv(s) && c < |s.calls|
    ensures CallOk(s.calls[c], s.replies)
    ensures HoldsLock(s.calls[c].goroutine) ==> s.lock == Some(TheGoroutine(c)) && !DispatcherHolds(s.dispatcher)
    ensures s.calls[c].key in s.cache ==> (s.calls[c].key, Found(s.cache[s.calls[c].key])) in s.replies
  {
  }

  /** What the invariant says about the task that the dispatcher handles. */
  lemma DispatcherFacts(s: State)
    requires Inv(s) && !s.dispatcher.Receiving?
    ensures s.dispatcher.call < |s.calls|
    ensures s.calls[s.dispatcher.call].owner.ByDispatcher?
    ensures DispatcherHolds(s.dispatcher) ==> s.lock == Some(TheDispatcher)
    ensures s.dispatcher.TaskHit? ==> (s.calls[s.dispatcher.call].key, Found(s.dispatcher.value)) in s.replies
    ensures CallOk(s.calls[s.dispatcher.call], s.replies)
  {
  }

  // Clients

  lemma DirectHitKeeps(s: State, k: string)
    requires Inv(s) && Enabled(s, DirectHit(k))
    ensures Inv(Apply(s, DirectHit(k)))
  {
  }

  lemma ExpireKeeps(s: State, k: string)
    requires Inv(s) && Enabled(s, Expire(k))
    ensures Inv(Apply(s, Expire(k)))
  {
  }

  lemma AppendCalls(calls: seq<Call>, call: Call, replies: set<(string, Reply)>)
    requires CallsOk(calls, replies) && CallOk(call, replies)
    ensures CallsOk(calls + [call], replies)
  {
  }

  lemma AppendQueue(calls: seq<Call>, call: Call, queue: seq<nat>, taken: nat)
    requires QueueOk(calls, queue, taken) && !call.owner.InQueue?
    ensures QueueOk(calls + [call], queue, taken)
  {
  }

  lemma AppendLinks(calls: seq<Call>, call: Call, d: Dispatcher, lock: Option<Holder>, replies: set<(string, Reply)>)
    requires DispatcherOk(calls, d, replies) && LockOk(calls, d, lock)
    requires call.owner.ByClient? && call.goroutine.NotSpawned?
    ensures DispatcherOk(calls + [call], d, replies) && LockOk(calls + [call], d, lock)
  {
  }

  lemma AppendFlights(calls: seq<Call>, call: Call, waiters: map<string, seq<nat>>, flights: map<string, nat>)
    requires FlightsOk(calls, waiters, flights) && call.goroutine.NotSpawned?
    ensures FlightsOk(calls + [call], waiters, flights)
  {
  }

  lemma AppendWaiters(calls: seq<Call>, call: Call, waiters: map<string, seq<nat>>, flights: map<string, nat>)
    requires WaitersOk(calls, waiters, flights) && FlightsOk(calls, waiters, flights) && !call.owner.InWaiters?
    ensures WaitersOk(calls + [call], waiters, flights)
  {
    assert forall k :: DoneFor(calls + [call], flights, k) == DoneFor(calls, flights, k);
    forall k, i | k in waiters && DoneFor(calls, flights, k) <= i < |waiters[k]|
      ensures WaiterOk(calls + [call], k, i, waiters[k][i])
    {
      assert WaiterOk(calls, k, i, waiters[k][i]);
    }
  }

  lemma NewCallKeeps(s: State, k: string)
    requires Inv(s) && Enabled(s, NewCall(k))
    ensures Inv(Apply(s, NewCall(k)))
  {
    hide CallsOk, QueueOk, DispatcherOk, LockOk, FlightsOk, WaitersOk, CacheOk;
    var call := Call(k, Enqueueing, Channel([], 0, 0), NotSpawned, ByClient);
    AppendCalls(s.calls, call, s.replies);
    AppendQueue(s.calls, call, s.queue, s.taken);
    AppendLinks(s.calls, call, s.dispatcher, s.lock, s.replies);
    AppendFlights(s.calls, call, s.waiters, s.flights);
    AppendWaiters(s.calls, call, s.waiters, s.flights);
  }

  lemma QueueEnqueue(calls: seq<Call>, c: nat, call: Call, queue: seq<nat>, taken: nat)
    requires c < |calls| && QueueOk(calls, queue, taken) && !calls[c].owner.InQueue?
    requires call.owner == InQueue(taken + |queue|)
    ensures QueueOk(calls[c := call], queue + [c], taken)
  {
  }

  lemma EnqueueKeeps(s: State, c: nat)
    requires Inv(s) && Enabled(s, Enqueue(c))
    ensures Inv(Apply(s, Enqueue(c)))
  {
    hide CallsOk, QueueOk, DispatcherOk, LockOk, FlightsOk, WaitersOk, CacheOk;
    CallFacts(s, c);
    var call := s.calls[c].(client := Waiting, owner := InQueue(s.taken + |s.queue|));
    CallsSet(s.calls, c, call, s.replies);
    QueueEnqueue(s.calls, c, call, s.queue, s.taken);
    DispatcherFrame(s.calls, c, call, s.dispatcher, s.replies, s.replies);
    LockFrame(s.calls, c, call, s.dispatcher, s.dispatcher, s.lock);
    FlightsFrame(s.calls, c, call, s.waiters, s.waiters, s.flights);
    WaitersFrame(s.calls, c, call, s.waiters, s.flights);
  }

  lemma CancelKeeps(s: State, c: nat)
    requires Inv(s) && Enabled(s, Cancel(c))
    ensures Inv(Apply(s, Cancel(c)))
  {
    hide CallsOk, QueueOk, DispatcherOk, LockOk, FlightsOk, WaitersOk, CacheOk;
    CallFacts(s, c);
    UnseenKeeps(s, c, s.calls[c].(client := Cancelled));
  }

  lemma ReceiveKeeps(s: State, c: nat)
    requires Inv(s) && Enabled(s, Receive(c))
    ensures Inv(Apply(s, Receive(c)))
  {
    hide CallsOk, QueueOk, DispatcherOk, LockOk, FlightsOk, WaitersOk, CacheOk;
    var call := s.calls[c];
    CallFacts(s, c);
    assert call.channel.buffer[0] in call.channel.buffer;
    UnseenKeeps(s, c, call.(client := Returned(call.channel.buffer[0]),
                            channel := call.channel.(buffer := call.channel.buffer[1..])));
  }

  // The dispatcher

  lemma QueueTake(calls: seq<Call>, call: Call, queue: seq<nat>, taken: nat)
    requires queue != [] && QueueOk(calls, queue, taken) && !call.owner.InQueue?
    ensures queue[0] < |calls| && QueueOk(calls[queue[0] := call], queue[1..], taken + 1)
  {
  }

  lemma DispatcherTake(calls: seq<Call>, c: nat, call: Call, replies: set<(string, Reply)>)
    requires c < |calls| && DispatcherOk(calls, Receiving, replies) && call.owner.ByDispatcher?
    ensures DispatcherOk(calls[c := call], Took(c), replies)
  {
  }

  lemma FirstTask(s: State)
    requires Inv(s) && s.queue != []
    ensures s.queue[0] < |s.calls| && s.calls[s.queue[0]].owner == InQueue(s.taken)
  {
    assert s.calls[s.queue[0]].owner == InQueue(s.taken + 0);
  }

  lemma TakeKeeps(s: State)
    requires Inv(s) && Enabled(s, Take)
    ensures Inv(Apply(s, Take))
  {
    hide CallsOk, QueueOk, DispatcherOk, LockOk, FlightsOk, WaitersOk, CacheOk;
    var c := s.queue[0];
    FirstTask(s);
    CallFacts(s, c);
    var call := s.calls[c].(owner := ByDispatcher);
    CallsSet(s.calls, c, call, s.replies);
    QueueTake(s.calls, call, s.queue, s.taken);
    DispatcherTake(s.calls, c, call, s.replies);
    LockFrame(s.calls, c, call, s.dispatcher, Took(c), s.lock);
    FlightsFrame(s.calls, c, call, s.waiters, s.waiters, s.flights);
    WaitersFrame(s.calls, c, call, s.waiters, s.flights);
  }

  lemma DispatcherLocksKeeps(s: State)
    requires Inv(s) && Enabled(s, DispatcherLocks)
    ensures Inv(Apply(s, DispatcherLocks))
  {
  }

  lemma DispatcherLooksKeeps(s: State)
    requires Inv(s) && Enabled(s, DispatcherLooks)
    ensures Inv(Apply(s, DispatcherLooks))
  {
  }

  /** The dispatcher hands its task on. */
  lemma DispatcherDone(calls: seq<Call>, d: Dispatcher, call: Call, replies: set<(string, Reply)>)
    requires DispatcherOk(calls, d, replies) && !d.Receiving? && !call.owner.ByDispatcher?
    ensures DispatcherOk(calls[d.call := call], Receiving, replies)
  {
  }

  lemma DispatcherRepliesKeeps(s: State)
    requires Inv(s) && Enabled(s, DispatcherReplies)
    ensures Inv(Apply(s, DispatcherReplies))
  {
    hide CallsOk, QueueOk, DispatcherOk, LockOk, FlightsOk, WaitersOk, CacheOk;
    var c := s.dispatcher.call;
    DispatcherFacts(s);
    var call := Answer(s.calls[c], Found(s.dispatcher.value));
    CallsSet(s.calls, c, call, s.replies);
    QueueFrame(s.calls, c, call, s.queue, s.taken);
    DispatcherDone(s.calls, s.dispatcher, call, s.replies);
    LockReleased(s.calls, c, call, s.dispatcher, Receiving, s.lock);
    FlightsFrame(s.calls, c, call, s.waiters, s.waiters, s.flights);
    WaitersFrame(s.calls, c, call, s.waiters, s.flights);
  }

  lemma DispatcherSpawns(calls: seq<Call>, d: Dispatcher, replies: set<(string, Reply)>)
    requires DispatcherOk(calls, d, replies) && !d.Receiving?
    ensures DispatcherOk(calls, Spawning(d.call), replies)
  {
  }

  /** A call joins the waiters for its key. */
  lemma WaitersJoin(calls: seq<Call>, c: nat, call: Call, waiters: map<string, seq<nat>>, flights: map<string, nat>)
    requires c < |calls| && WaitersOk(calls, waiters, flights) && call.key == calls[c].key && call.key in waiters
    requires !calls[c].owner.InWaiters? && call.owner == InWaiters(|waiters[call.key]|)
    requires DoneBy(call.goroutine) == DoneBy(calls[c].goroutine)
    ensures WaitersOk(calls[c := call], waiters[call.key := waiters[call.key] + [c]], flights)
  {
    DoneFrame(calls, c, call, flights);
    var waiters' := waiters[call.key := waiters[call.key] + [c]];
    forall k, i | k in waiters' && DoneFor(calls, flights, k) <= i < |waiters'[k]|
      ensures WaiterOk(calls[c := call], k, i, waiters'[k][i])
    {
      if k == call.key && i == |waiters[k]| {
      } else {
        assert WaiterOk(calls, k, i, waiters[k][i]);
      }
    }
  }

  lemma DispatcherRegistersKeeps(s: State)
    requires Inv(s) && Enabled(s, DispatcherRegisters)
    ensures Inv(Apply(s, DispatcherRegisters))
  {
    hide CallsOk, QueueOk, DispatcherOk, LockOk, FlightsOk, WaitersOk, CacheOk;
    var c := s.dispatcher.call;
    var k := s.calls[c].key;
    DispatcherFacts(s);
    if k in s.waiters {
      var call := s.calls[c].(owner := InWaiters(|s.waiters[k]|));
      CallsSet(s.calls, c, call, s.replies);
      QueueFrame(s.calls, c, call, s.queue, s.taken);
      DispatcherDone(s.calls, s.dispatcher, call, s.replies);
      LockReleased(s.calls, c, call, s.dispatcher, Receiving, s.lock);
      FlightsFrame(s.calls, c, call, s.waiters, s.waiters[k := s.waiters[k] + [c]], s.flights);
      WaitersJoin(s.calls, c, call, s.waiters, s.flights);
    } else {
      LockReleased(s.calls, c, s.calls[c], s.dispatcher, Spawning(c), s.lock);
      DispatcherSpawns(s.calls, s.dispatcher, s.replies);
      assert s.calls[c := s.calls[c]] == s.calls;
    }
  }

  lemma SpawnKeeps(s: State)
    requires Inv(s) && Enabled(s, Spawn)
    ensures Inv(Apply(s, Spawn))
  {
    hide CallsOk, QueueOk, DispatcherOk, LockOk, FlightsOk, WaitersOk, CacheOk;
    var c := s.dispatcher.call;
    DispatcherFacts(s);
    var call := s.calls[c].(goroutine := WantsLock, owner := ByGoroutine);
    CallsSet(s.calls, c, call, s.replies);
    QueueFrame(s.calls, c, call, s.queue, s.taken);
    DispatcherDone(s.calls, s.dispatcher, call, s.replies);
    LockFrame(s.calls, c, call, s.dispatcher, Receiving, s.lock);
    FlightsFrame(s.calls, c, call, s.waiters, s.waiters, s.flights);
    WaitersFrame(s.calls, c, call, s.waiters, s.flights);
  }

  // Goroutines

  /** A goroutine takes the lock. */
  lemma GoroutineLockKeeps(s: State, c: nat, call: Call)
    requires Inv(s) && c < |s.calls| && s.lock.None? && CallOk(call, s.replies)
    requires call.key == s.calls[c].key && call.owner == s.calls[c].owner && HoldsLock(call.goroutine)
    requires InFlight(call.goroutine) <==> InFlight(s.calls[c].goroutine)
    requires DoneBy(call.goroutine) == DoneBy(s.calls[c].goroutine)
    ensures Inv(SetCall(s, c, call).(lock := Some(TheGoroutine(c))))
  {
    hide CallsOk, QueueOk, DispatcherOk, LockOk, FlightsOk, WaitersOk, CacheOk;
    CallsSet(s.calls, c, call, s.replies);
    QueueFrame(s.calls, c, call, s.queue, s.taken);
    DispatcherFrame(s.calls, c, call, s.dispatcher, s.replies, s.replies);
    LockTaken(s.calls, c, call, s.dispatcher);
    FlightsFrame(s.calls, c, call, s.waiters, s.waiters, s.flights);
    WaitersFrame(s.calls, c, call, s.waiters, s.flights);
  }

  lemma GoroutineLocksKeeps(s: State, c: nat)
    requires Inv(s) && Enabled(s, GoroutineLocks(c))
    ensures Inv(Apply(s, GoroutineLocks(c)))
  {
    hide CallsOk, QueueOk, DispatcherOk, LockOk, FlightsOk, WaitersOk, CacheOk;
    CallFacts(s, c);
    GoroutineLockKeeps(s, c, s.calls[c].(goroutine := Locked));
  }

  lemma GoroutineLooksKeeps(s: State, c: nat)
    requires Inv(s) && Enabled(s, GoroutineLooks(c))
    ensures Inv(Apply(s, GoroutineLooks(c)))
  {
    hide CallsOk, QueueOk, DispatcherOk, LockOk, FlightsOk, WaitersOk, CacheOk;
    var k := s.calls[c].key;
    CallFacts(s, c);
    UnseenKeeps(s, c, s.calls[c].(goroutine := if k in s.cache then Hit(s.cache[k]) else Missed));
  }

  lemma GoroutineRepliesKeeps(s: State, c: nat)
    requires Inv(s) && Enabled(s, GoroutineReplies(c))
    ensures Inv(Apply(s, GoroutineReplies(c)))
  {
    hide CallsOk, QueueOk, DispatcherOk, LockOk, FlightsOk, WaitersOk, CacheOk;
    CallFacts(s, c);
    var call := Answer(s.calls[c], Found(s.calls[c].goroutine.value)).(goroutine := Finished);
    CallsSet(s.calls, c, call, s.replies);
    QueueFrame(s.calls, c, call, s.queue, s.taken);
    DispatcherFrame(s.calls, c, call, s.dispatcher, s.replies, s.replies);
    LockReleased(s.calls, c, call, s.dispatcher, s.dispatcher, s.lock);
    FlightsFrame(s.calls, c, call, s.waiters, s.waiters, s.flights);
    WaitersFrame(s.calls, c, call, s.waiters, s.flights);
  }

  lemma FlightsStart(calls: seq<Call>, c: nat, call: Call, waiters: map<string, seq<nat>>, flights: map<string, nat>)
    requires c < |calls| && FlightsOk(calls, waiters, flights)
    requires call.key == calls[c].key && call.key !in waiters && InFlight(call.goroutine)
    ensures FlightsOk(calls[c := call], waiters[call.key := [c]], flights[call.key := c])
  {
  }

  lemma WaitersStart(calls: seq<Call>, c: nat, call: Call, waiters: map<string, seq<nat>>, flights: map<string, nat>)
    requires c < |calls| && WaitersOk(calls, waiters, flights) && FlightsOk(calls, waiters, flights)
    requires call.key == calls[c].key && call.key !in waiters
    requires !calls[c].owner.InWaiters? && call.owner == InWaiters(0) && call.goroutine.Fetching? && !InFlight(calls[c].goroutine)
    ensures WaitersOk(calls[c := call], waiters[call.key := [c]], flights[call.key := c])
  {
    var calls', waiters', flights' := calls[c := call], waiters[call.key := [c]], flights[call.key := c];
    assert forall k :: k != call.key ==> DoneFor(calls', flights', k) == DoneFor(calls, flights, k);
    assert DoneFor(calls', flights', call.key) == 0;
    forall k, i | k in waiters' && DoneFor(calls', flights', k) <= i < |waiters'[k]|
      ensures WaiterOk(calls', k, i, waiters'[k][i])
    {
      if k != call.key {
        assert WaiterOk(calls, k, i, waiters[k][i]);
      }
    }
  }

  lemma GoroutineJoinsKeeps(s: State, c: nat)
    requires Inv(s) && Enabled(s, GoroutineRegisters(c)) && s.calls[c].key in s.waiters
    ensures Inv(Apply(s, GoroutineRegisters(c)))
  {
    hide CallsOk, QueueOk, DispatcherOk, LockOk, FlightsOk, WaitersOk, CacheOk;
    var k := s.calls[c].key;
    CallFacts(s, c);
    var call := s.calls[c].(goroutine := Finished, owner := InWaiters(|s.waiters[k]|));
    CallsSet(s.calls, c, call, s.replies);
    QueueFrame(s.calls, c, call, s.queue, s.taken);
    DispatcherFrame(s.calls, c, call, s.dispatcher, s.replies, s.replies);
    LockReleased(s.calls, c, call, s.dispatcher, s.dispatcher, s.lock);
    FlightsFrame(s.calls, c, call, s.waiters, s.waiters[k := s.waiters[k] + [c]], s.flights);
    WaitersJoin(s.calls, c, call, s.waiters, s.flights);
  }

  lemma GoroutineStartsKeeps(s: State, c: nat)
    requires Inv(s) && Enabled(s, GoroutineRegisters(c)) && s.calls[c].key !in s.waiters
    ensures Inv(Apply(s, GoroutineRegisters(c)))
  {
    hide CallsOk, QueueOk, DispatcherOk, LockOk, FlightsOk, WaitersOk, CacheOk;
    CallFacts(s, c);
    var call := s.calls[c].(goroutine := Fetching, owner := InWaiters(0));
    CallsSet(s.calls, c, call, s.replies);
    QueueFrame(s.calls, c, call, s.queue, s.taken);
    DispatcherFrame(s.calls, c, call, s.dispatcher, s.replies, s.replies);
    LockReleased(s.calls, c, call, s.dispatcher, s.dispatcher, s.lock);
    FlightsStart(s.calls, c, call, s.waiters, s.flights);
    WaitersStart(s.calls, c, call, s.waiters, s.flights);
  }

  lemma MoreRepliesKeeps(s: State, reply: (string, Reply))
    requires Inv(s)
    ensures Inv(s.(replies := s.replies + {reply}))
  {
    CallsMoreReplies(s.calls, s.replies, s.replies + {reply});
  }

  lemma FetchReturnsKeeps(s: State, c: nat, r: Reply)
    requires Inv(s) && Enabled(s, FetchReturns(c, r))
    ensures Inv(Apply(s, FetchReturns(c, r)))
  {
    hide CallsOk, QueueOk, DispatcherOk, LockOk, FlightsOk, WaitersOk, CacheOk;
    var s1 := s.(replies := s.replies + {(s.calls[c].key, r)});
    MoreRepliesKeeps(s, (s.calls[c].key, r));
    CallFacts(s1, c);
    UnseenKeeps(s1, c, s1.calls[c].(goroutine := if r.Found? then Fetched(r.value) else WantsToDeliver(r)));
  }

  lemma SetCacheKeeps(s: State, c: nat)
    requires Inv(s) && Enabled(s, SetCache(c))
    ensures Inv(Apply(s, SetCache(c)))
  {
    hide CallsOk, QueueOk, DispatcherOk, LockOk, FlightsOk, WaitersOk, CacheOk;
    CallFacts(s, c);
    UnseenKeeps(s, c, s.calls[c].(goroutine := WantsToDeliver(Found(s.calls[c].goroutine.value))));
    CacheSet(s.cache, s.calls[c].key, s.calls[c].goroutine.value, s.direct, s.replies);
  }

  lemma CacheSet(cache: map<string, Value>, k: string, v: Value, direct: set<(string, Reply)>, replies: set<(string, Reply)>)
    requires CacheOk(cache, direct, replies) && (k, Found(v)) in replies
    ensures CacheOk(cache[k := v], direct, replies)
  {
  }

  lemma LocksToDeliverKeeps(s: State, c: nat)
    requires Inv(s) && Enabled(s, LocksToDeliver(c))
    ensures Inv(Apply(s, LocksToDeliver(c)))
  {
    hide CallsOk, QueueOk, DispatcherOk, LockOk, FlightsOk, WaitersOk, CacheOk;
    CallFacts(s, c);
    GoroutineLockKeeps(s, c, s.calls[c].(goroutine := Delivering(s.calls[c].goroutine.reply, 0)));
  }

  /** The waiter whose turn it is: its call has the same key and is not yet answered. */
  lemma NextWaiter(s: State, c: nat) returns (j: nat)
    requires Inv(s) && c < |s.calls| && s.calls[c].goroutine.Delivering?
    requires s.calls[c].key in s.waiters && s.calls[c].goroutine.done < |s.waiters[s.calls[c].key]|
    ensures j == s.waiters[s.calls[c].key][s.calls[c].goroutine.done]
    ensures WaiterOk(s.calls, s.calls[c].key, s.calls[c].goroutine.done, j)
  {
    var k := s.calls[c].key;
    assert InFlight(s.calls[c].goroutine) && s.flights[k] == c;
    assert DoneFor(s.calls, s.flights, k) == s.calls[c].goroutine.done;
    j := s.waiters[k][s.calls[c].goroutine.done];
  }

  /** The next waiter is answered: one more of the list is done. */
  lemma WaitersAnswer(calls: seq<Call>, calls': seq<Call>, c: nat, j: nat, waiters: map<string, seq<nat>>, flights: map<string, nat>)
    requires c < |calls| && j < |calls| && WaitersOk(calls, waiters, flights) && FlightsOk(calls, waiters, flights)
    requires calls[c].goroutine.Delivering? && calls[c].key in waiters
    requires WaiterOk(calls, calls[c].key, calls[c].goroutine.done, j)
    requires calls[c].goroutine.done < |waiters[calls[c].key]| && waiters[calls[c].key][calls[c].goroutine.done] == j
    requires |calls'| == |calls|
    requires forall i :: 0 <= i < |calls| ==> calls'[i].key == calls[i].key
    requires forall i :: 0 <= i < |calls| && i != j ==> calls'[i].owner == calls[i].owner
    requires !calls'[j].owner.InWaiters?
    requires forall i :: 0 <= i < |calls| && i != c ==> calls'[i].goroutine == calls[i].goroutine
    requires calls'[c].goroutine == Delivering(calls[c].goroutine.reply, calls[c].goroutine.done + 1)
    ensures WaitersOk(calls', waiters, flights)
  {
    var key := calls[c].key;
    assert InFlight(calls[c].goroutine) && flights[key] == c;
    forall k | k in waiters
      ensures DoneFor(calls', flights, k) == DoneFor(calls, flights, k) + if k == key then 1 else 0
    {
    }
    forall k, i | k in waiters && DoneFor(calls', flights, k) <= i < |waiters[k]|
      ensures WaiterOk(calls', k, i, waiters[k][i])
    {
      assert WaiterOk(calls, k, i, waiters[k][i]);
    }
    forall i | 0 <= i < |calls'| && calls'[i].owner.InWaiters?
      ensures calls'[i].key in waiters
      ensures DoneFor(calls', flights, calls'[i].key) <= calls'[i].owner.place < |waiters[calls'[i].key]|
      ensures waiters[calls'[i].key][calls'[i].owner.place] == i
    {
      assert i != j && calls[i].owner.InWaiters?;
    }
  }

  /** What stays true when a call in flight or a waiting call changes, whatever its place in the list. */
  lemma DeliveryFrame(s: State, calls: seq<Call>, c: nat, call: Call)
    requires |calls| == |s.calls| && c < |calls|
    requires CallsOk(calls, s.replies) && CallOk(call, s.replies)
    requires QueueOk(calls, s.queue, s.taken) && DispatcherOk(calls, s.dispatcher, s.replies)
    requires LockOk(calls, s.dispatcher, s.lock) && FlightsOk(calls, s.waiters, s.flights)
    requires call.key == calls[c].key
    requires (!call.owner.InQueue? && !calls[c].owner.InQueue?) || call.owner == calls[c].owner
    requires call.owner.ByDispatcher? <==> calls[c].owner.ByDispatcher?
    requires HoldsLock(call.goroutine) <==> HoldsLock(calls[c].goroutine)
    requires InFlight(call.goroutine) <==> InFlight(calls[c].goroutine)
    ensures CallsOk(calls[c := call], s.replies)
    ensures QueueOk(calls[c := call], s.queue, s.taken) && DispatcherOk(calls[c := call], s.dispatcher, s.replies)
    ensures LockOk(calls[c := call], s.dispatcher, s.lock) && FlightsOk(calls[c := call], s.waiters, s.flights)
  {
    hide CallsOk, QueueOk, DispatcherOk, LockOk, FlightsOk, WaitersOk, CacheOk;
    CallsSet(calls, c, call, s.replies);
    QueueFrame(calls, c, call, s.queue, s.taken);
    DispatcherFrame(calls, c, call, s.dispatcher, s.replies, s.replies);
    LockFrame(calls, c, call, s.dispatcher, s.dispatcher, s.lock);
    FlightsFrame(calls, c, call, s.waiters, s.waiters, s.flights);
  }

  lemma AnswerOk(call: Call, r: Reply, replies: set<(string, Reply)>)
    requires CallOk(call, replies) && call.owner.InWaiters? && (call.key, r) in replies
    ensures CallOk(Answer(call, r), replies)
  {
  }

  lemma DeliverKeeps(s: State, c: nat)
    requires Inv(s) && Enabled(s, Deliver(c))
    ensures Inv(Apply(s, Deliver(c)))
  {
    hide CallsOk, QueueOk, DispatcherOk, LockOk, FlightsOk, WaitersOk, CacheOk;
    var g := s.calls[c].goroutine;
    var j := NextWaiter(s, c);
    var call := s.calls[c].(goroutine := Delivering(g.reply, g.done + 1));
    var calls := s.calls[c := call];
    CallFacts(s, c);
    CallFacts(s, j);
    DeliveryFrame(s, s.calls, c, call);
    AnswerOk(calls[j], g.reply, s.replies);
    DeliveryFrame(s, calls, j, Answer(calls[j], g.reply));
    WaitersAnswer(s.calls, calls[j := Answer(calls[j], g.reply)], c, j, s.waiters, s.flights);
  }

  lemma FlightsEnd(calls: seq<Call>, c: nat, call: Call, waiters: map<string, seq<nat>>, flights: map<string, nat>)
    requires c < |calls| && FlightsOk(calls, waiters, flights)
    requires call.key == calls[c].key && InFlight(calls[c].goroutine) && !InFlight(call.goroutine)
    ensures FlightsOk(calls[c := call], waiters - {call.key}, flights - {call.key})
  {
  }

  lemma WaitersEnd(calls: seq<Call>, c: nat, call: Call, waiters: map<string, seq<nat>>, flights: map<string, nat>)
    requires c < |calls| && WaitersOk(calls, waiters, flights) && FlightsOk(calls, waiters, flights)
    requires call.key == calls[c].key && call.owner == calls[c].owner && calls[c].goroutine.Delivering?
    requires call.key in waiters && calls[c].goroutine.done == |waiters[call.key]|
    ensures WaitersOk(calls[c := call], waiters - {call.key}, flights - {call.key})
  {
    var calls', waiters', flights' := calls[c := call], waiters - {call.key}, flights - {call.key};
    assert InFlight(calls[c].goroutine) && flights[call.key] == c;
    assert DoneFor(calls, flights, call.key) == |waiters[call.key]|;
    forall k | k in waiters'
      ensures DoneFor(calls', flights', k) == DoneFor(calls, flights, k)
    {
    }
    forall k, i | k in waiters' && DoneFor(calls', flights', k) <= i < |waiters'[k]|
      ensures WaiterOk(calls', k, i, waiters'[k][i])
    {
      assert WaiterOk(calls, k, i, waiters[k][i]);
    }
  }

  lemma FinishDeliveryKeeps(s: State, c: nat)
    requires Inv(s) && Enabled(s, FinishDelivery(c))
    ensures Inv(Apply(s, FinishDelivery(c)))
  {
    hide CallsOk, QueueOk, DispatcherOk, LockOk, FlightsOk, WaitersOk, CacheOk;
    CallFacts(s, c);
    var call := s.calls[c].(goroutine := Finished);
    CallsSet(s.calls, c, call, s.replies);
    QueueFrame(s.calls, c, call, s.queue, s.taken);
    DispatcherFrame(s.calls, c, call, s.dispatcher, s.replies, s.replies);
    LockReleased(s.calls, c, call, s.dispatcher, s.dispatcher, s.lock);
    FlightsEnd(s.calls, c, call, s.waiters, s.flights);
    WaitersEnd(s.calls, c, call, s.waiters, s.flights);
  }

  lemma GoroutineStepKeeps(s: State, e: Event)
    requires Inv(s) && Enabled(s, e)
    requires e.GoroutineLocks? || e.GoroutineLooks? || e.GoroutineReplies? || e.GoroutineRegisters? ||
             e.FetchReturns? || e.SetCache? || e.LocksToDeliver? || e.Deliver? || e.FinishDelivery?
    ensures Inv(Apply(s, e))
  {
    match e
    case GoroutineLocks(c) => GoroutineLocksKeeps(s, c);
    case GoroutineLooks(c) => GoroutineLooksKeeps(s, c);
    case GoroutineReplies(c) => GoroutineRepliesKeeps(s, c);
    case GoroutineRegisters(c) =>
      if s.calls[c].key in s.waiters {
        GoroutineJoinsKeeps(s, c);
      } else {
        GoroutineStartsKeeps(s, c);
      }
    case FetchReturns(c, r) => FetchReturnsKeeps(s, c, r);
    case SetCache(c) => SetCacheKeeps(s, c);
    case LocksToDeliver(c) => LocksToDeliverKeeps(s, c);
    case Deliver(c) => DeliverKeeps(s, c);
    case FinishDelivery(c) => FinishDeliveryKeeps(s, c);
  }

  /** Every action keeps the invariant. */
  lemma StepKeeps(s: State, e: Event)
    requires Inv(s) && Enabled(s, e)
    ensures Inv(Apply(s, e))
  {
    match e
    case DirectHit(k) => DirectHitKeeps(s, k);
    case NewCall(k) => NewCallKeeps(s, k);
    case Expire(k) => ExpireKeeps(s, k);
    case Enqueue(c) => EnqueueKeeps(s, c);
    case Cancel(c) => CancelKeeps(s, c);
    case Receive(c) => ReceiveKeeps(s, c);
    case Take => TakeKeeps(s);
    case DispatcherLocks => DispatcherLocksKeeps(s);
    case DispatcherLooks => DispatcherLooksKeeps(s);
    case DispatcherReplies => DispatcherRepliesKeeps(s);
    case DispatcherRegisters => DispatcherRegistersKeeps(s);
    case Spawn => SpawnKeeps(s);
    case _ => GoroutineStepKeeps(s, e);
  }

  lemma {:induction false} RunKeeps(es: seq<Event>)
    requires CanRun(es)
    ensures Inv(Run(es))
    decreases |es|
  {
    if es != [] {
      RunKeeps(es[..|es| - 1]);
      StepKeeps(Run(es[..|es| - 1]), es[|es| - 1]);
    }
  }
}
