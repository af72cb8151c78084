/** What callers of the spike manager can rely on: one answer each, from a fetch, in bounded time. */
module SpikeProgress {
  import opened SpikeMachine
  import opened SpikeSafety

  // Safety over runs

  /** A key has at most one fetch in flight, and waiters exactly while it has one. */
  lemma OneFetchPerKey(es: seq<Event>)
    requires CanRun(es)
    ensures var s := Run(es);
            && (forall c, c' :: 0 <= c < |s.calls| && 0 <= c' < |s.calls| ==>
                  s.calls[c].key == s.calls[c'].key ==>
                  InFlight(s.calls[c].goroutine) ==> InFlight(s.calls[c'].goroutine) ==> c == c')
            && (forall k :: k in s.waiters <==>
                  exists c :: 0 <= c < |s.calls| && s.calls[c].key == k && InFlight(s.calls[c].goroutine))
  {
    RunKeeps(es);
    var s := Run(es);
    forall k | k in s.waiters
      ensures exists c :: 0 <= c < |s.calls| && s.calls[c].key == k && InFlight(s.calls[c].goroutine)
    {
      assert k in s.flights;
    }
  }

  /** The waiters for `k` that have not been answered. */
  function Unanswered(s: State, k: string): seq<nat>
    requires k in s.waiters
  {
    var done := DoneFor(s.calls, s.flights, k);
    if done <= |s.waiters[k]| then s.waiters[k][done..] else []
  }

  /** Where the call's task can be found. */
  predicate Holds(s: State, c: nat, o: Owner)
    requires c < |s.calls|
  {
    match o
    case ByClient => s.calls[c].client.Enqueueing?
    case InQueue(_) => c in s.queue
    case ByDispatcher => !s.dispatcher.Receiving? && s.dispatcher.call == c
    case ByGoroutine => OwnsTask(s.calls[c].goroutine)
    case InWaiters(_) => s.calls[c].key in s.waiters && c in Unanswered(s, s.calls[c].key)
    case Answered => s.calls[c].channel.sends > 0
  }

  /**
   A call's channel has one owner: its client, the task queue, the dispatcher, a goroutine, the
   unanswered part of a waiter list, or nobody once it has been answered.
   */
  lemma OneOwner(es: seq<Event>, c: nat, o: Owner)
    requires CanRun(es) && c < |Run(es).calls|
    ensures Holds(Run(es), c, o) <==>
            (match o
             case InQueue(_) => Run(es).calls[c].owner.InQueue?
             case InWaiters(_) => Run(es).calls[c].owner.InWaiters?
             case _ => Run(es).calls[c].owner == o)
  {
    RunKeeps(es);
    var s := Run(es);
    CallFacts(s, c);
    match o
    case InQueue(_) => QueueOwner(s, c);
    case InWaiters(_) => WaiterOwner(s, c);
    case _ =>
  }

  lemma QueueOwner(s: State, c: nat)
    requires Inv(s) && c < |s.calls|
    ensures c in s.queue <==> s.calls[c].owner.InQueue?
  {
    if c in s.queue {
      var i :| 0 <= i < |s.queue| && s.queue[i] == c;
    }
  }

  lemma WaiterOwner(s: State, c: nat)
    requires Inv(s) && c < |s.calls|
    ensures Holds(s, c, InWaiters(0)) <==> s.calls[c].owner.InWaiters?
  {
    var k := s.calls[c].key;
    if s.calls[c].owner.InWaiters? {
      var done := DoneFor(s.calls, s.flights, k);
      assert Unanswered(s, k)[s.calls[c].owner.place - done] == c;
    }
  }

  /** Every channel is sent to at most once and closed right after. */
  lemma OneSendOneClose(es: seq<Event>, c: nat)
    requires CanRun(es) && c < |Run(es).calls|
    ensures var call := Run(es).calls[c];
            && call.channel.sends == call.channel.closes == (if call.owner.Answered? then 1 else 0)
            && (call.client.Waiting? && call.channel.closes > 0 ==> |call.channel.buffer| == 1)
  {
    RunKeeps(es);
    CallFacts(Run(es), c);
  }

  /** Whoever is about to send finds the channel's buffer empty. */
  lemma SendsNeverBlock(es: seq<Event>)
    requires CanRun(es)
    ensures var s := Run(es);
            && (s.dispatcher.TaskHit? ==> CanSend(s, s.dispatcher.call))
            && (forall c :: 0 <= c < |s.calls| && s.calls[c].goroutine.Hit? ==> CanSend(s, c))
            && (forall c :: 0 <= c < |s.calls| && s.calls[c].goroutine.Delivering? ==>
                  && s.calls[c].key in s.waiters
                  && s.calls[c].goroutine.done <= |s.waiters[s.calls[c].key]|
                  && (s.calls[c].goroutine.done < |s.waiters[s.calls[c].key]| ==>
                        CanSend(s, s.waiters[s.calls[c].key][s.calls[c].goroutine.done])))
  {
    RunKeeps(es);
    var s := Run(es);
    if s.dispatcher.TaskHit? {
      DispatcherFacts(s);
    }
    forall c | 0 <= c < |s.calls|
      ensures s.calls[c].goroutine.Hit? ==> CanSend(s, c)
      ensures s.calls[c].goroutine.Delivering? ==>
                && s.calls[c].key in s.waiters
                && s.calls[c].goroutine.done <= |s.waiters[s.calls[c].key]|
                && (s.calls[c].goroutine.done < |s.waiters[s.calls[c].key]| ==>
                      CanSend(s, s.waiters[s.calls[c].key][s.calls[c].goroutine.done]))
    {
      CallFacts(s, c);
      if s.calls[c].goroutine.Delivering? {
        CanDeliver(s, c);
      }
    }
  }

  lemma CanDeliver(s: State, c: nat)
    requires Inv(s) && c < |s.calls| && s.calls[c].goroutine.Delivering?
    ensures s.calls[c].key in s.waiters
    ensures s.calls[c].goroutine.done <= |s.waiters[s.calls[c].key]|
    ensures s.calls[c].goroutine.done < |s.waiters[s.calls[c].key]| ==>
              CanSend(s, s.waiters[s.calls[c].key][s.calls[c].goroutine.done])
  {
    var k := s.calls[c].key;
    assert InFlight(s.calls[c].goroutine) && s.flights[k] == c;
    assert DoneFor(s.calls, s.flights, k) == s.calls[c].goroutine.done;
    if s.calls[c].goroutine.done < |s.waiters[k]| {
      var j := NextWaiter(s, c);
      CallFacts(s, j);
    }
  }

  /** What a caller gets, what is cached and what is on its way was returned by a fetch of that key. */
  lemma RepliesComeFromFetches(es: seq<Event>)
    requires CanRun(es)
    ensures var s := Run(es);
            && (forall c :: 0 <= c < |s.calls| && s.calls[c].client.Returned? ==>
                  (s.calls[c].key, s.calls[c].client.reply) in s.replies)
            && s.direct <= s.replies
            && (forall k :: k in s.cache ==> (k, Found(s.cache[k])) in s.replies)
  {
    RunKeeps(es);
    var s := Run(es);
    forall c | 0 <= c < |s.calls|
      ensures s.calls[c].client.Returned? ==> (s.calls[c].key, s.calls[c].client.reply) in s.replies
    {
      CallFacts(s, c);
    }
  }

  lemma CallKeepsKey(s: State, e: Event, c: nat)
    requires Enabled(s, e) && c < |s.calls|
    ensures c < |Apply(s, e).calls| && Apply(s, e).calls[c].key == s.calls[c].key
  {
  }

  /** The i-th event is the return of a fetch for `k` with reply `r`. */
  ghost predicate FetchedAt(es: seq<Event>, i: int, k: string, r: Reply)
    requires CanRun(es)
  {
    && 0 <= i < |es| && es[i].FetchReturns? && es[i].reply == r
    && es[i].call < |Run(es).calls| && Run(es).calls[es[i].call].key == k
  }

  /** The recorded replies are those of fetches that returned during the run. */
  lemma {:induction false} RepliesWereFetched(es: seq<Event>, k: string, r: Reply)
    requires CanRun(es) && (k, r) in Run(es).replies
    ensures exists i :: FetchedAt(es, i, k, r)
    decreases |es|
  {
    if es != [] {
      var front, e := es[..|es| - 1], es[|es| - 1];
      var s := Run(front);
      if (k, r) in s.replies {
        RepliesWereFetched(front, k, r);
        var i :| FetchedAt(front, i, k, r);
        assert es[i] == front[i];
        CallKeepsKey(s, e, es[i].call);
        assert FetchedAt(es, i, k, r);
      } else {
        NewReply(s, e, k, r);
        CallKeepsKey(s, e, e.call);
        assert FetchedAt(es, |es| - 1, k, r);
      }
    }
  }

  lemma NewReply(s: State, e: Event, k: string, r: Reply)
    requires Enabled(s, e) && (k, r) !in s.replies && (k, r) in Apply(s, e).replies
    ensures e.FetchReturns? && e.reply == r && s.calls[e.call].key == k
  {
  }

  // Progress

  function OwnerWeight(o: Owner): nat {
    match o
    case ByClient => 15
    case InQueue(_) => 14
    case InWaiters(_) => 1
    case _ => 0
  }

  function GoroutineWeight(g: Goroutine): nat {
    match g
    case NotSpawned => 0
    case WantsLock => 9
    case Locked => 8
    case Hit(_) => 7
    case Missed => 7
    case Fetching => 5
    case Fetched(_) => 4
    case WantsToDeliver(_) => 3
    case Delivering(_, _) => 2
    case Finished => 0
  }

  function DispatcherWeight(d: Dispatcher): nat {
    match d
    case Receiving => 0
    case Took(_) => 13
    case TookLock(_) => 12
    case TaskHit(_, _) => 11
    case TaskMissed(_) => 11
    case Spawning(_) => 10
  }

  function CallWeight(call: Call): nat {
    OwnerWeight(call.owner) + GoroutineWeight(call.goroutine) +
    if call.client.Enqueueing? || call.client.Waiting? then 1 else 0
  }

  function Total(calls: seq<Call>): nat {
    if calls == [] then 0 else Total(calls[..|calls| - 1]) + CallWeight(calls[|calls| - 1])
  }

  /** How many actions the calls under way can still take. */
  function Measure(s: State): nat {
    Total(s.calls) + DispatcherWeight(s.dispatcher)
  }

  const CALL_WEIGHT: nat := 16

  lemma {:induction false} TotalUpdate(calls: seq<Call>, c: nat, call: Call)
    requires c < |calls|
    ensures Total(calls[c := call]) == Total(calls) - CallWeight(calls[c]) + CallWeight(call)
    decreases |calls|
  {
    var n := |calls| - 1;
    if c == n {
      assert calls[c := call][..n] == calls[..n];
    } else {
      assert calls[c := call][..n] == calls[..n][c := call];
      TotalUpdate(calls[..n], c, call);
    }
  }

  lemma TotalAppend(calls: seq<Call>, call: Call)
    ensures Total(calls + [call]) == Total(calls) + CallWeight(call)
  {
    assert (calls + [call])[..|calls|] == calls;
  }

  /** Actions of the manager and its clients, as against arrivals and the cache forgetting a key. */
  predicate Internal(e: Event) {
    !e.NewCall? && !e.DirectHit? && !e.Expire?
  }

  /** Only call `c` changed. */
  lemma ChangeOneCall(calls: seq<Call>, calls': seq<Call>, c: nat)
    requires c < |calls| && |calls'| == |calls| && calls' == calls[c := calls'[c]]
    ensures Total(calls') == Total(calls) - CallWeight(calls[c]) + CallWeight(calls'[c])
  {
    TotalUpdate(calls, c, calls'[c]);
  }

  lemma ClientUsesUpMeasure(s: State, e: Event)
    requires Inv(s) && Enabled(s, e) && (e.Enqueue? || e.Cancel? || e.Receive?)
    ensures Measure(Apply(s, e)) < Measure(s)
  {
    CallFacts(s, e.call);
    hide Inv, CallsOk, QueueOk, DispatcherOk, LockOk, FlightsOk, WaitersOk, CacheOk, Total;
    ChangeOneCall(s.calls, Apply(s, e).calls, e.call);
  }

  lemma DispatcherUsesUpMeasure(s: State, e: Event)
    requires Enabled(s, e)
    requires e.DispatcherReplies? || e.DispatcherRegisters? || e.Spawn?
    ensures Measure(Apply(s, e)) < Measure(s)
  {
    hide Total;
    var c := s.dispatcher.call;
    var calls := Apply(s, e).calls;
    assert calls == s.calls[c := calls[c]];
    ChangeOneCall(s.calls, calls, c);
  }

  lemma TakeUsesUpMeasure(s: State)
    requires Inv(s) && Enabled(s, Take)
    ensures Measure(Apply(s, Take)) < Measure(s)
  {
    FirstTask(s);
    hide Inv, Total;
    ChangeOneCall(s.calls, Apply(s, Take).calls, s.queue[0]);
  }

  lemma GoroutineUsesUpMeasure(s: State, e: Event)
    requires Enabled(s, e)
    requires e.GoroutineLocks? || e.GoroutineLooks? || e.GoroutineReplies? || e.GoroutineRegisters?
    ensures Measure(Apply(s, e)) < Measure(s)
  {
    hide Total;
    ChangeOneCall(s.calls, Apply(s, e).calls, e.call);
  }

  lemma FetchUsesUpMeasure(s: State, e: Event)
    requires Enabled(s, e)
    requires e.FetchReturns? || e.SetCache? || e.LocksToDeliver? || e.FinishDelivery?
    ensures Measure(Apply(s, e)) < Measure(s)
  {
    hide Total;
    ChangeOneCall(s.calls, Apply(s, e).calls, e.call);
  }

  lemma DeliverUsesUpMeasure(s: State, c: nat, j: nat)
    requires Enabled(s, Deliver(c)) && j == s.waiters[s.calls[c].key][s.calls[c].goroutine.done]
    requires s.calls[j].owner.InWaiters?
    ensures Measure(Apply(s, Deliver(c))) < Measure(s)
  {
    hide Total;
    var g := s.calls[c].goroutine;
    var calls := s.calls[c := s.calls[c].(goroutine := Delivering(g.reply, g.done + 1))];
    ChangeOneCall(s.calls, calls, c);
    ChangeOneCall(calls, calls[j := Answer(calls[j], g.reply)], j);
  }

  /** Every internal action uses up some of the measure; only a new call adds to it. */
  lemma StepUsesUpMeasure(s: State, e: Event)
    requires Inv(s) && Enabled(s, e)
    ensures Internal(e) ==> Measure(Apply(s, e)) < Measure(s)
    ensures !Internal(e) ==> Measure(Apply(s, e)) == Measure(s) + if e.NewCall? then CALL_WEIGHT else 0
  {
    hide Inv, Total;
    match e
    case DirectHit(_) =>
    case Expire(_) =>
    case NewCall(k) => TotalAppend(s.calls, Call(k, Enqueueing, Channel([], 0, 0), NotSpawned, ByClient));
    case Take => TakeUsesUpMeasure(s);
    case DispatcherLocks =>
    case DispatcherLooks =>
    case DispatcherReplies => DispatcherUsesUpMeasure(s, e);
    case DispatcherRegisters => DispatcherUsesUpMeasure(s, e);
    case Spawn => DispatcherUsesUpMeasure(s, e);
    case Enqueue(_) => ClientUsesUpMeasure(s, e);
    case Cancel(_) => ClientUsesUpMeasure(s, e);
    case Receive(_) => ClientUsesUpMeasure(s, e);
    case Deliver(c) =>
      var j := NextWaiter(s, c);
      DeliverUsesUpMeasure(s, c, j);
    case GoroutineLocks(_) => GoroutineUsesUpMeasure(s, e);
    case GoroutineLooks(_) => GoroutineUsesUpMeasure(s, e);
    case GoroutineReplies(_) => GoroutineUsesUpMeasure(s, e);
    case GoroutineRegisters(_) => GoroutineUsesUpMeasure(s, e);
    case _ => FetchUsesUpMeasure(s, e);
  }

  function InternalSteps(es: seq<Event>): nat {
    if es == [] then 0 else InternalSteps(es[..|es| - 1]) + if Internal(es[|es| - 1]) then 1 else 0
  }

  function Arrivals(es: seq<Event>): nat {
    if es == [] then 0 else Arrivals(es[..|es| - 1]) + if es[|es| - 1].NewCall? then 1 else 0
  }

  /** A run takes at most sixteen internal actions per call, whatever is cached, expires or fails. */
  lemma {:induction false} WorkPerCallIsBounded(es: seq<Event>)
    requires CanRun(es)
    ensures InternalSteps(es) + Measure(Run(es)) <= CALL_WEIGHT * Arrivals(es)
    decreases |es|
  {
    if es != [] {
      WorkPerCallIsBounded(es[..|es| - 1]);
      RunKeeps(es[..|es| - 1]);
      StepUsesUpMeasure(Run(es[..|es| - 1]), es[|es| - 1]);
    }
  }

  /** Every call is answered and no key has waiters. */
  predicate Quiescent(s: State) {
    && (forall c :: 0 <= c < |s.calls| ==>
          s.calls[c].owner.Answered? && (s.calls[c].client.Returned? || s.calls[c].client.Cancelled?))
    && s.waiters == map[] && s.queue == [] && s.dispatcher.Receiving? && s.lock.None?
  }

  /** The thread inside the critical section can go on. */
  lemma LockHolderCanMove(s: State) returns (e: Event)
    requires Inv(s) && s.lock.Some?
    ensures Internal(e) && Enabled(s, e)
  {
    match s.lock.value
    case TheDispatcher =>
      HolderFacts(s);
      DispatcherFacts(s);
      hide Inv;
      e := if s.dispatcher.TookLock? then DispatcherLooks
           else if s.dispatcher.TaskHit? then DispatcherReplies
           else DispatcherRegisters;
    case TheGoroutine(c) =>
      HolderFacts(s);
      CallFacts(s, c);
      e := LockedGoroutineCanMove(s, c);
  }

  lemma HolderFacts(s: State)
    requires Inv(s) && s.lock.Some?
    ensures s.lock.value.TheDispatcher? ==> DispatcherHolds(s.dispatcher)
    ensures s.lock.value.TheGoroutine? ==> s.lock.value.call < |s.calls| && HoldsLock(s.calls[s.lock.value.call].goroutine)
  {
  }

  lemma DeliveryCanMove(s: State, c: nat) returns (e: Event)
    requires Inv(s) && c < |s.calls| && s.calls[c].goroutine.Delivering?
    ensures Internal(e) && Enabled(s, e)
  {
    CanDeliver(s, c);
    hide Inv;
    e := if s.calls[c].goroutine.done < |s.waiters[s.calls[c].key]| then Deliver(c) else FinishDelivery(c);
  }

  lemma LockedGoroutineCanMove(s: State, c: nat) returns (e: Event)
    requires Inv(s) && c < |s.calls| && HoldsLock(s.calls[c].goroutine)
    ensures Internal(e) && Enabled(s, e)
  {
    if s.calls[c].goroutine.Delivering? {
      e := DeliveryCanMove(s, c);
    } else {
      CallFacts(s, c);
      hide Inv;
      e := if s.calls[c].goroutine.Locked? then GoroutineLooks(c)
           else if s.calls[c].goroutine.Hit? then GoroutineReplies(c)
           else GoroutineRegisters(c);
    }
  }

  predicate Resting(g: Goroutine) {
    g.NotSpawned? || g.Finished?
  }

  /** Outside critical sections a goroutine can go on; a pending fetch returns, say with `r`. */
  lemma GoroutineCanMove(s: State, c: nat, r: Reply) returns (e: Event)
    requires Inv(s) && s.lock.None? && c < |s.calls| && !Resting(s.calls[c].goroutine)
    ensures Internal(e) && Enabled(s, e)
  {
    CallFacts(s, c);
    hide Inv;
    e := if s.calls[c].goroutine.WantsLock? then GoroutineLocks(c)
         else if s.calls[c].goroutine.Fetching? then FetchReturns(c, r)
         else if s.calls[c].goroutine.Fetched? then SetCache(c)
         else LocksToDeliver(c);
  }

  lemma NoFlightsNoWaiters(s: State)
    requires Inv(s) && forall c :: 0 <= c < |s.calls| ==> Resting(s.calls[c].goroutine)
    ensures s.waiters == map[]
  {
    assert forall k :: k in s.waiters ==> k in s.flights;
  }

  lemma IdleCallIsAnswered(s: State, c: nat)
    requires Inv(s) && c < |s.calls| && Resting(s.calls[c].goroutine) && !s.calls[c].client.Enqueueing?
    requires s.waiters == map[] && s.queue == [] && s.dispatcher.Receiving?
    ensures s.calls[c].owner.Answered?
  {
    CallFacts(s, c);
  }

  /**
   Nothing gets stuck: unless every call has been answered and nothing is left behind, some internal
   action can happen, taking it that a pending fetch can return.
   */
  lemma SomeActionUnlessQuiescent(es: seq<Event>, r: Reply) returns (e: Event)
    requires CanRun(es)
    ensures Quiescent(Run(es)) || (Internal(e) && Enabled(Run(es), e))
  {
    RunKeeps(es);
    e := NextAction(Run(es), r);
  }

  lemma NextAction(s: State, r: Reply) returns (e: Event)
    requires Inv(s)
    ensures Quiescent(s) || (Internal(e) && Enabled(s, e))
  {
    if s.lock.Some? {
      e := LockHolderCanMove(s);
    } else if !s.dispatcher.Receiving? {
      DispatcherFacts(s);
      e := if s.dispatcher.Took? then DispatcherLocks else Spawn;
    } else if s.queue != [] {
      e := Take;
    } else if c :| 0 <= c < |s.calls| && !Resting(s.calls[c].goroutine) {
      e := GoroutineCanMove(s, c, r);
    } else if c :| 0 <= c < |s.calls| && s.calls[c].client.Enqueueing? {
      e := Enqueue(c);
    } else {
      e := ReceiveUnlessQuiescent(s);
    }
  }

  lemma ReceiveUnlessQuiescent(s: State) returns (e: Event)
    requires Inv(s) && s.lock.None? && s.dispatcher.Receiving? && s.queue == []
    requires forall c :: 0 <= c < |s.calls| ==> Resting(s.calls[c].goroutine) && !s.calls[c].client.Enqueueing?
    ensures Quiescent(s) || (Internal(e) && Enabled(s, e))
  {
    NoFlightsNoWaiters(s);
    forall c | 0 <= c < |s.calls|
      ensures s.calls[c].owner.Answered? && CallOk(s.calls[c], s.replies)
    {
      IdleCallIsAnswered(s, c);
      CallFacts(s, c);
    }
    hide Inv;
    e := Take;
    if c :| 0 <= c < |s.calls| && s.calls[c].client.Waiting? {
      e := Receive(c);
    }
  }

  /**
   From every reachable state some internal actions, no more than the measure, lead to a state in which
   every call is answered and nothing is left behind; pending fetches return, say with `r`.
   */
  lemma {:induction false} CanReachQuiescence(es: seq<Event>, r: Reply) returns (more: seq<Event>)
    requires CanRun(es)
    ensures forall i :: 0 <= i < |more| ==> Internal(more[i])
    ensures |more| <= Measure(Run(es))
    ensures CanRun(es + more) && Quiescent(Run(es + more))
    decreases Measure(Run(es))
  {
    hide Quiescent, Measure, Enabled, Apply, Inv;
    var e := SomeActionUnlessQuiescent(es, r);
    if Quiescent(Run(es)) {
      more := [];
      assert es + more == es;
    } else {
      RunKeeps(es);
      StepUsesUpMeasure(Run(es), e);
      assert (es + [e])[..|es|] == es;
      var rest := CanReachQuiescence(es + [e], r);
      more := [e] + rest;
      assert es + more == es + [e] + rest;
    }
  }
}
