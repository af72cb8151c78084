/**
 The spike manager object: the dispatcher's loop body and the body of the goroutine it spawns.

 Each method runs its code from start to finish with nobody interfering. The object keeps the machine
 state that its actions lead to, so what the methods do is a run of the machine.
 */
module SpikeManagers {
  import opened SpikeMachine
  import opened SpikeSafety

  /** The actions `es` can happen from `s` and lead to `s'`. */
  ghost predicate Leads(s: State, es: seq<Event>, s': State)
    decreases |es|
  {
    if es == [] then s' == s
    else Enabled(s, es[0]) && Leads(Apply(s, es[0]), es[1..], s')
  }

  lemma LeadsOne(s: State, e: Event)
    requires Enabled(s, e)
    ensures Leads(s, [e], Apply(s, e))
  {
    assert [e][1..] == [];
  }

  lemma {:induction false} LeadsTrans(s: State, es: seq<Event>, s1: State, es': seq<Event>, s2: State)
    requires Leads(s, es, s1) && Leads(s1, es', s2)
    ensures Leads(s, es + es', s2)
    decreases |es|
  {
    hide Apply, Enabled;
    if es == [] {
      assert es + es' == es';
    } else {
      LeadsTrans(Apply(s, es[0]), es[1..], s1, es', s2);
      assert (es + es')[1..] == es[1..] + es';
    }
  }

  lemma {:induction false} RunExtends(trace: seq<Event>, es: seq<Event>, s': State)
    requires CanRun(trace) && Leads(Run(trace), es, s')
    ensures CanRun(trace + es) && Run(trace + es) == s'
    decreases |es|
  {
    hide Apply, Enabled;
    if es == [] {
      assert trace + es == trace;
    } else {
      var trace' := trace + [es[0]];
      assert trace'[..|trace'| - 1] == trace;
      RunExtends(trace', es[1..], s');
      assert trace + es == trace' + es[1..];
    }
  }

  /** A channel after its one send and its close, before anybody receives. */
  function AnsweredWith(r: Reply): Channel {
    Channel([r], 1, 1)
  }

  function KeysOf(calls: seq<Call>): (keys: seq<string>)
    ensures |keys| == |calls|
  {
    seq(|calls|, c requires 0 <= c < |calls| => calls[c].key)
  }

  function ChannelsOf(calls: seq<Call>): (channels: seq<Channel>)
    ensures |channels| == |calls|
  {
    seq(|calls|, c requires 0 <= c < |calls| => calls[c].channel)
  }

  /** The parts of the machine state that exist in the program. */
  datatype Fields = Fields(
    taskQueue: seq<nat>, keys: seq<string>, channels: seq<Channel>,
    currentlyExecuted: map<string, seq<nat>>, cache: map<string, Value>)

  function FieldsOf(s: State): Fields {
    Fields(s.queue, KeysOf(s.calls), ChannelsOf(s.calls), s.waiters, s.cache)
  }

  lemma SetCallFields(calls: seq<Call>, c: nat, call: Call)
    requires c < |calls| && call.key == calls[c].key
    ensures KeysOf(calls[c := call]) == KeysOf(calls)
    ensures ChannelsOf(calls[c := call]) == ChannelsOf(calls)[c := call.channel]
  {
  }

  predicate Idle(s: State) {
    s.dispatcher.Receiving? && s.lock.None?
  }

  // The dispatcher's turn, as actions

  /** Receiving a task, locking, and looking for it in the cache. */
  lemma LookupRun(s: State) returns (es: seq<Event>, s': State)
    requires Inv(s) && Idle(s) && s.queue != []
    ensures Leads(s, es, s') && Inv(s')
    ensures var c := s.queue[0];
            && c < |s.calls| == |s'.calls|
            && FieldsOf(s') == FieldsOf(s).(taskQueue := s.queue[1..])
            && s'.calls[c].channel == Channel([], 0, 0) && s'.calls[c].key == s.calls[c].key
            && s'.dispatcher == (if s.calls[c].key in s.cache then TaskHit(c, s.cache[s.calls[c].key]) else TaskMissed(c))
  {
    hide CallsOk, QueueOk, DispatcherOk, LockOk, FlightsOk, WaitersOk, CacheOk;
    FirstTask(s);
    var c := s.queue[0];
    CallFacts(s, c);
    var s1 := Apply(s, Take);
    var s2 := Apply(s1, DispatcherLocks);
    s' := Apply(s2, DispatcherLooks);
    StepKeeps(s, Take);
    StepKeeps(s1, DispatcherLocks);
    StepKeeps(s2, DispatcherLooks);
    LeadsOne(s, Take);
    LeadsOne(s1, DispatcherLocks);
    LeadsOne(s2, DispatcherLooks);
    LeadsTrans(s, [Take], s1, [DispatcherLocks], s2);
    LeadsTrans(s, [Take] + [DispatcherLocks], s2, [DispatcherLooks], s');
    es := [Take] + [DispatcherLocks] + [DispatcherLooks];
    SetCallFields(s.calls, c, s.calls[c].(owner := ByDispatcher));
    assert ChannelsOf(s.calls)[c := s.calls[c].channel] == ChannelsOf(s.calls);
  }

  lemma ReplyRun(s: State, c: nat)
    requires Inv(s) && s.dispatcher.TaskHit? && s.dispatcher.call == c
    ensures Enabled(s, DispatcherReplies)
    ensures var s' := Apply(s, DispatcherReplies);
            && Inv(s') && Idle(s') && c < |s.calls| && ChannelsOf(s.calls)[c] == Channel([], 0, 0)
            && FieldsOf(s') == FieldsOf(s).(channels := ChannelsOf(s.calls)[c := AnsweredWith(Found(s.dispatcher.value))])
  {
    hide CallsOk, QueueOk, DispatcherOk, LockOk, FlightsOk, WaitersOk, CacheOk;
    DispatcherFacts(s);
    StepKeeps(s, DispatcherReplies);
    var r := Found(s.dispatcher.value);
    SetCallFields(s.calls, c, Answer(s.calls[c], r));
    assert [] + [r] == [r];
  }

  lemma JoinRun(s: State, c: nat)
    requires Inv(s) && s.dispatcher == TaskMissed(c) && c < |s.calls| && s.calls[c].key in s.waiters
    ensures Enabled(s, DispatcherRegisters)
    ensures var s' := Apply(s, DispatcherRegisters);
            var k := s.calls[c].key;
            && Inv(s') && Idle(s')
            && FieldsOf(s') == FieldsOf(s).(currentlyExecuted := s.waiters[k := s.waiters[k] + [c]])
  {
    hide CallsOk, QueueOk, DispatcherOk, LockOk, FlightsOk, WaitersOk, CacheOk;
    StepKeeps(s, DispatcherRegisters);
    SetCallFields(s.calls, c, s.calls[c].(owner := InWaiters(|s.waiters[s.calls[c].key]|)));
    assert ChannelsOf(s.calls)[c := s.calls[c].channel] == ChannelsOf(s.calls);
  }

  lemma SpawnRun(s: State, c: nat) returns (es: seq<Event>, s': State)
    requires Inv(s) && s.dispatcher == TaskMissed(c) && c < |s.calls| && s.calls[c].key !in s.waiters
    ensures Leads(s, es, s') && Inv(s') && Idle(s')
    ensures FieldsOf(s') == FieldsOf(s) && |s'.calls| == |s.calls| && s'.calls[c].goroutine.WantsLock?
  {
    hide CallsOk, QueueOk, DispatcherOk, LockOk, FlightsOk, WaitersOk, CacheOk;
    var s1 := Apply(s, DispatcherRegisters);
    StepKeeps(s, DispatcherRegisters);
    s' := Apply(s1, Spawn);
    StepKeeps(s1, Spawn);
    LeadsOne(s, DispatcherRegisters);
    LeadsOne(s1, Spawn);
    es := [DispatcherRegisters] + [Spawn];
    LeadsTrans(s, [DispatcherRegisters], s1, [Spawn], s');
    SetCallFields(s.calls, c, s.calls[c].(goroutine := WantsLock, owner := ByGoroutine));
    assert ChannelsOf(s.calls)[c := s.calls[c].channel] == ChannelsOf(s.calls);
  }

  // The goroutine's body, as actions

  /** The goroutine's second look, inside the lock. */
  lemma EnterRun(s: State, c: nat) returns (es: seq<Event>, s': State)
    requires Inv(s) && Idle(s) && c < |s.calls| && s.calls[c].goroutine.WantsLock?
    ensures Leads(s, es, s') && Inv(s') && s'.dispatcher.Receiving?
    ensures FieldsOf(s') == FieldsOf(s) && |s'.calls| == |s.calls|
    ensures s'.calls[c].key == s.calls[c].key && s'.calls[c].channel == Channel([], 0, 0)
    ensures s'.calls[c].goroutine == if s.calls[c].key in s.cache then Hit(s.cache[s.calls[c].key]) else Missed
  {
    hide CallsOk, QueueOk, DispatcherOk, LockOk, FlightsOk, WaitersOk, CacheOk;
    CallFacts(s, c);
    var s1 := Apply(s, GoroutineLocks(c));
    StepKeeps(s, GoroutineLocks(c));
    s' := Apply(s1, GoroutineLooks(c));
    StepKeeps(s1, GoroutineLooks(c));
    LeadsOne(s, GoroutineLocks(c));
    LeadsOne(s1, GoroutineLooks(c));
    es := [GoroutineLocks(c)] + [GoroutineLooks(c)];
    LeadsTrans(s, [GoroutineLocks(c)], s1, [GoroutineLooks(c)], s');
    SetCallFields(s.calls, c, s1.calls[c]);
    SetCallFields(s1.calls, c, s'.calls[c]);
    assert ChannelsOf(s.calls)[c := s.calls[c].channel] == ChannelsOf(s.calls);
  }

  /** One action of a goroutine that changes its own call only. */
  lemma OwnStep(s: State, e: Event, c: nat)
    requires Inv(s) && Enabled(s, e) && c < |s.calls|
    requires |Apply(s, e).calls| == |s.calls| && Apply(s, e).calls == s.calls[c := Apply(s, e).calls[c]]
    requires Apply(s, e).calls[c].key == s.calls[c].key
    ensures Inv(Apply(s, e))
    ensures KeysOf(Apply(s, e).calls) == KeysOf(s.calls)
    ensures ChannelsOf(Apply(s, e).calls) == ChannelsOf(s.calls)[c := Apply(s, e).calls[c].channel]
  {
    StepKeeps(s, e);
    SetCallFields(s.calls, c, Apply(s, e).calls[c]);
  }

  lemma AnswerRun(s: State, c: nat)
    requires Inv(s) && c < |s.calls| && s.calls[c].goroutine.Hit?
    ensures Enabled(s, GoroutineReplies(c))
    ensures var s' := Apply(s, GoroutineReplies(c));
            && s'.lock.None? && s'.dispatcher == s.dispatcher && ChannelsOf(s.calls)[c] == Channel([], 0, 0)
            && FieldsOf(s') == FieldsOf(s).(channels := ChannelsOf(s.calls)[c := AnsweredWith(Found(s.calls[c].goroutine.value))])
  {
    hide CallsOk, QueueOk, DispatcherOk, LockOk, FlightsOk, WaitersOk, CacheOk;
    CallFacts(s, c);
    OwnStep(s, GoroutineReplies(c), c);
    assert [] + [Found(s.calls[c].goroutine.value)] == [Found(s.calls[c].goroutine.value)];
  }

  lemma JoinAsGoroutine(s: State, c: nat)
    requires Inv(s) && c < |s.calls| && s.calls[c].goroutine.Missed? && s.calls[c].key in s.waiters
    ensures Enabled(s, GoroutineRegisters(c))
    ensures var s' := Apply(s, GoroutineRegisters(c));
            var k := s.calls[c].key;
            && s'.lock.None? && s'.dispatcher == s.dispatcher
            && FieldsOf(s') == FieldsOf(s).(currentlyExecuted := s.waiters[k := s.waiters[k] + [c]])
  {
    hide CallsOk, QueueOk, DispatcherOk, LockOk, FlightsOk, WaitersOk, CacheOk;
    OwnStep(s, GoroutineRegisters(c), c);
    assert ChannelsOf(s.calls)[c := s.calls[c].channel] == ChannelsOf(s.calls);
  }

  lemma StartRun(s: State, c: nat)
    requires Inv(s) && c < |s.calls| && s.calls[c].goroutine.Missed? && s.calls[c].key !in s.waiters
    ensures Enabled(s, GoroutineRegisters(c))
    ensures var s' := Apply(s, GoroutineRegisters(c));
            && Inv(s') && s'.dispatcher == s.dispatcher && s'.lock.None? && |s'.calls| == |s.calls|
            && s'.calls[c].goroutine.Fetching? && s'.calls[c].key == s.calls[c].key
            && FieldsOf(s') == FieldsOf(s).(currentlyExecuted := s.waiters[s.calls[c].key := [c]])
  {
    hide CallsOk, QueueOk, DispatcherOk, LockOk, FlightsOk, WaitersOk, CacheOk;
    OwnStep(s, GoroutineRegisters(c), c);
    assert ChannelsOf(s.calls)[c := s.calls[c].channel] == ChannelsOf(s.calls);
  }

  lemma RelockRun(s: State, c: nat)
    requires Inv(s) && s.lock.None? && c < |s.calls| && s.calls[c].goroutine.WantsToDeliver?
    ensures Enabled(s, LocksToDeliver(c))
    ensures var s' := Apply(s, LocksToDeliver(c));
            && Inv(s') && s'.dispatcher == s.dispatcher && |s'.calls| == |s.calls|
            && s'.calls[c].goroutine == Delivering(s.calls[c].goroutine.reply, 0)
            && FieldsOf(s') == FieldsOf(s)
  {
    hide CallsOk, QueueOk, DispatcherOk, LockOk, FlightsOk, WaitersOk, CacheOk;
    OwnStep(s, LocksToDeliver(c), c);
    assert ChannelsOf(s.calls)[c := s.calls[c].channel] == ChannelsOf(s.calls);
  }

  /** Registering the key, fetching, storing what was found, and locking to deliver it. */
  lemma FetchRun(s: State, c: nat, r: Reply) returns (es: seq<Event>, s': State)
    requires Inv(s) && c < |s.calls| && s.calls[c].goroutine.Missed? && s.calls[c].key !in s.waiters
    ensures Leads(s, es, s') && Inv(s') && s'.dispatcher == s.dispatcher && |s'.calls| == |s.calls|
    ensures s'.calls[c].goroutine == Delivering(r, 0)
    ensures var k := s.calls[c].key;
            FieldsOf(s') == FieldsOf(s).(currentlyExecuted := s.waiters[k := [c]],
                                         cache := if r.Found? then s.cache[k := r.value] else s.cache)
  {
    hide Inv, Apply, Enabled, Leads;
    StartRun(s, c);
    var s1 := Apply(s, GoroutineRegisters(c));
    LeadsOne(s, GoroutineRegisters(c));
    var es2, s2 := ReturnRun(s1, c, r);
    LeadsTrans(s, [GoroutineRegisters(c)], s1, es2, s2);
    RelockRun(s2, c);
    s' := Apply(s2, LocksToDeliver(c));
    LeadsOne(s2, LocksToDeliver(c));
    es := [GoroutineRegisters(c)] + es2 + [LocksToDeliver(c)];
    LeadsTrans(s, [GoroutineRegisters(c)] + es2, s2, [LocksToDeliver(c)], s');
  }

  lemma ReturnRun(s: State, c: nat, r: Reply) returns (es: seq<Event>, s': State)
    requires Inv(s) && c < |s.calls| && s.calls[c].goroutine.Fetching?
    ensures Leads(s, es, s') && Inv(s') && s'.dispatcher == s.dispatcher && s'.lock == s.lock && |s'.calls| == |s.calls|
    ensures s'.calls[c].goroutine == WantsToDeliver(r)
    ensures FieldsOf(s') == FieldsOf(s).(cache := if r.Found? then s.cache[s.calls[c].key := r.value] else s.cache)
  {
    hide CallsOk, QueueOk, DispatcherOk, LockOk, FlightsOk, WaitersOk, CacheOk;
    var e := FetchReturns(c, r);
    var s1 := Apply(s, e);
    OwnStep(s, e, c);
    LeadsOne(s, e);
    es, s' := [e], s1;
    assert ChannelsOf(s.calls)[c := s.calls[c].channel] == ChannelsOf(s.calls);
    if r.Found? {
      s' := Apply(s1, SetCache(c));
      OwnStep(s1, SetCache(c), c);
      LeadsOne(s1, SetCache(c));
      LeadsTrans(s, [e], s1, [SetCache(c)], s');
      es := [e] + [SetCache(c)];
      assert ChannelsOf(s1.calls)[c := s1.calls[c].channel] == ChannelsOf(s1.calls);
    }
  }

  lemma DeliverOne(s: State, c: nat)
    requires Inv(s) && c < |s.calls| && s.calls[c].goroutine.Delivering? && s.calls[c].key in s.waiters
    requires s.calls[c].goroutine.done < |s.waiters[s.calls[c].key]|
    ensures Enabled(s, Deliver(c))
    ensures var s' := Apply(s, Deliver(c));
            var g := s.calls[c].goroutine;
            var j := s.waiters[s.calls[c].key][g.done];
            && s'.dispatcher == s.dispatcher && j < |s.calls| == |s'.calls|
            && ChannelsOf(s.calls)[j] == Channel([], 0, 0)
            && s'.calls[c].goroutine == Delivering(g.reply, g.done + 1)
            && FieldsOf(s') == FieldsOf(s).(channels := ChannelsOf(s.calls)[j := AnsweredWith(g.reply)])
  {
    hide CallsOk, QueueOk, DispatcherOk, LockOk, FlightsOk, WaitersOk, CacheOk;
    var j := NextWaiter(s, c);
    CallFacts(s, j);
    var g := s.calls[c].goroutine;
    var call := s.calls[c].(goroutine := Delivering(g.reply, g.done + 1));
    var calls := s.calls[c := call];
    SetCallFields(s.calls, c, call);
    SetCallFields(calls, j, Answer(calls[j], g.reply));
    assert ChannelsOf(s.calls)[c := s.calls[c].channel] == ChannelsOf(s.calls);
    assert [] + [g.reply] == [g.reply];
  }

  lemma FinishRun(s: State, c: nat)
    requires Inv(s) && c < |s.calls| && s.calls[c].goroutine.Delivering? && s.calls[c].key in s.waiters
    requires s.calls[c].goroutine.done == |s.waiters[s.calls[c].key]|
    ensures Enabled(s, FinishDelivery(c))
    ensures var s' := Apply(s, FinishDelivery(c));
            && s'.dispatcher == s.dispatcher && s'.lock.None?
            && FieldsOf(s') == FieldsOf(s).(currentlyExecuted := s.waiters - {s.calls[c].key})
  {
    hide CallsOk, QueueOk, DispatcherOk, LockOk, FlightsOk, WaitersOk, CacheOk;
    OwnStep(s, FinishDelivery(c), c);
    assert ChannelsOf(s.calls)[c := s.calls[c].channel] == ChannelsOf(s.calls);
  }

  class Manager {
    var taskQueue: seq<nat>
    var keys: seq<string>
    var channels: seq<Channel>
    var currentlyExecuted: map<string, seq<nat>>
    var cache: map<string, Value>
    ghost var st: State
    ghost var trace: seq<Event>

    ghost predicate OnTrace()
      reads this
    {
      CanRun(trace) && st == Run(trace) && Inv(st)
    }

    ghost predicate Valid()
      reads this
    {
      OnTrace() && FieldsOf(st) == Fields(taskQueue, keys, channels, currentlyExecuted, cache)
    }

    constructor ()
      ensures Valid() && st == INITIAL
    {
      taskQueue, keys, channels := [], [], [];
      currentlyExecuted, cache := map[], map[];
      st, trace := INITIAL, [];
      new;
      RunKeeps([]);
    }

    /** Record that the machine went through `es`. */
    ghost method Follow(es: seq<Event>, s': State)
      requires OnTrace() && Leads(st, es, s') && Inv(s')
      modifies `st, `trace
      ensures OnTrace() && st == s'
    {
      RunExtends(trace, es, s');
      st := s';
      trace := trace + es;
    }

    ghost method Act(e: Event)
      requires OnTrace() && Enabled(st, e)
      modifies `st, `trace
      ensures OnTrace() && st == Apply(old(st), e)
    {
      StepKeeps(st, e);
      LeadsOne(st, e);
      Follow([e], Apply(st, e));
    }

    /** Send on the channel and close it. */
    method Send(call: nat, r: Reply)
      requires call < |channels|
      modifies `channels
      ensures channels == old(channels)[call := Channel(old(channels)[call].buffer + [r], old(channels)[call].sends + 1, old(channels)[call].closes + 1)]
      ensures old(channels)[call] == Channel([], 0, 0) ==> channels == old(channels)[call := AnsweredWith(r)]
    {
      var ch := channels[call];
      assert [] + [r] == [r];
      channels := channels[call := Channel(ch.buffer + [r], ch.sends + 1, ch.closes + 1)];
    }

    /** One turn of the dispatcher's loop. */
    method DispatchOne() returns (spawned: bool, call: nat)
      requires Valid() && taskQueue != [] && Idle(st)
      modifies this
      ensures Valid() && Idle(st)
      ensures call == old(taskQueue[0]) && taskQueue == old(taskQueue[1..])
      ensures keys == old(keys) && cache == old(cache) && call < |keys|
      ensures spawned <==> keys[call] !in cache && keys[call] !in old(currentlyExecuted)
      ensures channels == if keys[call] in cache then old(channels)[call := AnsweredWith(Found(cache[keys[call]]))]
                          else old(channels)
      ensures currentlyExecuted == if keys[call] !in cache && keys[call] in old(currentlyExecuted)
                                   then old(currentlyExecuted)[keys[call] := old(currentlyExecuted)[keys[call]] + [call]]
                                   else old(currentlyExecuted)
      ensures spawned ==> st.calls[call].goroutine.WantsLock?
    {
      hide Inv, CanRun, Run, Leads, Apply, Enabled;
      ghost var es, s1 := LookupRun(st);
      call := taskQueue[0];
      taskQueue := taskQueue[1..];
      Follow(es, s1);
      var k := keys[call];
      spawned := false;
      if k in cache {
        ReplyRun(st, call);
        Send(call, Found(cache[k]));
        Act(DispatcherReplies);
      } else if k in currentlyExecuted {
        JoinRun(st, call);
        currentlyExecuted := currentlyExecuted[k := currentlyExecuted[k] + [call]];
        Act(DispatcherRegisters);
      } else {
        ghost var es2, s2 := SpawnRun(st, call);
        Follow(es2, s2);
        spawned := true;
      }
    }

    /** The goroutine spawned for `call`, whose fetch, if it makes one, returns `r`. */
    method RunTask(call: nat, r: Reply)
      requires Valid() && Idle(st) && call < |keys| && st.calls[call].goroutine.WantsLock?
      modifies this
      ensures Valid() && Idle(st)
      ensures keys == old(keys) && taskQueue == old(taskQueue)
      ensures var k := keys[call];
              if k in old(cache) then
                && channels == old(channels)[call := AnsweredWith(Found(old(cache)[k]))]
                && currentlyExecuted == old(currentlyExecuted) && cache == old(cache)
              else if k in old(currentlyExecuted) then
                && channels == old(channels) && cache == old(cache)
                && currentlyExecuted == old(currentlyExecuted)[k := old(currentlyExecuted)[k] + [call]]
              else
                && channels == old(channels)[call := AnsweredWith(r)]
                && currentlyExecuted == old(currentlyExecuted)
                && cache == if r.Found? then old(cache)[k := r.value] else old(cache)
    {
      hide Inv, CanRun, Run, Leads, Apply, Enabled;
      ghost var es, s1 := EnterRun(st, call);
      Follow(es, s1);
      var k := keys[call];
      if k in cache {
        AnswerRun(st, call);
        Send(call, Found(cache[k]));
        Act(GoroutineReplies(call));
        return;
      }
      if k in currentlyExecuted {
        currentlyExecuted := currentlyExecuted[k := currentlyExecuted[k] + [call]];
        JoinAsGoroutine(st, call);
        Act(GoroutineRegisters(call));
        return;
      }
      currentlyExecuted := currentlyExecuted[k := [call]];
      ghost var es2, s2 := FetchRun(st, call, r);
      if r.Found? {
        cache := cache[k := r.value];
      }
      Follow(es2, s2);
      DeliverAll(call, k, r);
    }

    /** Answer everybody who waits for the key and forget it. */
    method DeliverAll(call: nat, k: string, r: Reply)
      requires Valid() && call < |keys| && keys[call] == k && k in currentlyExecuted
      requires st.dispatcher.Receiving? && st.calls[call].goroutine == Delivering(r, 0)
      modifies this
      ensures Valid() && Idle(st)
      ensures keys == old(keys) && taskQueue == old(taskQueue) && cache == old(cache)
      ensures currentlyExecuted == old(currentlyExecuted) - {k}
      ensures |channels| == |old(channels)|
      ensures forall c :: 0 <= c < |channels| ==>
                channels[c] == if c in old(currentlyExecuted)[k] then AnsweredWith(r) else old(channels)[c]
    {
      hide Inv, CanRun, Run, Leads, Apply, Enabled;
      var chans := currentlyExecuted[k];
      var i := 0;
      while i < |chans|
        invariant 0 <= i <= |chans|
        invariant Valid() && st.dispatcher.Receiving?
        invariant keys == old(keys) && taskQueue == old(taskQueue) && cache == old(cache)
        invariant currentlyExecuted == old(currentlyExecuted) && |channels| == |old(channels)|
        invariant st.calls[call].goroutine == Delivering(r, i)
        invariant forall c :: 0 <= c < |channels| ==>
                    channels[c] == if c in chans[..i] then AnsweredWith(r) else old(channels)[c]
      {
        DeliverOne(st, call);
        Send(chans[i], r);
        Act(Deliver(call));
        assert chans[..i + 1] == chans[..i] + [chans[i]];
        i := i + 1;
      }
      assert chans[..i] == chans;
      FinishRun(st, call);
      currentlyExecuted := currentlyExecuted - {k};
      Act(FinishDelivery(call));
    }
  }
}
