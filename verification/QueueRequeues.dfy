/** A popped item is requeued exactly once, or gone for one of the listed reasons. */
module QueueRequeues {
  import opened QueueMachine
  import opened QueuePlacement
  import opened QueueSafety
  import opened QueueConservation

  /** The thread works on an item that was popped: it looks at it, processes it or puts it back. */
  predicate Working(st: Stage) {
    st.Popped? || st.Calling? || st.origin.Requeued?
  }

  predicate Rejected(f: Fate) {
    f.RejectedStale? || f.RejectedFull? || f.RejectedByRedis?
  }

  /** Why a worker lets an item go. */
  predicate DroppedByWorker(f: Fate) {
    f in {Stale, RetriesExhausted, NoNextBlock, GivenUp, FailedOddly, RequeueFailed}
  }

  // One action of a thread

  /** The thread still has the item, at the same kind of work; nothing is queued or taken. */
  ghost predicate StillHas(s: State, s': State, t: Tid, k: Key, working: bool) {
    && t in s'.threads && KeyOf(s'.threads[t].item) == k && Working(s'.threads[t]) == working
    && k in s'.tracks && s'.tracks[k].place == Held(t)
    && s'.queue == s.queue
  }

  /** The thread is done: its item, which was not queued, is the one new member. */
  ghost predicate PutsIn(s: State, s': State, t: Tid)
    requires t in s.threads
  {
    var a := s.threads[t].item;
    && t !in s'.threads && MemberOf(a) !in s.queue
    && s'.queue == s.queue[MemberOf(a) := a.minTargetBlock]
    && KeyOf(a) in s'.tracks && s'.tracks[KeyOf(a)].place == Queued(MemberOf(a))
  }

  ghost predicate LetsGo(s: State, s': State, t: Tid, k: Key) {
    && t !in s'.threads && s'.queue == s.queue
    && k in s'.tracks && s'.tracks[k].place.Gone?
  }

  function FateOf(s: State, k: Key): Fate
    requires k in s.tracks && s.tracks[k].place.Gone?
  {
    s.tracks[k].place.fate
  }

  lemma RetryOutcome(s: State, t: Tid, retry: Retry, life: Life)
    requires t in s.threads
    requires retry.Again? ==> KeyOf(retry.item) == KeyOf(s.threads[t].item)
    ensures var s', k := AfterRetry(s, t, s.threads[t].item, retry, life), KeyOf(s.threads[t].item);
            if retry.Again? then StillHas(s, s', t, k, true)
            else LetsGo(s, s', t, k) && FateOf(s', k) == retry.fate
  {
  }

  lemma RefusalOutcome(s: State, t: Tid, tryAgain: bool, fate: Fate)
    requires t in s.threads && !s.threads[t].Popped? && !s.threads[t].Calling?
    ensures var st := s.threads[t];
            var s', k := AfterRefusal(s, t, st.item, st.origin, tryAgain, fate), KeyOf(st.item);
            if Working(st) && tryAgain then StillHas(s, s', t, k, true)
            else LetsGo(s, s', t, k) && FateOf(s', k) == if Working(st) then RequeueFailed else fate
  {
  }

  /** Looking at a popped item, and the return of the process function. */
  lemma DecisionOutcome(c: Config, s: State, e: Event)
    requires Enabled(c, s, e) && (e.Inspect? || e.Return?) && InFlight(c, s, e.t)
    ensures var s', k := Apply(c, s, e), KeyOf(s.threads[e.t].item);
            || StillHas(s, s', e.t, k, true)
            || (LetsGo(s, s', e.t, k) && DroppedByWorker(FateOf(s', k)) && FateOf(s', k) != RequeueFailed)
  {
    var a := s.threads[e.t].item;
    match e
    case Inspect(t) =>
      InspectionOutcome(c, a, s.block + 1);
      var r := InspectItem(c, a, s.block + 1);
      if r.Requeue? {
        RetryOutcome(s, t, r.retry, LifeOf(s, KeyOf(a)));
      }
    case Return(t, v) =>
      VerdictOutcome(c, a, v);
      RetryOutcome(s, t, AfterVerdict(c, a, v), RecordCall(LifeOf(s, KeyOf(a)), a, s.threads[t].next, v));
  }

  /** Steps of pushToQueue before it adds. */
  lemma PushOutcome(c: Config, s: State, e: Event)
    requires Enabled(c, s, e)
    requires e.LoadBlock? || e.CountProcessable? || e.CountUnprocessable? || e.Decide? || e.RedisError?
    ensures var s', k, working := Apply(c, s, e), KeyOf(s.threads[e.t].item), Working(s.threads[e.t]);
            || StillHas(s, s', e.t, k, working)
            || (&& LetsGo(s, s', e.t, k) && (e.Decide? || e.RedisError?)
                && (if working then FateOf(s', k) == RequeueFailed && !e.tryAgain else Rejected(FateOf(s', k))))
  {
    hide Admissible, CountUpTo, CountFrom;
    match e
    case Decide(t, tryAgain) => RefusalOutcome(s, t, tryAgain, RejectedFull);
    case RedisError(t, tryAgain) => RefusalOutcome(s, t, tryAgain, RejectedByRedis);
    case _ =>
  }

  /**
   Whatever a thread does with its item in any reachable state: it still has it, or it puts it in the
   queue, once and as a new member, or it lets it go. A worker lets go only for one of six reasons, or
   when the node crashes; a push that never got its item into the queue only when rejected, or likewise.
   */
  lemma RequeuedOrDropped(c: Config, es: seq<Event>, e: Event)
    requires CanRunWell(c, es) && Enabled(c, Run(c, INITIAL, es), e)
    requires !e.AdvanceBlock? && e.t in Run(c, INITIAL, es).threads
    ensures var s, s' := Run(c, INITIAL, es), Apply(c, Run(c, INITIAL, es), e);
            var k, working := KeyOf(s.threads[e.t].item), Working(s.threads[e.t]);
            || StillHas(s, s', e.t, k, working)
            || (e.Add? && PutsIn(s, s', e.t))
            || (&& LetsGo(s, s', e.t, k)
                && (if e.Crash? then FateOf(s', k) == Crashed
                    else if working then DroppedByWorker(FateOf(s', k))
                    else Rejected(FateOf(s', k))))
  {
    var s := Run(c, INITIAL, es);
    ReachableInFlight(c, es, e.t);
    match e
    case Inspect(_) => DecisionOutcome(c, s, e);
    case Return(_, _) => DecisionOutcome(c, s, e);
    case Add(t) => AddNeverCollides(c, es, t);
    case Crash(_) =>
    case _ => PushOutcome(c, s, e);
  }

  // Whole runs

  /** How often item `k` was popped. */
  function Pops(es: seq<Event>, k: Key): nat {
    if es == [] then 0
    else Pops(es[..|es| - 1], k) + if es[|es| - 1].Pop? && MemberKey(es[|es| - 1].member) == k then 1 else 0
  }

  predicate AddsItem(s: State, e: Event, k: Key) {
    e.Add? && e.t in s.threads && KeyOf(s.threads[e.t].item) == k
  }

  /** How often item `k` was added to the queue. */
  ghost function Adds(c: Config, es: seq<Event>, k: Key): nat
    requires CanRun(c, INITIAL, es)
    decreases |es|
  {
    if es == [] then 0
    else
      Adds(c, es[..|es| - 1], k) +
      if AddsItem(Run(c, INITIAL, es[..|es| - 1]), es[|es| - 1], k) then 1 else 0
  }

  /** Adds and pops of one item alternate, and where it is says which comes next. */
  ghost predicate Balanced(s: State, k: Key, adds: nat, pops: nat) {
    if k !in s.tracks then adds == pops == 0
    else
      match s.tracks[k].place
      case Queued(_) => adds == pops + 1
      case Held(t) => adds == pops && t in s.threads && (Working(s.threads[t]) <==> pops > 0)
      case Gone(f) => adds == pops && (Rejected(f) ==> pops == 0) && (DroppedByWorker(f) ==> pops > 0)
  }

  /** The step's share in the two counts. */
  ghost function NextAdds(s: State, e: Event, k: Key, adds: nat): nat {
    adds + if AddsItem(s, e, k) then 1 else 0
  }

  function NextPops(e: Event, k: Key, pops: nat): nat {
    pops + if e.Pop? && MemberKey(e.member) == k then 1 else 0
  }

  lemma OthersBalanced(c: Config, es: seq<Event>, e: Event, k: Key, adds: nat, pops: nat)
    requires CanRunWell(c, es) && Enabled(c, Run(c, INITIAL, es), e)
    requires Balanced(Run(c, INITIAL, es), k, adds, pops) && !Touches(Run(c, INITIAL, es), e, k)
    ensures var s := Run(c, INITIAL, es);
            Balanced(Apply(c, s, e), k, NextAdds(s, e, k, adds), NextPops(e, k, pops))
  {
    var s := Run(c, INITIAL, es);
    var s' := Apply(c, s, e);
    if k in s'.tracks {
      UntouchedWasThere(c, es, e, k);
      OthersUntouched(c, s, e, k);
      if s.tracks[k].place.Held? {
        HeldKey(c, es, k);
        OtherThreads(c, s, e, s.tracks[k].place.thread);
      }
    } else if k in s.tracks {
      OthersUntouched(c, s, e, k);
    }
  }

  lemma HeldKey(c: Config, es: seq<Event>, k: Key)
    requires CanRunWell(c, es) && k in Run(c, INITIAL, es).tracks && Run(c, INITIAL, es).tracks[k].place.Held?
    ensures var s := Run(c, INITIAL, es);
            s.tracks[k].place.thread in s.threads && KeyOf(s.threads[s.tracks[k].place.thread].item) == k
  {
    RunKeeps(c, es);
    assert RecordPlaced(Run(c, INITIAL, es), EndedIn(c), k, Run(c, INITIAL, es).tracks[k]);
  }

  lemma OtherThreads(c: Config, s: State, e: Event, t: Tid)
    requires Enabled(c, s, e) && t in s.threads && (e.AdvanceBlock? || e.t != t)
    ensures t in Apply(c, s, e).threads && Apply(c, s, e).threads[t] == s.threads[t]
  {
  }

  lemma ThreadBalanced(c: Config, es: seq<Event>, e: Event, adds: nat, pops: nat)
    requires CanRunWell(c, es) && Enabled(c, Run(c, INITIAL, es), e)
    requires !e.AdvanceBlock? && e.t in Run(c, INITIAL, es).threads
    requires Balanced(Run(c, INITIAL, es), KeyOf(Run(c, INITIAL, es).threads[e.t].item), adds, pops)
    ensures var s := Run(c, INITIAL, es);
            var k := KeyOf(s.threads[e.t].item);
            Balanced(Apply(c, s, e), k, NextAdds(s, e, k, adds), NextPops(e, k, pops))
  {
    var s := Run(c, INITIAL, es);
    RequeuedOrDropped(c, es, e);
    HeldBy(c, es, e.t);
    AddPuts(c, s, e);
    hide CanRun, Run, CanRunWell, Apply;
  }

  /** Only an add ends with the item in the queue. */
  lemma AddPuts(c: Config, s: State, e: Event)
    requires Enabled(c, s, e) && !e.AdvanceBlock? && e.t in s.threads
    ensures e.Add? ==> e.t !in Apply(c, s, e).threads && Apply(c, s, e).tracks[KeyOf(s.threads[e.t].item)].place.Queued?
    ensures !e.Pop?
  {
  }

  lemma HeldBy(c: Config, es: seq<Event>, t: Tid)
    requires CanRunWell(c, es) && t in Run(c, INITIAL, es).threads
    ensures var s := Run(c, INITIAL, es);
            var k := KeyOf(s.threads[t].item);
            k in s.tracks && s.tracks[k].place == Held(t)
  {
    RunKeeps(c, es);
    assert ThreadPlaced(Run(c, INITIAL, es), LiveIn(c), t);
  }

  lemma PopBalanced(c: Config, es: seq<Event>, e: Event, adds: nat, pops: nat)
    requires CanRunWell(c, es) && Enabled(c, Run(c, INITIAL, es), e) && e.Pop?
    requires Balanced(Run(c, INITIAL, es), MemberKey(e.member), adds, pops)
    ensures var s, k := Run(c, INITIAL, es), MemberKey(e.member);
            Balanced(Apply(c, s, e), k, NextAdds(s, e, k, adds), NextPops(e, k, pops))
  {
    RunKeeps(c, es);
    var s := Run(c, INITIAL, es);
    assert s.tracks[MemberKey(e.member)].place == Queued(e.member);
    assert KeyOf(ItemOf(e.member, s.queue[e.member])) == MemberKey(e.member);
  }

  lemma SubmitBalanced(c: Config, s: State, e: Event, adds: nat, pops: nat)
    requires Enabled(c, s, e) && e.Submit? && WellSubmitted(s, e)
    requires Balanced(s, Key(e.highPriority, e.now, e.max, e.data), adds, pops)
    ensures var k := Key(e.highPriority, e.now, e.max, e.data);
            Balanced(Apply(c, s, e), k, NextAdds(s, e, k, adds), NextPops(e, k, pops))
  {
  }

  /**
   In every run, for every item: between two pops it was added exactly once. A queued item was added
   once more than popped; one in flight or gone as often as popped. Only items that were never popped are
   rejected, and only items that were popped are dropped by a worker.
   */
  lemma {:induction false} RequeuedExactlyOnce(c: Config, es: seq<Event>, k: Key)
    requires CanRunWell(c, es)
    ensures Balanced(Run(c, INITIAL, es), k, Adds(c, es, k), Pops(es, k))
    decreases |es|
  {
    if es != [] {
      var before, e := es[..|es| - 1], es[|es| - 1];
      var s := Run(c, INITIAL, before);
      RequeuedExactlyOnce(c, before, k);
      var adds, pops := Adds(c, before, k), Pops(before, k);
      if !Touches(s, e, k) {
        OthersBalanced(c, before, e, k, adds, pops);
      } else if e.Submit? {
        SubmitBalanced(c, s, e, adds, pops);
      } else if e.Pop? {
        PopBalanced(c, before, e, adds, pops);
      } else {
        ThreadBalanced(c, before, e, adds, pops);
      }
    }
  }
}
