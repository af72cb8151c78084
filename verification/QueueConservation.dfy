/** No item is duplicated, merged with another or lost without a reason. */
module QueueConservation {
  import opened Bytes
  import opened PackedItem
  import opened QueueMachine
  import opened QueuePlacement
  import opened QueueSafety

  function QueuedKeys(s: State): set<Key> {
    set m | m in s.queue :: MemberKey(m)
  }

  function HeldKeys(s: State): set<Key> {
    set t | t in s.threads :: KeyOf(s.threads[t].item)
  }

  function GoneKeys(s: State): set<Key> {
    set k | k in s.tracks && s.tracks[k].place.Gone?
  }

  function Submissions(es: seq<Event>): nat {
    if es == [] then 0 else Submissions(es[..|es| - 1]) + if es[|es| - 1].Submit? then 1 else 0
  }

  lemma {:induction false} MemberKeysSize(ms: set<Member>)
    requires forall m, m' :: m in ms && m' in ms && MemberKey(m) == MemberKey(m') ==> m == m'
    ensures |set m | m in ms :: MemberKey(m)| == |ms|
    decreases |ms|
  {
    var keys := set m | m in ms :: MemberKey(m);
    if ms == {} {
      assert keys == {};
    } else {
      var a :| a in ms;
      var rest := set m | m in ms - {a} :: MemberKey(m);
      MemberKeysSize(ms - {a});
      assert keys == rest + {MemberKey(a)};
    }
  }

  lemma {:induction false} ThreadKeysSize(threads: map<Tid, Stage>, ts: set<Tid>)
    requires ts <= threads.Keys
    requires forall t, t' :: t in ts && t' in ts && KeyOf(threads[t].item) == KeyOf(threads[t'].item) ==> t == t'
    ensures |set t | t in ts :: KeyOf(threads[t].item)| == |ts|
    decreases |ts|
  {
    var keys := set t | t in ts :: KeyOf(threads[t].item);
    if ts == {} {
      assert keys == {};
    } else {
      var a :| a in ts;
      var rest := set t | t in ts - {a} :: KeyOf(threads[t].item);
      ThreadKeysSize(threads, ts - {a});
      assert keys == rest + {KeyOf(threads[a].item)};
    }
  }

  lemma HeldRecords(s: State, live: LiveProperty, ended: EndProperty)
    requires Placed(s, live, ended)
    ensures forall t :: t in s.threads ==>
              KeyOf(s.threads[t].item) in s.tracks && s.tracks[KeyOf(s.threads[t].item)].place == Held(t)
  {
    forall t | t in s.threads
      ensures KeyOf(s.threads[t].item) in s.tracks && s.tracks[KeyOf(s.threads[t].item)].place == Held(t)
    {
      assert ThreadPlaced(s, live, t);
    }
  }

  lemma PlacesAreDisjoint(s: State, live: LiveProperty, ended: EndProperty)
    requires Placed(s, live, ended)
    ensures QueuedKeys(s) !! HeldKeys(s) !! GoneKeys(s)
    ensures QueuedKeys(s) + HeldKeys(s) + GoneKeys(s) == s.tracks.Keys
  {
    HeldRecords(s, live, ended);
    forall k | k in s.tracks
      ensures k in QueuedKeys(s) + HeldKeys(s) + GoneKeys(s)
    {
      assert RecordPlaced(s, ended, k, s.tracks[k]);
    }
  }

  lemma QueuedOnce(s: State, live: LiveProperty, ended: EndProperty)
    requires Placed(s, live, ended)
    ensures forall m, m' :: m in s.queue && m' in s.queue && MemberKey(m) == MemberKey(m') ==> m == m'
    ensures |QueuedKeys(s)| == |s.queue|
  {
    MemberKeysSize(s.queue.Keys);
    assert QueuedKeys(s) == set m | m in s.queue.Keys :: MemberKey(m);
    assert |s.queue| == |s.queue.Keys|;
  }

  lemma HeldOnce(s: State, live: LiveProperty, ended: EndProperty)
    requires Placed(s, live, ended)
    ensures forall t, t' :: t in s.threads && t' in s.threads && KeyOf(s.threads[t].item) == KeyOf(s.threads[t'].item) ==> t == t'
    ensures |HeldKeys(s)| == |s.threads|
  {
    HeldRecords(s, live, ended);
    ThreadKeysSize(s.threads, s.threads.Keys);
    assert HeldKeys(s) == set t | t in s.threads.Keys :: KeyOf(s.threads[t].item);
  }

  function NewKeys(e: Event): set<Key> {
    if e.Submit? then {Key(e.highPriority, e.now, e.max, e.data)} else {}
  }

  /** A submission adds a record; no other action adds or removes one. */
  lemma StepTracks(c: Config, s: State, e: Event, live: LiveProperty, ended: EndProperty)
    requires Placed(s, live, ended) && KeptByDecisions(c, live, ended) && Enabled(c, s, e)
    ensures Apply(c, s, e).tracks.Keys == s.tracks.Keys + NewKeys(e)
  {
    hide RetryItem;
    HeldRecords(s, live, ended);
    match e
    case AdvanceBlock(_) =>
    case Submit(_, _, _, _, _, _) =>
    case Pop(_, m) =>
      assert KeyOf(ItemOf(m, s.queue[m])) == MemberKey(m);
    case LoadBlock(_) => PushTracks(c, s, e);
    case CountProcessable(_) => PushTracks(c, s, e);
    case CountUnprocessable(_) => PushTracks(c, s, e);
    case Decide(_, _) => PushTracks(c, s, e);
    case RedisError(_, _) => PushTracks(c, s, e);
    case Add(_) => PushTracks(c, s, e);
    case Crash(_) => PushTracks(c, s, e);
    case Inspect(t) =>
      var a := s.threads[t].item;
      assert ThreadPlaced(s, live, t);
      RetryTracks(s, t, InspectItem(c, a, s.block + 1), LifeOf(s, KeyOf(a)), live, ended);
    case Return(t, v) =>
      var a := s.threads[t].item;
      assert ThreadPlaced(s, live, t);
      RetryTracks(s, t, Requeue(AfterVerdict(c, a, v)), RecordCall(LifeOf(s, KeyOf(a)), a, a.minTargetBlock, v), live, ended);
  }

  lemma PushTracks(c: Config, s: State, e: Event)
    requires Enabled(c, s, e) && !e.AdvanceBlock? && !e.Submit? && !e.Pop? && !e.Inspect? && !e.Return?
    requires KeyOf(s.threads[e.t].item) in s.tracks
    ensures Apply(c, s, e).tracks.Keys == s.tracks.Keys
  {
  }

  lemma RetryTracks(s: State, t: Tid, inspection: Inspection, life: Life, live: LiveProperty, ended: EndProperty)
    requires t in s.threads && KeyOf(s.threads[t].item) in s.tracks
    requires inspection.Requeue? ==> RetryKeeps(live, ended, s.threads[t].item, inspection.retry, life)
    ensures inspection.Requeue? ==>
              AfterRetry(s, t, s.threads[t].item, inspection.retry, life).tracks.Keys == s.tracks.Keys
  {
  }

  lemma {:induction false} RunTracks(c: Config, es: seq<Event>)
    requires CanRunWell(c, es)
    ensures |Run(c, INITIAL, es).tracks| == Submissions(es)
    decreases |es|
  {
    if es != [] {
      RunTracks(c, es[..|es| - 1]);
      var s, e := Run(c, INITIAL, es[..|es| - 1]), es[|es| - 1];
      RunKeeps(c, es[..|es| - 1]);
      DecisionsKeepItems(c);
      StepTracks(c, s, e, LiveIn(c), EndedIn(c));
      TracksSize(s, Apply(c, s, e), e);
    }
  }

  lemma TracksSize(s: State, s': State, e: Event)
    requires WellSubmitted(s, e) && s'.tracks.Keys == s.tracks.Keys + NewKeys(e)
    ensures |s'.tracks| == |s.tracks| + if e.Submit? then 1 else 0
  {
    assert |s'.tracks| == |s'.tracks.Keys| && |s.tracks| == |s.tracks.Keys|;
  }

  /**
   In every reachable state no two items, queued or in flight, have the same key (so none overwrites
   another in the sorted set), and each submission is accounted for once: queued, in flight, or gone.
   */
  lemma ItemsAreConserved(c: Config, es: seq<Event>)
    requires CanRunWell(c, es)
    ensures var s := Run(c, INITIAL, es);
            && (forall m, m' :: m in s.queue && m' in s.queue && MemberKey(m) == MemberKey(m') ==> m == m')
            && (forall t, t' :: t in s.threads && t' in s.threads && KeyOf(s.threads[t].item) == KeyOf(s.threads[t'].item) ==> t == t')
            && QueuedKeys(s) !! HeldKeys(s) !! GoneKeys(s)
            && QueuedKeys(s) + HeldKeys(s) + GoneKeys(s) == s.tracks.Keys
            && Submissions(es) == |s.queue| + |s.threads| + |GoneKeys(s)|
  {
    var s := Run(c, INITIAL, es);
    RunKeeps(c, es);
    RunTracks(c, es);
    PlacesAreDisjoint(s, LiveIn(c), EndedIn(c));
    QueuedOnce(s, LiveIn(c), EndedIn(c));
    HeldOnce(s, LiveIn(c), EndedIn(c));
    assert |s.tracks.Keys| == |QueuedKeys(s)| + |HeldKeys(s)| + |GoneKeys(s)|;
  }

  /** Adding never replaces a member: the queue grows by one. */
  lemma AddNeverCollides(c: Config, es: seq<Event>, t: Tid)
    requires CanRunWell(c, es) && Enabled(c, Run(c, INITIAL, es), Add(t))
    ensures var s := Run(c, INITIAL, es);
            MemberOf(s.threads[t].item) !in s.queue
  {
    RunKeeps(c, es);
    var s := Run(c, INITIAL, es);
    var a := s.threads[t].item;
    assert ThreadPlaced(s, LiveIn(c), t);
    assert MemberKey(MemberOf(a)) == KeyOf(a);
  }

  // What one step leaves alone

  /** The step may change the record of `k`, and no other. */
  predicate Touches(s: State, e: Event, k: Key) {
    if e.Submit? then k == Key(e.highPriority, e.now, e.max, e.data)
    else if e.Pop? then k == MemberKey(e.member)
    else !e.AdvanceBlock? && e.t in s.threads && k == KeyOf(s.threads[e.t].item)
  }

  lemma OthersUntouched(c: Config, s: State, e: Event, k: Key)
    requires Enabled(c, s, e) && k in s.tracks && !Touches(s, e, k)
    ensures k in Apply(c, s, e).tracks && Apply(c, s, e).tracks[k] == s.tracks[k]
  {
  }

  lemma UntouchedWasThere(c: Config, es: seq<Event>, e: Event, k: Key)
    requires CanRunWell(c, es) && Enabled(c, Run(c, INITIAL, es), e)
    requires k in Apply(c, Run(c, INITIAL, es), e).tracks
    ensures k in Run(c, INITIAL, es).tracks || (e.Submit? && Touches(Run(c, INITIAL, es), e, k))
  {
    RunKeeps(c, es);
    DecisionsKeepItems(c);
    StepTracks(c, Run(c, INITIAL, es), e, LiveIn(c), EndedIn(c));
  }

  lemma HeldIsTracked(c: Config, es: seq<Event>, t: Tid)
    requires CanRunWell(c, es) && t in Run(c, INITIAL, es).threads
    ensures KeyOf(Run(c, INITIAL, es).threads[t].item) in Run(c, INITIAL, es).tracks
  {
    ItemsStayInWindow(c, es);
  }

  // Why an item leaves the queue

  /** A popped item is processed, requeued, or dropped as stale or out of retries. */
  lemma InspectionOutcome(c: Config, a: PackArgs, next: nat)
    requires a.minTargetBlock <= a.maxTargetBlock && a.iteration <= c.maxRetries
    ensures var r := InspectItem(c, a, next);
            && (r == Requeue(Drop(Stale)) <==> next > a.maxTargetBlock)
            && (r == Requeue(Drop(RetriesExhausted)) <==>
                  next <= a.maxTargetBlock && next != a.minTargetBlock && a.iteration == c.maxRetries)
            && (r == Process <==> next == a.minTargetBlock)
            && (r.Requeue? && r.retry.Again? ==>
                  r.retry.item == a.(minTargetBlock := if next < a.minTargetBlock then a.minTargetBlock else next))
            && (r.Requeue? && r.retry.Drop? ==> r.retry.fate == Stale || r.retry.fate == RetriesExhausted)
  {
  }

  /** After a call an item is requeued or dropped for one of four reasons. */
  lemma VerdictOutcome(c: Config, a: PackArgs, v: Verdict)
    requires a.minTargetBlock <= a.maxTargetBlock && a.iteration <= c.maxRetries
    ensures var r := AfterVerdict(c, a, v);
            && (r == Drop(GivenUp) <==> v == Unrecoverable)
            && (r == Drop(FailedOddly) <==> v == Unrecognised)
            && (r == Drop(RetriesExhausted) <==> v != Unrecoverable && v != Unrecognised && a.iteration == c.maxRetries)
            && (r == Drop(NoNextBlock) <==>
                  Advances(v) && a.iteration < c.maxRetries && a.minTargetBlock == a.maxTargetBlock)
            && (r.Drop? ==> r.fate in {GivenUp, FailedOddly, RetriesExhausted, NoNextBlock})
            && (r.Again? ==> r.item == a.(iteration := a.iteration + (if v.Lagging? then 0 else 1),
                                          minTargetBlock := a.minTargetBlock + if Advances(v) then 1 else 0))
  {
  }

  /** An item in flight whose record says so. */
  ghost predicate InFlight(c: Config, s: State, t: Tid) {
    && t in s.threads
    && s.threads[t].item.minTargetBlock <= s.threads[t].item.maxTargetBlock
    && s.threads[t].item.iteration <= c.maxRetries
  }

  lemma ReachableInFlight(c: Config, es: seq<Event>, t: Tid)
    requires CanRunWell(c, es) && t in Run(c, INITIAL, es).threads
    ensures InFlight(c, Run(c, INITIAL, es), t)
  {
    RunKeeps(c, es);
    assert ThreadPlaced(Run(c, INITIAL, es), LiveIn(c), t);
  }

  lemma InspectionUsesUpWork(c: Config, a: PackArgs, next: nat)
    requires a.minTargetBlock <= a.maxTargetBlock && a.iteration <= c.maxRetries
    ensures var r := InspectItem(c, a, next);
            r.Requeue? && r.retry.Again? ==> UsesUpWork(c, a, r.retry.item, next < a.minTargetBlock)
  {
  }

  lemma VerdictUsesUpWork(c: Config, a: PackArgs, v: Verdict)
    requires a.minTargetBlock <= a.maxTargetBlock && a.iteration <= c.maxRetries
    ensures var r := AfterVerdict(c, a, v);
            r.Again? ==> UsesUpWork(c, a, r.item, v.Lagging?)
  {
  }

  /**
   A worker's requeue either puts back the very same item (popped too early, or lagging) or uses up
   remaining work, which never goes below zero.
   */
  lemma RequeuesUseUpWork(c: Config, es: seq<Event>, t: Tid, v: Verdict)
    requires CanRunWell(c, es) && t in Run(c, INITIAL, es).threads
    ensures var s := Run(c, INITIAL, es);
            var a := s.threads[t].item;
            && (var r := InspectItem(c, a, s.block + 1);
                r.Requeue? && r.retry.Again? ==> UsesUpWork(c, a, r.retry.item, s.block + 1 < a.minTargetBlock))
            && (var r := AfterVerdict(c, a, v);
                r.Again? ==> UsesUpWork(c, a, r.item, v.Lagging?))
  {
    ReachableInFlight(c, es, t);
    hide CanRun, Run, CanRunWell, InspectItem, AfterVerdict, UsesUpWork;
    var s := Run(c, INITIAL, es);
    InspectionUsesUpWork(c, s.threads[t].item, s.block + 1);
    VerdictUsesUpWork(c, s.threads[t].item, v);
  }

  predicate UsesUpWork(c: Config, before: PackArgs, after: PackArgs, same: bool) {
    && (same <==> after == before)
    && (!same ==> RemainingWork(c, after) < RemainingWork(c, before))
    && 0 <= RemainingWork(c, after)
    && after.iteration <= c.maxRetries
  }

  // Windows

  /** Clamping to the next block keeps a window non-empty exactly when it was. */
  lemma ClampKeepsWindowIff(data: seq<byte>, highPriority: bool, min: uint64, max: uint64, now: int64, block: nat)
    requires block < max
    ensures var a := Clamped(data, highPriority, min, max, now, block);
            && a == PackArgs(data, if min <= block then block + 1 else min, max, highPriority, now, 0)
            && (a.minTargetBlock <= a.maxTargetBlock <==> min <= max)
  {
  }
}
