/**
 Every item is in one place.

 The placement invariant says that a record, the sorted set and the threads agree on where each
 submitted item is, and that a property of single items holds of each of them. It is kept by every
 action, for any such property that the queue's decisions about a single item keep.
 */
module QueuePlacement {
  import opened PackedItem
  import opened QueueMachine

  /** A property of an item, queued or in flight, together with its life so far. */
  type LiveProperty = (PackArgs, Life) -> bool

  /** A property of a finished life. */
  type EndProperty = (Key, Life) -> bool

  ghost predicate QueuePlaced(s: State, live: LiveProperty) {
    forall m :: m in s.queue ==>
      && MemberKey(m) in s.tracks
      && s.tracks[MemberKey(m)].place == Queued(m)
      && live(ItemOf(m, s.queue[m]), s.tracks[MemberKey(m)].life)
  }

  ghost predicate ThreadPlaced(s: State, live: LiveProperty, t: Tid)
    requires t in s.threads
  {
    var k := KeyOf(s.threads[t].item);
    && k in s.tracks
    && s.tracks[k].place == Held(t)
    && live(s.threads[t].item, s.tracks[k].life)
    && (s.threads[t].Calling? ==> s.threads[t].next == s.threads[t].item.minTargetBlock)
  }

  ghost predicate ThreadsPlaced(s: State, live: LiveProperty) {
    forall t :: t in s.threads ==> ThreadPlaced(s, live, t)
  }

  ghost predicate RecordPlaced(s: State, ended: EndProperty, k: Key, tr: Track) {
    match tr.place
    case Queued(m) => m in s.queue && MemberKey(m) == k
    case Held(t) => t in s.threads && KeyOf(s.threads[t].item) == k
    case Gone(_) => ended(k, tr.life)
  }

  ghost predicate RecordsPlaced(s: State, ended: EndProperty) {
    forall k :: k in s.tracks ==> RecordPlaced(s, ended, k, s.tracks[k])
  }

  ghost predicate Placed(s: State, live: LiveProperty, ended: EndProperty) {
    QueuePlaced(s, live) && ThreadsPlaced(s, live) && RecordsPlaced(s, ended)
  }

  // Decisions about one item

  ghost predicate RetryKeeps(live: LiveProperty, ended: EndProperty, popped: PackArgs, retry: Retry, life: Life) {
    match retry
    case Drop(_) => ended(KeyOf(popped), life)
    case Again(a) => KeyOf(a) == KeyOf(popped) && live(a, CountMove(life, popped, a))
  }

  ghost predicate InspectionKeeps(live: LiveProperty, ended: EndProperty, a: PackArgs, next: nat,
                                  inspection: Inspection, life: Life)
  {
    match inspection
    case Process => next == a.minTargetBlock
    case Requeue(retry) => RetryKeeps(live, ended, a, retry, life)
  }

  /** What the queue decides about one item keeps the properties. */
  ghost predicate KeptByDecisions(c: Config, live: LiveProperty, ended: EndProperty) {
    && (forall a, life :: live(a, life) ==> ended(KeyOf(a), life))
    && (forall a, life, next: nat {:trigger live(a, life), InspectItem(c, a, next)} ::
          live(a, life) ==> InspectionKeeps(live, ended, a, next, InspectItem(c, a, next), life))
    && (forall a, life, v {:trigger live(a, life), AfterVerdict(c, a, v)} ::
          live(a, life) ==>
            RetryKeeps(live, ended, a, AfterVerdict(c, a, v), RecordCall(life, a, a.minTargetBlock, v)))
  }

  /** A submission brings in an item with the properties. */
  ghost predicate SubmissionHas(s: State, e: Event, live: LiveProperty, ended: EndProperty)
    requires e.Submit?
  {
    if e.max <= s.block
    then ended(Key(e.highPriority, e.now, e.max, e.data), Life(e.min, [], 0))
    else live(Clamped(e.data, e.highPriority, e.min, e.max, e.now, s.block), Life(e.min, [], 0))
  }

  // Preservation

  lemma HoldKeeps(s: State, t: Tid, stage: Stage, life: Life, live: LiveProperty, ended: EndProperty)
    requires Placed(s, live, ended)
    requires t in s.threads && KeyOf(stage.item) == KeyOf(s.threads[t].item)
    requires live(stage.item, life)
    requires stage.Calling? ==> stage.next == stage.item.minTargetBlock
    ensures Placed(Hold(s, t, stage, life), live, ended)
  {
  }

  lemma MoveKeeps(s: State, t: Tid, stage: Stage, live: LiveProperty, ended: EndProperty)
    requires Placed(s, live, ended)
    requires t in s.threads && stage.item == s.threads[t].item
    requires stage.Calling? ==> stage.next == stage.item.minTargetBlock
    ensures Placed(Move(s, t, stage), live, ended)
  {
    assert ThreadPlaced(s, live, t);
    HoldKeeps(s, t, stage, LifeOf(s, KeyOf(stage.item)), live, ended);
  }

  lemma ReleaseKeeps(s: State, t: Tid, life: Life, fate: Fate, live: LiveProperty, ended: EndProperty)
    requires Placed(s, live, ended)
    requires t in s.threads && ended(KeyOf(s.threads[t].item), life)
    ensures Placed(Release(s, t, KeyOf(s.threads[t].item), life, fate), live, ended)
  {
    assert ThreadPlaced(s, live, t);
  }

  /** All is well but for key `k`, which no queued item and no thread carries. */
  ghost predicate Detached(s: State, k: Key, live: LiveProperty, ended: EndProperty) {
    && QueuePlaced(s, live) && ThreadsPlaced(s, live)
    && (forall k' :: k' in s.tracks && k' != k ==> RecordPlaced(s, ended, k', s.tracks[k']))
    && (forall m :: m in s.queue ==> MemberKey(m) != k)
    && (forall t :: t in s.threads ==> KeyOf(s.threads[t].item) != k)
  }

  lemma TakeUpKeeps(s: State, t: Tid, stage: Stage, life: Life, live: LiveProperty, ended: EndProperty)
    requires Detached(s, KeyOf(stage.item), live, ended) && t !in s.threads
    requires live(stage.item, life) && !stage.Calling?
    ensures Placed(Hold(s, t, stage, life), live, ended)
  {
  }

  lemma SubmitKeeps(c: Config, s: State, e: Event, live: LiveProperty, ended: EndProperty)
    requires Placed(s, live, ended)
    requires e.Submit? && Enabled(c, s, e) && WellSubmitted(s, e) && SubmissionHas(s, e, live, ended)
    ensures Placed(Apply(c, s, e), live, ended)
  {
    var k := Key(e.highPriority, e.now, e.max, e.data);
    assert Detached(s, k, live, ended) by {
      forall t | t in s.threads
        ensures KeyOf(s.threads[t].item) != k
      {
        assert ThreadPlaced(s, live, t);
      }
    }
    if e.max > s.block {
      var a := Clamped(e.data, e.highPriority, e.min, e.max, e.now, s.block);
      TakeUpKeeps(s, e.t, Entering(a, Submitted), Life(e.min, [], 0), live, ended);
    } else {
      RejectKeeps(s, k, Life(e.min, [], 0), live, ended);
    }
  }

  lemma RejectKeeps(s: State, k: Key, life: Life, live: LiveProperty, ended: EndProperty)
    requires Detached(s, k, live, ended) && ended(k, life)
    ensures Placed(s.(tracks := s.tracks[k := Track(Gone(RejectedStale), life)]), live, ended)
  {
  }

  lemma PopKeeps(c: Config, s: State, e: Event, live: LiveProperty, ended: EndProperty)
    requires Placed(s, live, ended) && e.Pop? && Enabled(c, s, e)
    ensures Placed(Apply(c, s, e), live, ended)
  {
    var a := ItemOf(e.member, s.queue[e.member]);
    var k := MemberKey(e.member);
    assert KeyOf(a) == k && s.tracks[k].place == Queued(e.member);
    var s1 := s.(queue := s.queue - {e.member});
    assert Detached(s1, k, live, ended) by {
      forall t | t in s1.threads
        ensures ThreadPlaced(s1, live, t) && KeyOf(s1.threads[t].item) != k
      {
        assert ThreadPlaced(s, live, t);
      }
      forall k' | k' in s1.tracks && k' != k
        ensures RecordPlaced(s1, ended, k', s1.tracks[k'])
      {
        assert RecordPlaced(s, ended, k', s.tracks[k']);
      }
    }
    TakeUpKeeps(s1, e.t, Popped(a), s.tracks[k].life, live, ended);
  }

  lemma AddKeeps(c: Config, s: State, t: Tid, live: LiveProperty, ended: EndProperty)
    requires Placed(s, live, ended) && Enabled(c, s, Add(t))
    ensures Placed(Apply(c, s, Add(t)), live, ended)
  {
    var a := s.threads[t].item;
    var k, m := KeyOf(a), MemberOf(a);
    assert ThreadPlaced(s, live, t);
    var s' := Apply(c, s, Add(t));
    forall t' | t' in s'.threads
      ensures ThreadPlaced(s', live, t')
    {
      assert ThreadPlaced(s, live, t');
    }
    forall k' | k' in s'.tracks
      ensures RecordPlaced(s', ended, k', s'.tracks[k'])
    {
      assert k' != k ==> RecordPlaced(s, ended, k', s.tracks[k']);
    }
    assert ItemOf(m, a.minTargetBlock) == a && MemberKey(m) == k;
  }

  lemma AfterRetryKeeps(s: State, t: Tid, retry: Retry, life: Life, live: LiveProperty, ended: EndProperty)
    requires Placed(s, live, ended) && t in s.threads
    requires RetryKeeps(live, ended, s.threads[t].item, retry, life)
    ensures Placed(AfterRetry(s, t, s.threads[t].item, retry, life), live, ended)
  {
    match retry
    case Drop(fate) => ReleaseKeeps(s, t, life, fate, live, ended);
    case Again(a) => HoldKeeps(s, t, Entering(a, Requeued), CountMove(life, s.threads[t].item, a), live, ended);
  }

  lemma AfterInspectionKeeps(s: State, t: Tid, inspection: Inspection, live: LiveProperty, ended: EndProperty)
    requires Placed(s, live, ended) && t in s.threads
    requires InspectionKeeps(live, ended, s.threads[t].item, s.block + 1, inspection, LifeOf(s, KeyOf(s.threads[t].item)))
    ensures Placed(AfterInspection(s, t, s.threads[t].item, inspection), live, ended)
  {
    var a := s.threads[t].item;
    match inspection
    case Process => MoveKeeps(s, t, Calling(a, s.block + 1), live, ended);
    case Requeue(retry) => AfterRetryKeeps(s, t, retry, LifeOf(s, KeyOf(a)), live, ended);
  }

  lemma AfterRefusalKeeps(c: Config, s: State, t: Tid, origin: Origin, again: bool, fate: Fate,
                          live: LiveProperty, ended: EndProperty)
    requires Placed(s, live, ended) && t in s.threads && KeptByDecisions(c, live, ended)
    ensures Placed(AfterRefusal(s, t, s.threads[t].item, origin, again, fate), live, ended)
  {
    var a := s.threads[t].item;
    assert ThreadPlaced(s, live, t);
    var life := LifeOf(s, KeyOf(a));
    if origin.Submitted? {
      ReleaseKeeps(s, t, life, fate, live, ended);
    } else if again {
      HoldKeeps(s, t, Entering(a, Requeued), life, live, ended);
    } else {
      ReleaseKeeps(s, t, life, RequeueFailed, live, ended);
    }
  }

  lemma DecideKeeps(c: Config, s: State, t: Tid, again: bool, live: LiveProperty, ended: EndProperty)
    requires Placed(s, live, ended) && KeptByDecisions(c, live, ended) && Enabled(c, s, Decide(t, again))
    ensures Placed(Apply(c, s, Decide(t, again)), live, ended)
  {
    var st := s.threads[t];
    if Admissible(c, st.item, s.block + 1, st.processable, st.unprocessable) {
      MoveKeeps(s, t, Admitted(st.item, st.origin), live, ended);
    } else {
      AfterRefusalKeeps(c, s, t, st.origin, again, RejectedFull, live, ended);
    }
  }

  lemma InspectKeeps(c: Config, s: State, t: Tid, live: LiveProperty, ended: EndProperty)
    requires Placed(s, live, ended) && KeptByDecisions(c, live, ended) && Enabled(c, s, Inspect(t))
    ensures Placed(Apply(c, s, Inspect(t)), live, ended)
  {
    assert ThreadPlaced(s, live, t);
    AfterInspectionKeeps(s, t, InspectItem(c, s.threads[t].item, s.block + 1), live, ended);
  }

  lemma ReturnKeeps(c: Config, s: State, t: Tid, v: Verdict, live: LiveProperty, ended: EndProperty)
    requires Placed(s, live, ended) && KeptByDecisions(c, live, ended) && Enabled(c, s, Return(t, v))
    ensures Placed(Apply(c, s, Return(t, v)), live, ended)
  {
    var a := s.threads[t].item;
    assert ThreadPlaced(s, live, t);
    AfterRetryKeeps(s, t, AfterVerdict(c, a, v), RecordCall(LifeOf(s, KeyOf(a)), a, a.minTargetBlock, v), live, ended);
  }

  /** Every action keeps the placement invariant. */
  lemma StepKeeps(c: Config, s: State, e: Event, live: LiveProperty, ended: EndProperty)
    requires Placed(s, live, ended) && KeptByDecisions(c, live, ended)
    requires Enabled(c, s, e) && WellSubmitted(s, e)
    requires e.Submit? ==> SubmissionHas(s, e, live, ended)
    ensures Placed(Apply(c, s, e), live, ended)
  {
    match e
    case AdvanceBlock(b) => AdvanceKeeps(s, b, live, ended);
    case Submit(_, _, _, _, _, _) => SubmitKeeps(c, s, e, live, ended);
    case Add(t) => AddKeeps(c, s, t, live, ended);
    case Pop(_, _) => PopKeeps(c, s, e, live, ended);
    case LoadBlock(t) => MoveKeeps(s, t, Apply(c, s, e).threads[t], live, ended);
    case CountProcessable(t) => MoveKeeps(s, t, Apply(c, s, e).threads[t], live, ended);
    case CountUnprocessable(t) => MoveKeeps(s, t, Apply(c, s, e).threads[t], live, ended);
    case Decide(t, again) => DecideKeeps(c, s, t, again, live, ended);
    case RedisError(t, again) =>
      AfterRefusalKeeps(c, s, t, s.threads[t].origin, again, RejectedByRedis, live, ended);
    case Inspect(t) => InspectKeeps(c, s, t, live, ended);
    case Return(t, v) => ReturnKeeps(c, s, t, v, live, ended);
    case Crash(t) =>
      assert ThreadPlaced(s, live, t);
      ReleaseKeeps(s, t, LifeOf(s, KeyOf(s.threads[t].item)), Crashed, live, ended);
  }

  lemma AdvanceKeeps(s: State, b: nat, live: LiveProperty, ended: EndProperty)
    requires Placed(s, live, ended)
    ensures Placed(s.(block := b), live, ended)
  {
    var s' := s.(block := b);
    forall t | t in s'.threads
      ensures ThreadPlaced(s', live, t)
    {
      assert ThreadPlaced(s, live, t);
    }
    forall k | k in s'.tracks
      ensures RecordPlaced(s', ended, k, s'.tracks[k])
    {
      assert RecordPlaced(s, ended, k, s.tracks[k]);
    }
  }
}
