/** Whole calls that nothing interferes with, as runs of the queue machine. */
module QueueCalls {
  import opened Bytes
  import opened PackedItem
  import opened QueueMachine

  predicate Accepts(c: Config, queue: SortedSet, block: nat, a: PackArgs) {
    Admissible(c, a, block + 1, CountUpTo(queue, block + 1), CountFrom(queue, block + 2))
  }

  function WithItem(c: Config, queue: SortedSet, block: nat, a: PackArgs): SortedSet {
    if Accepts(c, queue, block, a) then queue[MemberOf(a) := a.minTargetBlock] else queue
  }

  function WithRetry(c: Config, queue: SortedSet, block: nat, retry: Retry): SortedSet {
    if retry.Again? then WithItem(c, queue, block, retry.item) else queue
  }

  /** What becomes of an item that has been popped, given the process function's answer `v`. */
  function TurnRetry(c: Config, a: PackArgs, block: nat, v: Verdict): Retry {
    match InspectItem(c, a, block + 1)
    case Requeue(retry) => retry
    case Process => AfterVerdict(c, a, v)
  }

  /** `s'` differs from `s` in its queue and its records at most. */
  predicate SameButQueue(s: State, s': State, queue: SortedSet) {
    s'.block == s.block && s'.threads == s.threads && s'.queue == queue
  }

  /** All actions are those of thread `t`, which submits nothing. */
  predicate ActionsOf(t: Tid, es: seq<Event>) {
    forall i :: 0 <= i < |es| ==> !es[i].AdvanceBlock? && !es[i].Submit? && es[i].t == t
  }

  lemma {:induction false} RunConcat(c: Config, s: State, es: seq<Event>, es': seq<Event>)
    requires CanRun(c, s, es) && CanRun(c, Run(c, s, es), es')
    ensures CanRun(c, s, es + es') && Run(c, s, es + es') == Run(c, Run(c, s, es), es')
    decreases |es'|
  {
    if es' == [] {
      assert es + es' == es;
    } else {
      var front, last := es'[..|es'| - 1], es'[|es'| - 1];
      RunConcat(c, s, es, front);
      RunAppend(c, s, es + front, last);
      assert es + es' == es + front + [last];
    }
  }

  /** Three actions count the queue. */
  lemma CountRun(c: Config, s: State, t: Tid) returns (es: seq<Event>)
    requires t in s.threads && s.threads[t].Entering?
    ensures CanRun(c, s, es) && ActionsOf(t, es)
    ensures var s' := Run(c, s, es);
            && s'.block == s.block && s'.queue == s.queue
            && s'.threads == s.threads[t := Counted(s.threads[t].item, s.threads[t].origin,
                                                    CountUpTo(s.queue, s.block + 1), CountFrom(s.queue, s.block + 2))]
  {
    var s1 := Apply(c, s, LoadBlock(t));
    RunAppend(c, s, [], LoadBlock(t));
    var s2 := Apply(c, s1, CountProcessable(t));
    RunAppend(c, s, [] + [LoadBlock(t)], CountProcessable(t));
    RunAppend(c, s, [] + [LoadBlock(t)] + [CountProcessable(t)], CountUnprocessable(t));
    es := [] + [LoadBlock(t)] + [CountProcessable(t)] + [CountUnprocessable(t)];
  }

  /** Decide on the counts and, if they allow, add the item. */
  lemma AdmitRun(c: Config, s: State, t: Tid) returns (es: seq<Event>)
    requires t in s.threads && s.threads[t].Counted?
    ensures CanRun(c, s, es) && ActionsOf(t, es)
    ensures var s' := Run(c, s, es);
            var st := s.threads[t];
            && s'.block == s.block
            && s'.queue == (if Admissible(c, st.item, s.block + 1, st.processable, st.unprocessable)
                            then s.queue[MemberOf(st.item) := st.item.minTargetBlock] else s.queue)
            && s'.threads == s.threads - {t}
  {
    var s1 := Apply(c, s, Decide(t, false));
    RunAppend(c, s, [], Decide(t, false));
    es := [] + [Decide(t, false)];
    hide CanRun, Run, Admissible;
    if Admissible(c, s.threads[t].item, s.block + 1, s.threads[t].processable, s.threads[t].unprocessable) {
      RunAppend(c, s, es, Add(t));
      es := es + [Add(t)];
      assert s.threads[t := Admitted(s.threads[t].item, s.threads[t].origin)] - {t} == s.threads - {t};
    }
  }

  /** pushToQueue: the item is added exactly when the queue accepts it; the thread is done. */
  lemma EnqueueRun(c: Config, s: State, t: Tid) returns (es: seq<Event>)
    requires t in s.threads && s.threads[t].Entering?
    ensures CanRun(c, s, es) && ActionsOf(t, es)
    ensures var s' := Run(c, s, es);
            && s'.block == s.block
            && s'.queue == WithItem(c, s.queue, s.block, s.threads[t].item)
            && s'.threads == s.threads - {t}
  {
    hide CanRun, Run, Admissible, CountUpTo, CountFrom;
    es := CountRun(c, s, t);
    var s1 := Run(c, s, es);
    var more := AdmitRun(c, s1, t);
    RunConcat(c, s, es, more);
    es := es + more;
    assert s1.threads - {t} == s.threads - {t};
  }

  /** Push of an item that is not stale. */
  lemma PushRun(c: Config, s: State, submit: Event) returns (es: seq<Event>)
    requires submit.Submit? && Enabled(c, s, submit) && s.block < submit.max
    ensures CanRun(c, s, es)
    ensures es != [] && es[0] == submit && ActionsOf(submit.t, es[1..])
    ensures var a := Clamped(submit.data, submit.highPriority, submit.min, submit.max, submit.now, s.block);
            SameButQueue(s, Run(c, s, es), WithItem(c, s.queue, s.block, a))
  {
    var s1 := Apply(c, s, submit);
    RunAppend(c, s, [], submit);
    var more := EnqueueRun(c, s1, submit.t);
    es := [] + [submit];
    RunConcat(c, s, es, more);
    es := es + more;
    assert es[1..] == more;
    assert s1.threads - {submit.t} == s.threads;
  }

  /** Popping the first item and looking at it. */
  lemma PopRun(c: Config, s: State, t: Tid, m: Member) returns (es: seq<Event>)
    requires t !in s.threads && IsFirst(s.queue, m)
    ensures CanRun(c, s, es) && ActionsOf(t, es)
    ensures var s' := Run(c, s, es);
            && s'.block == s.block && s'.queue == s.queue - {m}
            && s'.threads == s.threads[t := Popped(ItemOf(m, s.queue[m]))]
  {
    RunAppend(c, s, [], Pop(t, m));
    es := [] + [Pop(t, m)];
  }

  /** Looking at a popped item and perhaps processing it. */
  lemma VerdictRun(c: Config, s: State, t: Tid, a: PackArgs, v: Verdict) returns (es: seq<Event>)
    requires t in s.threads && s.threads[t] == Popped(a)
    ensures CanRun(c, s, es) && ActionsOf(t, es)
    ensures var s' := Run(c, s, es);
            var r := TurnRetry(c, a, s.block, v);
            && s'.block == s.block && s'.queue == s.queue
            && s'.threads == if r.Again? then s.threads[t := Entering(r.item, Requeued)] else s.threads - {t}
  {
    var s2 := Apply(c, s, Inspect(t));
    RunAppend(c, s, [], Inspect(t));
    es := [] + [Inspect(t)];
    if InspectItem(c, a, s.block + 1).Process? {
      RunAppend(c, s, es, Return(t, v));
      es := es + [Return(t, v)];
    }
    RetryState(c, s, s2, Run(c, s, es), t, a, v);
  }

  /** Popping the first item, looking at it and perhaps processing it. */
  lemma DecisionRun(c: Config, s: State, t: Tid, m: Member, v: Verdict) returns (es: seq<Event>)
    requires t !in s.threads && IsFirst(s.queue, m)
    ensures CanRun(c, s, es) && ActionsOf(t, es)
    ensures var s' := Run(c, s, es);
            var r := TurnRetry(c, ItemOf(m, s.queue[m]), s.block, v);
            && s'.block == s.block && s'.queue == s.queue - {m}
            && s'.threads == if r.Again? then s.threads[t := Entering(r.item, Requeued)] else s.threads
  {
    hide TurnRetry, CanRun, Run;
    var a := ItemOf(m, s.queue[m]);
    es := PopRun(c, s, t, m);
    var s1 := Run(c, s, es);
    var more := VerdictRun(c, s1, t, a, v);
    RunConcat(c, s, es, more);
    es := es + more;
    assert s1.threads - {t} == s.threads;
    var r := TurnRetry(c, a, s.block, v);
    if r.Again? {
      assert s1.threads[t := Entering(r.item, Requeued)] == s.threads[t := Entering(r.item, Requeued)];
    }
  }

  /** A worker's turn: the first item is popped, and requeued if so decided and if the queue accepts it. */
  lemma TurnRun(c: Config, s: State, t: Tid, m: Member, v: Verdict) returns (es: seq<Event>)
    requires t !in s.threads && IsFirst(s.queue, m)
    ensures CanRun(c, s, es) && ActionsOf(t, es)
    ensures SameButQueue(s, Run(c, s, es),
              WithRetry(c, s.queue - {m}, s.block, TurnRetry(c, ItemOf(m, s.queue[m]), s.block, v)))
  {
    es := DecisionRun(c, s, t, m, v);
    if TurnRetry(c, ItemOf(m, s.queue[m]), s.block, v).Again? {
      var s1 := Run(c, s, es);
      var more := EnqueueRun(c, s1, t);
      RunConcat(c, s, es, more);
      es := es + more;
      assert s1.threads - {t} == s.threads;
    }
  }

  lemma RetryState(c: Config, s1: State, s2: State, s3: State, t: Tid, a: PackArgs, v: Verdict)
    requires t in s1.threads && s1.threads[t] == Popped(a) && s2 == Apply(c, s1, Inspect(t))
    requires s3 == if InspectItem(c, a, s1.block + 1).Process? then Apply(c, s2, Return(t, v)) else s2
    ensures s3.block == s1.block && s3.queue == s1.queue
    ensures var r := TurnRetry(c, a, s1.block, v);
            s3.threads == if r.Again? then s1.threads[t := Entering(r.item, Requeued)] else s1.threads - {t}
  {
  }

  // A push with min above max

  lemma LoneMemberIsFirst(m: Member, score: uint64)
    ensures IsFirst(map[m := score], m)
  {
  }

  lemma EmptyQueueAccepts(c: Config, a: PackArgs)
    requires a.minTargetBlock > 1 && UnprocessableThreshold(c, a.highPriority) > 0
    ensures WithItem(c, map[], 0, a) == map[MemberOf(a) := a.minTargetBlock]
  {
    var queue: SortedSet := map[];
    assert (set m | m in queue && queue[m] >= 2) == {};
  }

  /** From the first block on: the item is queued, and processed on block `min`, which is past its max block. */
  lemma EmptyWindowIsProcessed(c: Config, t: Tid, data: seq<byte>, highPriority: bool, min: uint64, max: uint64, now: int64)
      returns (es: seq<Event>)
    requires 0 < max < min <= TWO_53 && now >= 0 && UnprocessableThreshold(c, highPriority) > 0
    ensures CanRun(c, INITIAL, es)
    ensures var s := Run(c, INITIAL, es);
            var a := PackArgs(data, min, max, highPriority, now, 0);
            t in s.threads && s.threads[t] == Calling(a, min)
  {
    var a := PackArgs(data, min, max, highPriority, now, 0);
    es := PushRun(c, INITIAL, Submit(t, data, highPriority, min, max, now));
    var s1 := Run(c, INITIAL, es);
    EmptyQueueAccepts(c, a);
    RunAppend(c, INITIAL, es, AdvanceBlock(min - 1));
    es := es + [AdvanceBlock(min - 1)];
    var s2 := Run(c, INITIAL, es);
    LoneMemberIsFirst(MemberOf(a), min);
    hide CanRun, Run, Admissible;
    var pop := PopRun(c, s2, t, MemberOf(a));
    RunConcat(c, INITIAL, es, pop);
    es := es + pop;
    assert ItemOf(MemberOf(a), min) == a;
    RunAppend(c, INITIAL, es, Inspect(t));
    es := es + [Inspect(t)];
  }
}
