/** Whole runs of the queue in which every answer comes from the simulation worker. */
module WorkerRuns {
  import opened Bytes
  import opened QueueMachine
  import opened QueueSafety
  import opened QueueConservation
  import opened RedisQueues
  import opened SimWorker

  /** ScheduleBundleSimulation stores the bundle, with metadata, under its own last block. */
  predicate StoredAs(w: Worker, data: seq<byte>, max: nat) {
    && w.unmarshal(data).Some?
    && w.unmarshal(data).value.metadata.Some?
    && w.unmarshal(data).value.inclusion.max == max
  }

  predicate Scheduled(w: Worker, e: Event) {
    e.Submit? ==> StoredAs(w, e.data, e.max)
  }

  /** The verdict is the worker's, on a state block whose successor is a uint64. */
  ghost predicate Answered(w: Worker, s: State, e: Event, x: Answers) {
    e.Return? && e.t in s.threads ==>
      var a := s.threads[e.t].item;
      StoredAs(w, a.data, a.maxTargetBlock) ==>
        && e.verdict == Classify(SimWorker.Process(w, a.data, a.minTargetBlock, x).err)
        && (x.sim.Simulated? ==> x.sim.response.stateBlock != TWO_64 - 1)
  }

  /** A run with what the worker's surroundings answered at each step (only used where a call returns). */
  ghost predicate CanWork(w: Worker, c: Config, es: seq<Event>, xs: seq<Answers>)
    decreases |es|
  {
    && CanRunWell(c, es) && |xs| == |es|
    && (es != [] ==>
          && CanWork(w, c, es[..|es| - 1], xs[..|es| - 1])
          && Scheduled(w, es[|es| - 1])
          && Answered(w, Run(c, INITIAL, es[..|es| - 1]), es[|es| - 1], xs[|es| - 1]))
  }

  /** How often item `k` or its cancellation was sent to builders. */
  ghost function SendCount(w: Worker, c: Config, es: seq<Event>, xs: seq<Answers>, k: Key): nat
    requires CanWork(w, c, es, xs)
    decreases |es|
  {
    if es == [] then 0
    else
      SendCount(w, c, es[..|es| - 1], xs[..|es| - 1], k)
      + if Sends(w, c, Run(c, INITIAL, es[..|es| - 1]), es[|es| - 1], xs[|es| - 1], k) then 1 else 0
  }

  /** The step is the return of a call for item `k` that sends something to builders. */
  ghost predicate Sends(w: Worker, c: Config, s: State, e: Event, x: Answers, k: Key)
    requires Enabled(c, s, e) && Answered(w, s, e, x)
  {
    && e.Return? && KeyOf(s.threads[e.t].item) == k
    && StoredAs(w, k.data, k.maxTargetBlock)
    && Sent(w, s.threads[e.t].item.data, s.threads[e.t].item.minTargetBlock, x).Some?
  }

  // One step

  /** A life is only ever extended, by a call when one returns. */
  lemma TouchedLife(c: Config, s: State, e: Event, k: Key)
    requires Enabled(c, s, e) && k in s.tracks && Touches(s, e, k) && !e.Submit?
    ensures k in Apply(c, s, e).tracks
    ensures Apply(c, s, e).tracks[k].life.submittedMin == s.tracks[k].life.submittedMin
    ensures Apply(c, s, e).tracks[k].life.calls ==
            if e.Return?
            then RecordCall(s.tracks[k].life, s.threads[e.t].item, s.threads[e.t].next, e.verdict).calls
            else s.tracks[k].life.calls
  {
  }

  lemma TouchedFate(c: Config, s: State, e: Event, k: Key)
    requires Enabled(c, s, e) && Touches(s, e, k) && k in Apply(c, s, e).tracks
    requires Apply(c, s, e).tracks[k].place == Gone(NoNextBlock)
    ensures e.Return? && AfterVerdict(c, s.threads[e.t].item, e.verdict) == Drop(NoNextBlock)
  {
  }

  /** Requeues keep data and last block, so every item in every run still is the bundle that was scheduled. */
  lemma {:induction false} ItemsStayStored(w: Worker, c: Config, es: seq<Event>, xs: seq<Answers>, k: Key)
    requires CanWork(w, c, es, xs) && k in Run(c, INITIAL, es).tracks
    ensures StoredAs(w, k.data, k.maxTargetBlock)
    decreases |es|
  {
    if es != [] {
      UntouchedWasThere(c, es[..|es| - 1], es[|es| - 1], k);
      if k in Run(c, INITIAL, es[..|es| - 1]).tracks {
        ItemsStayStored(w, c, es[..|es| - 1], xs[..|es| - 1], k);
      }
    }
  }

  // Items that run out of blocks

  /** The item was dropped for want of a next block only after a simulation that succeeded or settled it. */
  predicate OutOfBlocksAfterSuccess(tr: Track) {
    tr.place == Gone(NoNextBlock) ==> tr.life.calls != [] && tr.life.calls[|tr.life.calls| - 1].verdict.Succeeded?
  }

  lemma ReturnOutOfBlocks(w: Worker, c: Config, es: seq<Event>, e: Event, x: Answers)
    requires CanRunWell(c, es) && e.Return? && Enabled(c, Run(c, INITIAL, es), e)
    requires Answered(w, Run(c, INITIAL, es), e, x)
    requires var a := Run(c, INITIAL, es).threads[e.t].item; StoredAs(w, a.data, a.maxTargetBlock)
    requires AfterVerdict(c, Run(c, INITIAL, es).threads[e.t].item, e.verdict) == Drop(NoNextBlock)
    ensures e.verdict.Succeeded?
  {
    var a := Run(c, INITIAL, es).threads[e.t].item;
    ReachableInFlight(c, es, e.t);
    VerdictOutcome(c, a, e.verdict);
    if e.verdict.NextBlock? {
      NextBlockHasRoom(w, a.data, a.minTargetBlock, x);
    }
  }

  /** In every run the worker's request for the next block is never refused for want of one. */
  lemma {:induction false} NextBlockIsNeverMissing(w: Worker, c: Config, es: seq<Event>, xs: seq<Answers>, k: Key)
    requires CanWork(w, c, es, xs) && k in Run(c, INITIAL, es).tracks
    ensures OutOfBlocksAfterSuccess(Run(c, INITIAL, es).tracks[k])
    decreases |es|
  {
    if es != [] {
      var s, e, x := Run(c, INITIAL, es[..|es| - 1]), es[|es| - 1], xs[|es| - 1];
      var s' := Apply(c, s, e);
      if Touches(s, e, k) {
        if s'.tracks[k].place == Gone(NoNextBlock) {
          TouchedFate(c, s, e, k);
          HeldIsTracked(c, es[..|es| - 1], e.t);
          ItemsStayStored(w, c, es[..|es| - 1], xs[..|es| - 1], k);
          ReturnOutOfBlocks(w, c, es[..|es| - 1], e, x);
          TouchedLife(c, s, e, k);
        }
      } else {
        UntouchedWasThere(c, es[..|es| - 1], e, k);
        OthersUntouched(c, s, e, k);
        NextBlockIsNeverMissing(w, c, es[..|es| - 1], xs[..|es| - 1], k);
      }
    }
  }

  // What reaches the builders

  lemma SendsAreBillable(w: Worker, c: Config, s: State, e: Event, x: Answers, k: Key)
    requires Enabled(c, s, e) && Answered(w, s, e, x) && Sends(w, c, s, e, x, k)
    ensures !e.verdict.Lagging?
  {
  }

  lemma StepSends(w: Worker, c: Config, s: State, e: Event, x: Answers, k: Key)
    requires Enabled(c, s, e) && Answered(w, s, e, x) && WellSubmitted(s, e) && k in s.tracks
    ensures k in Apply(c, s, e).tracks
    ensures Billable(s.tracks[k].life.calls) + (if Sends(w, c, s, e, x, k) then 1 else 0)
            <= Billable(Apply(c, s, e).tracks[k].life.calls)
  {
    if Touches(s, e, k) {
      TouchedLife(c, s, e, k);
      if e.Return? {
        var calls := RecordCall(s.tracks[k].life, s.threads[e.t].item, s.threads[e.t].next, e.verdict).calls;
        assert calls[..|calls| - 1] == s.tracks[k].life.calls;
        if Sends(w, c, s, e, x, k) {
          SendsAreBillable(w, c, s, e, x, k);
        }
      }
    } else {
      OthersUntouched(c, s, e, k);
    }
  }

  /** Nothing is sent for an item that was not submitted yet. */
  lemma {:induction false} SendsFollowSubmission(w: Worker, c: Config, es: seq<Event>, xs: seq<Answers>, k: Key)
    requires CanWork(w, c, es, xs)
    ensures var s := Run(c, INITIAL, es);
            SendCount(w, c, es, xs, k) <= if k in s.tracks then Billable(s.tracks[k].life.calls) else 0
    decreases |es|
  {
    if es != [] {
      var s, e, x := Run(c, INITIAL, es[..|es| - 1]), es[|es| - 1], xs[|es| - 1];
      SendsFollowSubmission(w, c, es[..|es| - 1], xs[..|es| - 1], k);
      if k in s.tracks {
        StepSends(w, c, s, e, x, k);
      } else if Sends(w, c, s, e, x, k) {
        HeldIsTracked(c, es[..|es| - 1], e.t);
      }
    }
  }

  /** In every run each submission is sent to builders at most once per retry, plus once. */
  lemma SendsAreBounded(w: Worker, c: Config, es: seq<Event>, xs: seq<Answers>, k: Key)
    requires CanWork(w, c, es, xs)
    ensures SendCount(w, c, es, xs, k) <= c.maxRetries + 1
  {
    SendsFollowSubmission(w, c, es, xs, k);
    if k in Run(c, INITIAL, es).tracks {
      WorkIsBounded(c, es, k);
    }
  }

  /** In every run: what is sent was submitted, and is for no block before the submitted window. */
  lemma SendsAreNotEarly(w: Worker, c: Config, es: seq<Event>, e: Event, x: Answers, k: Key)
    requires CanRunWell(c, es) && Enabled(c, Run(c, INITIAL, es), e)
    requires Answered(w, Run(c, INITIAL, es), e, x) && Sends(w, c, Run(c, INITIAL, es), e, x, k)
    ensures var s := Run(c, INITIAL, es);
            var a := s.threads[e.t].item;
            var block := Sent(w, a.data, a.minTargetBlock, x).value.block;
            && k in s.tracks
            && s.tracks[k].life.submittedMin <= a.minTargetBlock <= block
            && a.minTargetBlock <= k.maxTargetBlock
            && x.sim.Simulated?
            && (block <= k.maxTargetBlock <==> x.sim.response.stateBlock < k.maxTargetBlock)
  {
    var s := Run(c, INITIAL, es);
    var a := s.threads[e.t].item;
    ItemsStayInWindow(c, es);
    SendBlockBounds(w, a.data, a.minTargetBlock, x);
  }
}
