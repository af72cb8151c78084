/** What holds of every item in every state that the queue can reach. */
module QueueSafety {
  import opened Bytes
  import opened PackedItem
  import opened QueueMachine
  import opened QueuePlacement

  // An item's history

  /** Calls that use up a retry: all but those answered with "lagging". */
  function Billable(calls: seq<Call>): nat {
    if calls == [] then 0
    else Billable(calls[..|calls| - 1]) + if calls[|calls| - 1].verdict.Lagging? then 0 else 1
  }

  /** After these verdicts the item is put back for the next block. */
  predicate Advances(v: Verdict) {
    v.Succeeded? || v.NextBlock?
  }

  /** `y` may be a later call for the same item than `x`. */
  predicate MayFollow(x: Call, y: Call) {
    x.target <= y.target && (Advances(x.verdict) ==> x.target < y.target)
  }

  /** Targets are the loaded block plus one, lie in the window and never go back. */
  ghost predicate CallsOk(calls: seq<Call>, min: nat, max: nat) {
    && (forall i :: 0 <= i < |calls| ==> calls[i].target == calls[i].next && min <= calls[i].target <= max)
    && (forall i, j :: 0 <= i < j < |calls| ==> MayFollow(calls[i], calls[j]))
  }

  /** A call for `block` may follow. */
  ghost predicate CallsBefore(calls: seq<Call>, block: nat) {
    forall i :: 0 <= i < |calls| ==> calls[i].target <= block && (Advances(calls[i].verdict) ==> calls[i].target < block)
  }

  /** The item `a`, queued or held by a thread, agrees with its life so far. */
  ghost predicate Live(c: Config, a: PackArgs, life: Life) {
    && life.submittedMin <= a.minTargetBlock <= a.maxTargetBlock <= TWO_53
    && a.timestamp >= 0
    && a.iteration <= c.maxRetries
    && Billable(life.calls) == a.iteration
    && CallsOk(life.calls, life.submittedMin, a.maxTargetBlock)
    && CallsBefore(life.calls, a.minTargetBlock)
    && life.moves <= a.iteration + (a.minTargetBlock - life.submittedMin)
  }

  ghost predicate Ended(c: Config, k: Key, life: Life) {
    && life.submittedMin <= k.maxTargetBlock
    && Billable(life.calls) <= c.maxRetries + 1
    && CallsOk(life.calls, life.submittedMin, k.maxTargetBlock)
    && life.moves <= c.maxRetries + (k.maxTargetBlock - life.submittedMin)
  }

  ghost function LiveIn(c: Config): LiveProperty {
    (a, life) => Live(c, a, life)
  }

  ghost function EndedIn(c: Config): EndProperty {
    (k, life) => Ended(c, k, life)
  }

  // Decisions about one item

  /** (maxRetries - iteration) + (max - min) */
  function RemainingWork(c: Config, a: PackArgs): int {
    (c.maxRetries - a.iteration) + (a.maxTargetBlock - a.minTargetBlock)
  }

  lemma RecordedCalls(c: Config, a: PackArgs, life: Life, v: Verdict)
    requires Live(c, a, life)
    ensures var calls := RecordCall(life, a, a.minTargetBlock, v).calls;
            && CallsOk(calls, life.submittedMin, a.maxTargetBlock)
            && Billable(calls) == a.iteration + (if v.Lagging? then 0 else 1)
            && CallsBefore(calls, a.minTargetBlock + if Advances(v) then 1 else 0)
  {
    var calls := RecordCall(life, a, a.minTargetBlock, v).calls;
    assert calls[..|calls| - 1] == life.calls;
  }

  lemma VerdictKeepsItem(c: Config, a: PackArgs, life: Life, v: Verdict)
    requires Live(c, a, life)
    ensures RetryKeeps(LiveIn(c), EndedIn(c), a, AfterVerdict(c, a, v), RecordCall(life, a, a.minTargetBlock, v))
  {
    RecordedCalls(c, a, life, v);
  }

  lemma InspectionKeepsItem(c: Config, a: PackArgs, life: Life, next: nat)
    requires Live(c, a, life)
    ensures InspectionKeeps(LiveIn(c), EndedIn(c), a, next, InspectItem(c, a, next), life)
  {
  }

  lemma DecisionsKeepItems(c: Config)
    ensures KeptByDecisions(c, LiveIn(c), EndedIn(c))
  {
    forall a, life, next: nat | LiveIn(c)(a, life)
      ensures InspectionKeeps(LiveIn(c), EndedIn(c), a, next, InspectItem(c, a, next), life)
    {
      InspectionKeepsItem(c, a, life, next);
    }
    forall a, life, v | LiveIn(c)(a, life)
      ensures RetryKeeps(LiveIn(c), EndedIn(c), a, AfterVerdict(c, a, v), RecordCall(life, a, a.minTargetBlock, v))
    {
      VerdictKeepsItem(c, a, life, v);
    }
  }

  lemma SubmissionsAreLive(c: Config, s: State, e: Event)
    requires e.Submit? && Enabled(c, s, e) && WellSubmitted(s, e)
    ensures SubmissionHas(s, e, LiveIn(c), EndedIn(c))
  {
  }

  // Runs

  lemma {:induction false} RunKeeps(c: Config, es: seq<Event>)
    requires CanRunWell(c, es)
    ensures Placed(Run(c, INITIAL, es), LiveIn(c), EndedIn(c))
    decreases |es|
  {
    if es != [] {
      var s, e := Run(c, INITIAL, es[..|es| - 1]), es[|es| - 1];
      RunKeeps(c, es[..|es| - 1]);
      DecisionsKeepItems(c);
      if e.Submit? {
        SubmissionsAreLive(c, s, e);
      }
      StepKeeps(c, s, e, LiveIn(c), EndedIn(c));
    }
  }

  /** Every queued item and every item in flight lies in its submitted window. */
  lemma ItemsStayInWindow(c: Config, es: seq<Event>)
    requires CanRunWell(c, es)
    ensures var s := Run(c, INITIAL, es);
            && (forall m :: m in s.queue ==>
                  && MemberKey(m) in s.tracks
                  && s.tracks[MemberKey(m)].life.submittedMin <= s.queue[m] <= m.maxTargetBlock)
            && (forall t :: t in s.threads ==>
                  var a := s.threads[t].item;
                  && KeyOf(a) in s.tracks
                  && s.tracks[KeyOf(a)].life.submittedMin <= a.minTargetBlock <= a.maxTargetBlock)
  {
    RunKeeps(c, es);
    var s := Run(c, INITIAL, es);
    forall m | m in s.queue
      ensures MemberKey(m) in s.tracks
      ensures s.tracks[MemberKey(m)].life.submittedMin <= s.queue[m] <= m.maxTargetBlock
    {
      assert LiveIn(c)(ItemOf(m, s.queue[m]), s.tracks[MemberKey(m)].life);
    }
    forall t | t in s.threads
      ensures var a := s.threads[t].item;
              && KeyOf(a) in s.tracks
              && s.tracks[KeyOf(a)].life.submittedMin <= a.minTargetBlock <= a.maxTargetBlock
    {
      assert ThreadPlaced(s, LiveIn(c), t);
    }
  }

  /** The life of every item that was ever submitted satisfies the bounds of a finished life. */
  lemma LivesAreBounded(c: Config, es: seq<Event>, k: Key)
    requires CanRunWell(c, es) && k in Run(c, INITIAL, es).tracks
    ensures Ended(c, k, Run(c, INITIAL, es).tracks[k].life)
  {
    RunKeeps(c, es);
    var s := Run(c, INITIAL, es);
    assert RecordPlaced(s, EndedIn(c), k, s.tracks[k]);
    match s.tracks[k].place
    case Queued(m) =>
      assert LiveIn(c)(ItemOf(m, s.queue[m]), s.tracks[k].life);
    case Held(t) =>
      assert ThreadPlaced(s, LiveIn(c), t);
    case Gone(_) =>
  }

  /** Calls of the process function for one item: on the next block, in the window, in order. */
  lemma CallsAreOnTimeAndInOrder(c: Config, es: seq<Event>, k: Key)
    requires CanRunWell(c, es) && k in Run(c, INITIAL, es).tracks
    ensures var life := Run(c, INITIAL, es).tracks[k].life;
            && (forall i :: 0 <= i < |life.calls| ==>
                  && life.calls[i].target == life.calls[i].next
                  && life.submittedMin <= life.calls[i].target <= k.maxTargetBlock)
            && (forall i, j :: 0 <= i < j < |life.calls| ==>
                  life.calls[i].target <= life.calls[j].target)
            && (forall i, j :: 0 <= i < j < |life.calls| && life.calls[i].verdict.Succeeded? ==>
                  life.calls[i].target < life.calls[j].target)
  {
    LivesAreBounded(c, es, k);
    var calls := Run(c, INITIAL, es).tracks[k].life.calls;
    assert forall i, j :: 0 <= i < j < |calls| ==> MayFollow(calls[i], calls[j]);
  }

  /** No item is worked on forever: calls that are not lagging, and requeues that change it, are bounded. */
  lemma WorkIsBounded(c: Config, es: seq<Event>, k: Key)
    requires CanRunWell(c, es) && k in Run(c, INITIAL, es).tracks
    ensures var life := Run(c, INITIAL, es).tracks[k].life;
            && Billable(life.calls) <= c.maxRetries + 1
            && life.moves <= c.maxRetries + (k.maxTargetBlock - life.submittedMin)
  {
    LivesAreBounded(c, es, k);
  }
}
