/**
 The simulation queue as a machine of atomic actions.

 A call that is under way (a push, or a worker's turn) is a thread. Loading the block number, each
 Redis command and each return of the process function is one action; threads and the block updater
 interleave freely. Besides the real state (block number, sorted set, threads) the machine carries a
 record per submitted item, written but never read by the actions, so that statements can speak of an
 item's whole life.
 */
module QueueMachine {
  import opened Bytes
  import opened PackedItem

  type Tid = nat

  datatype Config = Config(
    maxRetries: uint16,
    maxProcessableLow: nat,
    maxProcessableHigh: nat,
    maxUnprocessableLow: nat,
    maxUnprocessableHigh: nat)

  /** A member of the sorted set: everything that is packed; the block is the score. */
  datatype Member = Member(
    highPriority: bool,
    iteration: uint16,
    timestamp: int64,
    maxTargetBlock: uint64,
    data: seq<byte>)

  type SortedSet = map<Member, uint64>

  function MemberOf(a: PackArgs): Member {
    Member(a.highPriority, a.iteration, a.timestamp, a.maxTargetBlock, a.data)
  }

  function ItemOf(m: Member, score: uint64): PackArgs {
    PackArgs(m.data, score, m.maxTargetBlock, m.highPriority, m.timestamp, m.iteration)
  }

  /** What no requeue of an item changes. */
  datatype Key = Key(highPriority: bool, timestamp: int64, maxTargetBlock: uint64, data: seq<byte>)

  function KeyOf(a: PackArgs): Key {
    Key(a.highPriority, a.timestamp, a.maxTargetBlock, a.data)
  }

  function MemberKey(m: Member): Key {
    Key(m.highPriority, m.timestamp, m.maxTargetBlock, m.data)
  }

  /** Who called pushToQueue. */
  datatype Origin = Submitted | Requeued

  datatype Stage =
    | Entering(item: PackArgs, origin: Origin)
    | CountingProcessable(item: PackArgs, origin: Origin, next: nat)
    | CountingUnprocessable(item: PackArgs, origin: Origin, next: nat, processable: nat)
    | Counted(item: PackArgs, origin: Origin, processable: nat, unprocessable: nat)
    | Admitted(item: PackArgs, origin: Origin)
    | Popped(item: PackArgs)
    | Calling(item: PackArgs, next: nat)

  /** The process function's error as processNextItem classifies it. */
  datatype Verdict = Succeeded | WorkerFailed | NextBlock | Lagging | Unrecoverable | Unrecognised

  datatype Fate =
    | RejectedStale | RejectedFull | RejectedByRedis
    | Stale | RetriesExhausted | NoNextBlock | GivenUp | FailedOddly | RequeueFailed
    | Crashed

  datatype Place = Queued(member: Member) | Held(thread: Tid) | Gone(fate: Fate)

  datatype Call = Call(target: nat, next: nat, verdict: Verdict)

  /** The life of one submitted item; `moves` counts the requeues that changed it. */
  datatype Life = Life(submittedMin: nat, calls: seq<Call>, moves: nat)

  datatype Track = Track(place: Place, life: Life)

  datatype State = State(
    block: nat,
    queue: SortedSet,
    threads: map<Tid, Stage>,
    tracks: map<Key, Track>)

  const INITIAL: State := State(0, map[], map[], map[])

  datatype Event =
    | AdvanceBlock(block: nat)
    | Submit(t: Tid, data: seq<byte>, highPriority: bool, min: uint64, max: uint64, now: int64)
    | LoadBlock(t: Tid)
    | CountProcessable(t: Tid)
    | CountUnprocessable(t: Tid)
    | Decide(t: Tid, tryAgain: bool)
    | RedisError(t: Tid, tryAgain: bool)
    | Add(t: Tid)
    | Pop(t: Tid, member: Member)
    | Inspect(t: Tid)
    | Return(t: Tid, verdict: Verdict)
    | Crash(t: Tid)

  // Decisions shared with the imperative queue

  function CountUpTo(queue: SortedSet, bound: nat): nat {
    |set m | m in queue && queue[m] <= bound|
  }

  function CountFrom(queue: SortedSet, bound: nat): nat {
    |set m | m in queue && queue[m] >= bound|
  }

  function ProcessableThreshold(c: Config, highPriority: bool): nat {
    if highPriority then c.maxProcessableHigh else c.maxProcessableLow
  }

  function UnprocessableThreshold(c: Config, highPriority: bool): nat {
    if highPriority then c.maxUnprocessableHigh else c.maxUnprocessableLow
  }

  predicate Admissible(c: Config, a: PackArgs, next: nat, processable: nat, unprocessable: nat) {
    if a.minTargetBlock <= next
    then processable < ProcessableThreshold(c, a.highPriority)
    else unprocessable < UnprocessableThreshold(c, a.highPriority)
  }

  datatype Retry = Again(item: PackArgs) | Drop(fate: Fate)

  function RetryItem(c: Config, a: PackArgs, incrIteration: bool, incrBlock: bool): Retry {
    if a.iteration >= c.maxRetries then Drop(RetriesExhausted)
    else
      var a1 := if incrIteration then a.(iteration := a.iteration + 1) else a;
      if incrBlock then
        if a1.minTargetBlock >= a1.maxTargetBlock then Drop(NoNextBlock)
        else Again(a1.(minTargetBlock := a1.minTargetBlock + 1))
      else Again(a1)
  }

  datatype Inspection = Requeue(retry: Retry) | Process

  /** What a worker does with a popped item once it has loaded the block number. */
  function InspectItem(c: Config, a: PackArgs, next: nat): Inspection {
    if next < a.minTargetBlock then Requeue(RetryItem(c, a, false, false))
    else if next > a.minTargetBlock then
      if next > a.maxTargetBlock then Requeue(Drop(Stale))
      else Requeue(RetryItem(c, a.(minTargetBlock := next), false, false))
    else Process
  }

  function AfterVerdict(c: Config, a: PackArgs, v: Verdict): Retry {
    match v
    case WorkerFailed => RetryItem(c, a, true, false)
    case NextBlock => RetryItem(c, a, true, true)
    case Lagging => RetryItem(c, a, false, false)
    case Unrecoverable => Drop(GivenUp)
    case Succeeded => RetryItem(c, a, true, true)
    case Unrecognised => Drop(FailedOddly)
  }

  /** The item that Push hands to pushToQueue: never scheduled before the next block. */
  function Clamped(data: seq<byte>, highPriority: bool, min: uint64, max: uint64, now: int64, block: nat): PackArgs
    requires block < max
  {
    PackArgs(data, if min < block + 1 then block + 1 else min, max, highPriority, now, 0)
  }

  // The actions

  /** `m` is what popping the minimum yields. */
  ghost predicate IsFirst(queue: SortedSet, m: Member) {
    && m in queue
    && forall m' :: m' in queue && m' != m ==> ScheduledBefore(ItemOf(m, queue[m]), ItemOf(m', queue[m']))
  }

  ghost predicate Enabled(c: Config, s: State, e: Event) {
    match e
    case AdvanceBlock(b) => b > s.block
    case Submit(t, _, _, min, max, now) => t !in s.threads && min <= TWO_53 && max <= TWO_53 && now >= 0
    case LoadBlock(t) => t in s.threads && s.threads[t].Entering?
    case CountProcessable(t) => t in s.threads && s.threads[t].CountingProcessable?
    case CountUnprocessable(t) => t in s.threads && s.threads[t].CountingUnprocessable?
    case Decide(t, _) => t in s.threads && s.threads[t].Counted?
    case RedisError(t, _) => t in s.threads &&
      (s.threads[t].CountingProcessable? || s.threads[t].CountingUnprocessable? || s.threads[t].Admitted?)
    case Add(t) => t in s.threads && s.threads[t].Admitted?
    case Pop(t, m) => t !in s.threads && IsFirst(s.queue, m)
    case Inspect(t) => t in s.threads && s.threads[t].Popped?
    case Return(t, _) => t in s.threads && s.threads[t].Calling?
    case Crash(t) => t in s.threads
  }

  function LifeOf(s: State, k: Key): Life {
    if k in s.tracks then s.tracks[k].life else Life(0, [], 0)
  }

  function Hold(s: State, t: Tid, stage: Stage, life: Life): State {
    s.(threads := s.threads[t := stage],
       tracks := s.tracks[KeyOf(stage.item) := Track(Held(t), life)])
  }

  function Release(s: State, t: Tid, k: Key, life: Life, fate: Fate): State {
    s.(threads := s.threads - {t},
       tracks := s.tracks[k := Track(Gone(fate), life)])
  }

  function CountMove(life: Life, popped: PackArgs, requeued: PackArgs): Life {
    if popped == requeued then life else life.(moves := life.moves + 1)
  }

  function RecordCall(life: Life, a: PackArgs, next: nat, v: Verdict): Life {
    life.(calls := life.calls + [Call(a.minTargetBlock, next, v)])
  }

  /** retryItem's outcome for an item that was popped as `popped`. */
  function AfterRetry(s: State, t: Tid, popped: PackArgs, retry: Retry, life: Life): State {
    match retry
    case Drop(fate) => Release(s, t, KeyOf(popped), life, fate)
    case Again(a) => Hold(s, t, Entering(a, Requeued), CountMove(life, popped, a))
  }

  function AfterInspection(s: State, t: Tid, popped: PackArgs, inspection: Inspection): State {
    match inspection
    case Process => Move(s, t, Calling(popped, s.block + 1))
    case Requeue(retry) => AfterRetry(s, t, popped, retry, LifeOf(s, KeyOf(popped)))
  }

  /** pushToQueue failed: a requeue may be tried again, a push is reported to its caller. */
  function AfterRefusal(s: State, t: Tid, item: PackArgs, origin: Origin, tryAgain: bool, fate: Fate): State {
    var life := LifeOf(s, KeyOf(item));
    if origin.Submitted? then Release(s, t, KeyOf(item), life, fate)
    else if tryAgain then Hold(s, t, Entering(item, Requeued), life)
    else Release(s, t, KeyOf(item), life, RequeueFailed)
  }

  function Apply(c: Config, s: State, e: Event): State
    requires Enabled(c, s, e)
  {
    match e
    case AdvanceBlock(b) => s.(block := b)
    case Submit(t, data, high, min, max, now) =>
      var life := Life(min, [], 0);
      if max <= s.block then
        s.(tracks := s.tracks[Key(high, now, max, data) := Track(Gone(RejectedStale), life)])
      else Hold(s, t, Entering(Clamped(data, high, min, max, now, s.block), Submitted), life)
    case LoadBlock(t) =>
      var st := s.threads[t];
      Move(s, t, CountingProcessable(st.item, st.origin, s.block + 1))
    case CountProcessable(t) =>
      var st := s.threads[t];
      Move(s, t, CountingUnprocessable(st.item, st.origin, st.next, CountUpTo(s.queue, st.next)))
    case CountUnprocessable(t) =>
      var st := s.threads[t];
      Move(s, t, Counted(st.item, st.origin, st.processable, CountFrom(s.queue, st.next + 1)))
    case Decide(t, tryAgain) =>
      var st := s.threads[t];
      if Admissible(c, st.item, s.block + 1, st.processable, st.unprocessable)
      then Move(s, t, Admitted(st.item, st.origin))
      else AfterRefusal(s, t, st.item, st.origin, tryAgain, RejectedFull)
    case RedisError(t, tryAgain) =>
      var st := s.threads[t];
      AfterRefusal(s, t, st.item, st.origin, tryAgain, RejectedByRedis)
    case Add(t) =>
      var a := s.threads[t].item;
      s.(queue := s.queue[MemberOf(a) := a.minTargetBlock],
         threads := s.threads - {t},
         tracks := s.tracks[KeyOf(a) := Track(Queued(MemberOf(a)), LifeOf(s, KeyOf(a)))])
    case Pop(t, m) =>
      var a := ItemOf(m, s.queue[m]);
      Hold(s.(queue := s.queue - {m}), t, Popped(a), LifeOf(s, KeyOf(a)))
    case Inspect(t) =>
      var a := s.threads[t].item;
      AfterInspection(s, t, a, InspectItem(c, a, s.block + 1))
    case Return(t, v) =>
      var st := s.threads[t];
      AfterRetry(s, t, st.item, AfterVerdict(c, st.item, v),
                 RecordCall(LifeOf(s, KeyOf(st.item)), st.item, st.next, v))
    case Crash(t) =>
      var a := s.threads[t].item;
      Release(s, t, KeyOf(a), LifeOf(s, KeyOf(a)), Crashed)
  }

  /** The thread goes on with the same item. */
  function Move(s: State, t: Tid, stage: Stage): State {
    Hold(s, t, stage, LifeOf(s, KeyOf(stage.item)))
  }

  // Runs

  /** `es` can happen from `s`, in that order. */
  ghost predicate CanRun(c: Config, s: State, es: seq<Event>)
    decreases |es|, 0
  {
    es == [] || (CanRun(c, s, es[..|es| - 1]) && Enabled(c, Run(c, s, es[..|es| - 1]), es[|es| - 1]))
  }

  ghost function Run(c: Config, s: State, es: seq<Event>): State
    requires CanRun(c, s, es)
    decreases |es|, 1
  {
    if es == [] then s else Apply(c, Run(c, s, es[..|es| - 1]), es[|es| - 1])
  }

  /** Submissions ask for a non-empty window and differ in priority, time, max block or payload. */
  ghost predicate WellSubmitted(s: State, e: Event) {
    e.Submit? ==> e.min <= e.max && Key(e.highPriority, e.now, e.max, e.data) !in s.tracks
  }

  ghost predicate CanRunWell(c: Config, es: seq<Event>) {
    && CanRun(c, INITIAL, es)
    && (es == [] || (CanRunWell(c, es[..|es| - 1]) && WellSubmitted(Run(c, INITIAL, es[..|es| - 1]), es[|es| - 1])))
  }

  lemma {:induction false} RunAppend(c: Config, s: State, es: seq<Event>, e: Event)
    requires CanRun(c, s, es) && Enabled(c, Run(c, s, es), e)
    ensures CanRun(c, s, es + [e]) && Run(c, s, es + [e]) == Apply(c, Run(c, s, es), e)
  {
    assert (es + [e])[..|es + [e]| - 1] == es;
  }
}
