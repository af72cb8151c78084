/**
 The queue object, with the sorted set as Redis holds it: packed bytes and scores.

 Each method performs one call of the source from start to finish. Beside the real fields the object
 keeps the machine state that the calls so far lead to. Its trace is a serial run of the machine, and
 a well submitted one as long as every push asks for a non-empty window under a new key; theorems
 about runs are then theorems about the object.
 */
module RedisQueues {
  import opened Bytes
  import opened PackedItem
  import opened QueueMachine
  import opened QueueCalls
  import opened QueueSerial
  import opened QueueSafety
  import opened QueueCapacity

  type Zset = map<seq<byte>, nat>

  // Packed members

  function EncodeMember(m: Member): seq<byte> {
    Packed(ItemOf(m, 0))
  }

  function DecodeMember(bs: seq<byte>): Member
    requires |bs| >= HEADER
  {
    MemberOf(UnpackData(0, bs).args)
  }

  lemma EncodeOfItem(a: PackArgs)
    ensures EncodeMember(MemberOf(a)) == Packed(a)
  {
  }

  lemma DecodeOfEncode(m: Member)
    ensures |EncodeMember(m)| >= HEADER && DecodeMember(EncodeMember(m)) == m
  {
    UnpackOfPacked(ItemOf(m, 0));
    Float64ExactUpTo53Bits(0);
  }

  lemma EncodeInjective(m: Member, m': Member)
    requires EncodeMember(m) == EncodeMember(m')
    ensures m == m'
  {
    DecodeOfEncode(m);
    DecodeOfEncode(m');
  }

  type Encoding = Member -> seq<byte>

  ghost predicate Injective(enc: Encoding) {
    forall m, m' :: enc(m) == enc(m') ==> m == m'
  }

  lemma PackingIsInjective()
    ensures Injective(EncodeMember)
  {
    forall m, m' | EncodeMember(m) == EncodeMember(m')
      ensures m == m'
    {
      EncodeInjective(m, m');
    }
  }

  /** The sorted set in Redis holds exactly the encoded members of `queue`, with their scores. */
  ghost predicate Represents(z: Zset, queue: SortedSet, enc: Encoding) {
    && (forall m :: m in queue ==> enc(m) in z && z[enc(m)] == queue[m])
    && (forall bs :: bs in z ==> exists m :: m in queue && enc(m) == bs)
  }

  lemma RepresentsAdd(z: Zset, queue: SortedSet, enc: Encoding, added: Member, score: uint64)
    requires Injective(enc) && Represents(z, queue, enc)
    ensures Represents(z[enc(added) := score], queue[added := score], enc)
  {
    var z', queue' := z[enc(added) := score], queue[added := score];
    forall bs | bs in z'
      ensures exists m :: m in queue' && enc(m) == bs
    {
      if bs == enc(added) {
        assert added in queue';
      } else {
        var m :| m in queue && enc(m) == bs;
        assert m in queue';
      }
    }
  }

  lemma RepresentsRemove(z: Zset, queue: SortedSet, enc: Encoding, removed: Member)
    requires Injective(enc) && Represents(z, queue, enc) && removed in queue
    ensures Represents(z - {enc(removed)}, queue - {removed}, enc)
  {
    var z', queue' := z - {enc(removed)}, queue - {removed};
    forall bs | bs in z'
      ensures exists m :: m in queue' && enc(m) == bs
    {
      var m :| m in queue && enc(m) == bs;
      assert m in queue';
    }
  }

  lemma {:induction false} EncodedSize(enc: Encoding, ms: set<Member>)
    requires Injective(enc)
    ensures |set m | m in ms :: enc(m)| == |ms|
    decreases |ms|
  {
    var image := set m | m in ms :: enc(m);
    if ms == {} {
      assert image == {};
    } else {
      var a :| a in ms;
      var rest := set m | m in ms - {a} :: enc(m);
      EncodedSize(enc, ms - {a});
      assert image == rest + {enc(a)};
    }
  }

  function ZCountUpTo(z: Zset, bound: nat): nat {
    |set bs | bs in z && z[bs] <= bound|
  }

  function ZCountFrom(z: Zset, bound: nat): nat {
    |set bs | bs in z && z[bs] >= bound|
  }

  lemma CountsAgree(z: Zset, queue: SortedSet, enc: Encoding, bound: nat)
    requires Injective(enc) && Represents(z, queue, enc)
    ensures ZCountUpTo(z, bound) == CountUpTo(queue, bound)
    ensures ZCountFrom(z, bound) == CountFrom(queue, bound)
  {
    var low := set m | m in queue && queue[m] <= bound;
    EncodedSize(enc, low);
    assert (set bs | bs in z && z[bs] <= bound) == set m | m in low :: enc(m);
    var high := set m | m in queue && queue[m] >= bound;
    EncodedSize(enc, high);
    assert (set bs | bs in z && z[bs] >= bound) == set m | m in high :: enc(m);
  }

  /** Every member is counted on one side of a bound. */
  lemma CountsSplit(z: Zset, bound: nat)
    ensures ZCountUpTo(z, bound) + ZCountFrom(z, bound + 1) == |z|
  {
    var low, high := set bs | bs in z && z[bs] <= bound, set bs | bs in z && z[bs] >= bound + 1;
    assert low !! high && low + high == z.Keys;
    assert |z| == |z.Keys|;
  }

  // The minimum

  /** Block numbers that are exact as scores, and a timestamp that is not before 1970. */
  predicate InRange(a: PackArgs) {
    a.minTargetBlock <= TWO_53 && a.maxTargetBlock <= TWO_53 && a.timestamp >= 0
  }

  ghost predicate AllInRange(queue: SortedSet) {
    forall m :: m in queue ==> InRange(ItemOf(m, queue[m]))
  }

  /** Redis pops the member with the least score, ties broken by the bytes. */
  predicate IsMinimum(z: Zset, bs: seq<byte>) {
    bs in z && forall bs' :: bs' in z && bs' != bs ==> SortedSetLess(z[bs], bs, z[bs'], bs')
  }

  lemma SortedSetTransitive(s1: nat, b1: seq<byte>, s2: nat, b2: seq<byte>, s3: nat, b3: seq<byte>)
    requires SortedSetLess(s1, b1, s2, b2) && SortedSetLess(s2, b2, s3, b3)
    ensures SortedSetLess(s1, b1, s3, b3)
  {
    if s1 == s2 == s3 {
      LexTransitive(b1, b2, b3);
    }
  }

  lemma {:induction false} MinimumExists(z: Zset)
    requires z != map[]
    ensures exists bs :: IsMinimum(z, bs)
    decreases |z|
  {
    var x :| x in z;
    var rest := z - {x};
    assert |rest.Keys| < |z.Keys| by { assert rest.Keys == z.Keys - {x}; }
    if rest == map[] {
      assert z.Keys == {x};
      assert IsMinimum(z, x);
    } else {
      MinimumExists(rest);
      var y :| IsMinimum(rest, y);
      forall bs' | bs' in z && bs' != x && bs' != y
        ensures SortedSetLess(z[y], y, z[bs'], bs')
      {
        assert bs' in rest && SortedSetLess(rest[y], y, rest[bs'], bs');
      }
      LexTrichotomy(x, y);
      if SortedSetLess(z[x], x, z[y], y) {
        forall bs' | bs' in z && bs' != x
          ensures SortedSetLess(z[x], x, z[bs'], bs')
        {
          if bs' != y {
            SortedSetTransitive(z[x], x, z[y], y, z[bs'], bs');
          }
        }
        assert IsMinimum(z, x);
      } else {
        assert IsMinimum(z, y);
      }
    }
  }

  /** The member that Redis pops is the first queued item in the documented order. */
  lemma MinimumIsFirst(z: Zset, queue: SortedSet, m: Member)
    requires Represents(z, queue, EncodeMember) && AllInRange(queue)
    requires m in queue && IsMinimum(z, EncodeMember(m))
    ensures IsFirst(queue, m)
  {
    forall m' | m' in queue && m' != m
      ensures ScheduledBefore(ItemOf(m, queue[m]), ItemOf(m', queue[m']))
    {
      if EncodeMember(m') == EncodeMember(m) {
        EncodeInjective(m, m');
      }
      assert SortedSetLess(z[EncodeMember(m)], EncodeMember(m), z[EncodeMember(m')], EncodeMember(m'));
      MemberScheduledBefore(m, queue[m], m', queue[m']);
    }
  }

  lemma MemberScheduledBefore(m: Member, score: uint64, m': Member, score': uint64)
    requires InRange(ItemOf(m, score)) && InRange(ItemOf(m', score'))
    requires SortedSetLess(score, EncodeMember(m), score', EncodeMember(m'))
    ensures ScheduledBefore(ItemOf(m, score), ItemOf(m', score'))
  {
    var a, a' := ItemOf(m, score), ItemOf(m', score');
    EncodeOfItem(a);
    EncodeOfItem(a');
    SortedSetOrderIsSchedulingOrder(a, a');
    Float64ExactUpTo53Bits(score);
    Float64ExactUpTo53Bits(score');
  }

  /** Unpacking what Redis returns yields the queued item. */
  lemma UnpackMember(m: Member, score: uint64)
    requires score <= TWO_53
    ensures UnpackData(score, EncodeMember(m)) == Unpacked(ItemOf(m, score))
  {
    var a := ItemOf(m, score);
    EncodeOfItem(a);
    UnpackOfPacked(a);
    Float64ExactUpTo53Bits(score);
  }

  /** What Redis removes as its minimum is the packed form of the first queued item. */
  lemma PoppedMember(z: Zset, queue: SortedSet, value: seq<byte>) returns (member: Member)
    requires Represents(z, queue, EncodeMember) && AllInRange(queue) && IsMinimum(z, value)
    ensures IsFirst(queue, member) && EncodeMember(member) == value
    ensures UnpackData(z[value], value) == Unpacked(ItemOf(member, queue[member]))
    ensures Represents(z - {value}, queue - {member}, EncodeMember)
  {
    member :| member in queue && EncodeMember(member) == value;
    MinimumIsFirst(z, queue, member);
    assert InRange(ItemOf(member, queue[member]));
    UnpackMember(member, queue[member]);
    PackingIsInjective();
    RepresentsRemove(z, queue, EncodeMember, member);
  }

  // Admission on packed bytes

  predicate ZAccepts(c: Config, z: Zset, block: nat, a: PackArgs) {
    Admissible(c, a, block + 1, ZCountUpTo(z, block + 1), ZCountFrom(z, block + 2))
  }

  function ZWithItem(c: Config, z: Zset, block: nat, a: PackArgs): Zset {
    if ZAccepts(c, z, block, a) then z[Packed(a) := Score(a)] else z
  }

  /** Admission in the configured limits: processable items count against one pair, later ones against the other. */
  lemma AcceptsIff(c: Config, z: Zset, block: nat, a: PackArgs)
    ensures var processable := |set bs | bs in z && z[bs] <= block + 1|;
            var unprocessable := |set bs | bs in z && z[bs] > block + 1|;
            ZAccepts(c, z, block, a) <==>
              && (a.minTargetBlock <= block + 1 && a.highPriority ==> processable < c.maxProcessableHigh)
              && (a.minTargetBlock <= block + 1 && !a.highPriority ==> processable < c.maxProcessableLow)
              && (a.minTargetBlock > block + 1 && a.highPriority ==> unprocessable < c.maxUnprocessableHigh)
              && (a.minTargetBlock > block + 1 && !a.highPriority ==> unprocessable < c.maxUnprocessableLow)
  {
    assert (set bs | bs in z && z[bs] > block + 1) == set bs | bs in z && z[bs] >= block + 2;
  }

  /** An added member raises the count below, or above, a bound by one at most. */
  lemma CountsAfterAdd(z: Zset, value: seq<byte>, score: nat, bound: nat)
    ensures var z' := z[value := score];
            && |set bs | bs in z' && z'[bs] <= bound| <= |set bs | bs in z && z[bs] <= bound| + 1
            && |set bs | bs in z' && z'[bs] > bound| <= |set bs | bs in z && z[bs] > bound| + 1
  {
    var z' := z[value := score];
    SubsetPlusOneSize((set bs | bs in z' && z'[bs] <= bound), (set bs | bs in z && z[bs] <= bound), value);
    SubsetPlusOneSize((set bs | bs in z' && z'[bs] > bound), (set bs | bs in z && z[bs] > bound), value);
  }

  lemma WithItemRepresents(c: Config, z: Zset, queue: SortedSet, enc: Encoding, block: nat, a: PackArgs)
    requires Injective(enc) && Represents(z, queue, enc) && AllInRange(queue) && InRange(a)
    ensures ZAccepts(c, z, block, a) == Accepts(c, queue, block, a)
    ensures ZAccepts(c, z, block, a) ==>
              Represents(z[enc(MemberOf(a)) := a.minTargetBlock], WithItem(c, queue, block, a), enc)
    ensures AllInRange(WithItem(c, queue, block, a))
  {
    hide Represents, Injective;
    CountsAgree(z, queue, enc, block + 1);
    CountsAgree(z, queue, enc, block + 2);
    RepresentsAdd(z, queue, enc, MemberOf(a), a.minTargetBlock);
    assert ItemOf(MemberOf(a), a.minTargetBlock) == a;
  }

  lemma ZWithItemRepresents(c: Config, z: Zset, queue: SortedSet, block: nat, a: PackArgs)
    requires Represents(z, queue, EncodeMember) && AllInRange(queue) && InRange(a)
    ensures ZAccepts(c, z, block, a) == Accepts(c, queue, block, a)
    ensures Represents(ZWithItem(c, z, block, a), WithItem(c, queue, block, a), EncodeMember)
    ensures AllInRange(WithItem(c, queue, block, a))
  {
    PackingIsInjective();
    WithItemRepresents(c, z, queue, EncodeMember, block, a);
    Float64ExactUpTo53Bits(a.minTargetBlock);
    EncodeOfItem(a);
  }

  lemma TurnInRange(c: Config, a: PackArgs, block: nat, v: Verdict)
    requires InRange(a)
    ensures TurnRetry(c, a, block, v).Again? ==> InRange(TurnRetry(c, a, block, v).item)
  {
  }

  datatype QueueError =
    | NoError | ErrBlockNumberIncorrect | ErrStaleItem | ErrQueueFull
    | ErrMaxRetriesReached | ErrNoNextBlock | ErrRequeueFailed | ErrFromProcess

  /** The sentinel errors that processNextItem looks for in the process function's error. */
  datatype Sentinel =
    | DeadlineExceeded | ErrProcessWorkerError | ErrProcessScheduleNextBlock | ErrLaggingBlock | ErrProcessUnrecoverable

  /** An error matches every sentinel that was joined into it; no error matches none. */
  datatype ProcessError = Nil | Error(matches: set<Sentinel>)

  function Classify(err: ProcessError): Verdict {
    match err
    case Nil => Succeeded
    case Error(matches) =>
      if DeadlineExceeded in matches || ErrProcessWorkerError in matches then WorkerFailed
      else if ErrProcessScheduleNextBlock in matches then NextBlock
      else if ErrLaggingBlock in matches then Lagging
      else if ErrProcessUnrecoverable in matches then Unrecoverable
      else Unrecognised
  }

  /** What retryItem reports. */
  function RetryError(c: Config, z: Zset, block: nat, retry: Retry): QueueError {
    match retry
    case Drop(NoNextBlock) => ErrNoNextBlock
    case Drop(_) => ErrMaxRetriesReached
    case Again(a) => if ZAccepts(c, z, block, a) then NoError else ErrRequeueFailed
  }

  function ZWithRetry(c: Config, z: Zset, block: nat, retry: Retry): Zset {
    if retry.Again? then ZWithItem(c, z, block, retry.item) else z
  }

  /** What processNextItem reports for the popped item `a`. */
  function TurnError(c: Config, z: Zset, block: nat, a: PackArgs, err: ProcessError): QueueError {
    match InspectItem(c, a, block + 1)
    case Requeue(Drop(Stale)) => NoError
    case Requeue(retry) => RetryError(c, z, block, retry)
    case Process =>
      if Classify(err).Unrecoverable? then NoError
      else if Classify(err).Unrecognised? then ErrFromProcess
      else
        var reported := RetryError(c, z, block, AfterVerdict(c, a, Classify(err)));
        if err.Nil? && reported.ErrNoNextBlock? then NoError else reported
  }

  /** Which joined errors lead to which verdict: an error may match several sentinels, and earlier tests win. */
  lemma ClassifyIff(err: ProcessError)
    ensures Classify(err).Succeeded? <==> err.Nil?
    ensures Classify(err).WorkerFailed? <==> err.Error? && err.matches * {DeadlineExceeded, ErrProcessWorkerError} != {}
    ensures Classify(err).NextBlock? <==>
              && err.Error? && ErrProcessScheduleNextBlock in err.matches
              && err.matches <= {ErrProcessScheduleNextBlock, ErrLaggingBlock, ErrProcessUnrecoverable}
    ensures Classify(err).Lagging? <==>
              err.Error? && ErrLaggingBlock in err.matches && err.matches <= {ErrLaggingBlock, ErrProcessUnrecoverable}
    ensures Classify(err).Unrecoverable? <==> err == Error({ErrProcessUnrecoverable})
    ensures Classify(err).Unrecognised? <==> err == Error({})
  {
    if err.Error? {
      assert DeadlineExceeded in err.matches ==> DeadlineExceeded in err.matches * {DeadlineExceeded, ErrProcessWorkerError};
      assert ErrProcessWorkerError in err.matches ==> ErrProcessWorkerError in err.matches * {DeadlineExceeded, ErrProcessWorkerError};
      forall x | x in err.matches
        ensures x in {DeadlineExceeded, ErrProcessWorkerError, ErrProcessScheduleNextBlock, ErrLaggingBlock, ErrProcessUnrecoverable}
      {
        match x
        case DeadlineExceeded =>
        case ErrProcessWorkerError =>
        case ErrProcessScheduleNextBlock =>
        case ErrLaggingBlock =>
        case ErrProcessUnrecoverable =>
      }
    }
  }

  /** The error that a worker's turn returns, for any item and any answer. */
  lemma TurnErrorIff(c: Config, z: Zset, block: nat, a: PackArgs, err: ProcessError)
    ensures var next, r := block + 1, TurnError(c, z, block, a, err);
            var called := a.minTargetBlock == next;
            var stale := next > a.minTargetBlock && next > a.maxTargetBlock;
            var asksAgain := if called then err != Error({ErrProcessUnrecoverable}) && err != Error({}) else !stale;
            && (r == ErrFromProcess <==> called && err == Error({}))
            && (r == ErrMaxRetriesReached <==> asksAgain && a.iteration >= c.maxRetries)
            && (r == ErrNoNextBlock <==>
                  called && Classify(err).NextBlock? && a.iteration < c.maxRetries && a.minTargetBlock >= a.maxTargetBlock)
            && (r == ErrRequeueFailed <==>
                  && asksAgain && TurnRetry(c, a, block, Classify(err)).Again?
                  && !ZAccepts(c, z, block, TurnRetry(c, a, block, Classify(err)).item))
            && r in {NoError, ErrFromProcess, ErrMaxRetriesReached, ErrNoNextBlock, ErrRequeueFailed}
  {
    ClassifyIff(err);
  }

  /** The thread that performs the calls. */
  const CALLER: Tid := 0

  class RedisQueue {
    const config: Config
    var currentBlock: nat
    var zset: Zset
    ghost var st: State
    ghost var trace: seq<Event>

    ghost predicate OnTrace()
      reads this
    {
      CanRun(config, INITIAL, trace) && st == Run(config, INITIAL, trace) && Serial(CALLER, trace)
    }

    /** Every push so far asked for a non-empty window under a new key. */
    ghost predicate WellUsed()
      reads this
    {
      CanRunWell(config, trace)
    }

    ghost predicate Valid()
      reads this
    {
      && currentBlock == st.block && st.threads == map[]
      && Represents(zset, st.queue, EncodeMember)
      && AllInRange(st.queue)
      && OnTrace()
    }

    constructor (config: Config)
      ensures Valid() && this.config == config
      ensures currentBlock == 0 && zset == map[]
      ensures st == INITIAL && WellUsed()
    {
      this.config := config;
      currentBlock := 0;
      zset := map[];
      st := INITIAL;
      trace := [];
    }

    /** Record that the machine went through `es`. */
    ghost method Follow(es: seq<Event>)
      requires OnTrace() && CanRun(config, st, es) && Serial(CALLER, es)
      modifies `st, `trace
      ensures OnTrace()
      ensures st == Run(config, old(st), es)
      ensures old(WellUsed()) && (NoSubmits(es) || WellPushed(old(st), es)) ==> WellUsed()
    {
      RunConcat(config, INITIAL, trace, es);
      if WellUsed() {
        if NoSubmits(es) {
          WellWithoutSubmit(config, trace, es);
        } else if WellPushed(st, es) {
          WellPush(config, trace, es);
        }
      }
      st := Run(config, st, es);
      trace := trace + es;
    }

    ghost method Act(e: Event)
      requires OnTrace() && Enabled(config, st, e) && Serial(CALLER, [e])
      modifies `st, `trace
      ensures OnTrace() && st == Apply(config, old(st), e)
      ensures old(WellUsed()) && WellSubmitted(old(st), e) ==> WellUsed()
    {
      RunAppend(config, st, [], e);
      assert [] + [e] == [e] && [e][1..] == [];
      Follow([e]);
    }

    method UpdateBlock(block: nat) returns (err: QueueError)
      requires Valid()
      modifies this
      ensures Valid() && (old(WellUsed()) ==> WellUsed())
      ensures zset == old(zset) && st.queue == old(st.queue)
      ensures currentBlock == if old(currentBlock) < block then block else old(currentBlock)
      ensures err == if block < old(currentBlock) then ErrBlockNumberIncorrect else NoError
    {
      var current := currentBlock;
      if current == block {
        return NoError;
      }
      if current > block {
        return ErrBlockNumberIncorrect;
      }
      currentBlock := block;
      Act(AdvanceBlock(block));
      err := NoError;
    }

    method QueuedItems() returns (processable: nat, unprocessable: nat)
      ensures processable == ZCountUpTo(zset, currentBlock + 1)
      ensures unprocessable == ZCountFrom(zset, currentBlock + 2)
      ensures processable + unprocessable == |zset|
    {
      var nextBlock := currentBlock + 1;
      processable := ZCountUpTo(zset, nextBlock);
      unprocessable := ZCountFrom(zset, nextBlock + 1);
      CountsSplit(zset, nextBlock);
    }

    method PushToQueue(args: PackArgs) returns (err: QueueError)
      modifies `zset
      ensures zset == ZWithItem(config, old(zset), currentBlock, args)
      ensures err == if ZAccepts(config, old(zset), currentBlock, args) then NoError else ErrQueueFull
      // in the limits themselves
      ensures var processable := |set bs | bs in old(zset) && old(zset)[bs] <= currentBlock + 1|;
              var unprocessable := |set bs | bs in old(zset) && old(zset)[bs] > currentBlock + 1|;
              err == NoError <==>
                && (args.minTargetBlock <= currentBlock + 1 && args.highPriority ==> processable < config.maxProcessableHigh)
                && (args.minTargetBlock <= currentBlock + 1 && !args.highPriority ==> processable < config.maxProcessableLow)
                && (args.minTargetBlock > currentBlock + 1 && args.highPriority ==> unprocessable < config.maxUnprocessableHigh)
                && (args.minTargetBlock > currentBlock + 1 && !args.highPriority ==> unprocessable < config.maxUnprocessableLow)
      ensures zset == if err == NoError then old(zset)[Packed(args) := Score(args)] else old(zset)
      // an add leaves no more than the limit it was held against
      ensures var processable := |set bs | bs in zset && zset[bs] <= currentBlock + 1|;
              var unprocessable := |set bs | bs in zset && zset[bs] > currentBlock + 1|;
              err == NoError ==>
                && (args.minTargetBlock <= currentBlock + 1 && args.highPriority ==> processable <= config.maxProcessableHigh)
                && (args.minTargetBlock <= currentBlock + 1 && !args.highPriority ==> processable <= config.maxProcessableLow)
                && (args.minTargetBlock > currentBlock + 1 && args.highPriority ==> unprocessable <= config.maxUnprocessableHigh)
                && (args.minTargetBlock > currentBlock + 1 && !args.highPriority ==> unprocessable <= config.maxUnprocessableLow)
    {
      AcceptsIff(config, zset, currentBlock, args);
      CountsAfterAdd(zset, Packed(args), Score(args), currentBlock + 1);
      var processable, unprocessable := QueuedItems();
      var nextBlock := currentBlock + 1;
      var canProcessItem := args.minTargetBlock <= nextBlock;
      if canProcessItem {
        var threshold := config.maxProcessableLow;
        if args.highPriority {
          threshold := config.maxProcessableHigh;
        }
        if processable >= threshold {
          return ErrQueueFull;
        }
      } else {
        var threshold := config.maxUnprocessableLow;
        if args.highPriority {
          threshold := config.maxUnprocessableHigh;
        }
        if unprocessable >= threshold {
          return ErrQueueFull;
        }
      }
      var score, redisData := PackData(args);
      zset := zset[redisData[..] := score];
      err := NoError;
    }

    method Push(data: seq<byte>, highPriority: bool, minTargetBlock: uint64, maxTargetBlock: uint64, now: int64)
        returns (err: QueueError)
      requires Valid()
      requires minTargetBlock <= TWO_53 && maxTargetBlock <= TWO_53 && now >= 0
      modifies this
      ensures Valid() && currentBlock == old(currentBlock)
      ensures minTargetBlock <= maxTargetBlock && Key(highPriority, now, maxTargetBlock, data) !in old(st.tracks) ==>
                old(WellUsed()) ==> WellUsed()
      ensures maxTargetBlock <= currentBlock ==> err == ErrStaleItem && zset == old(zset)
      ensures maxTargetBlock > currentBlock ==>
                var a := Clamped(data, highPriority, minTargetBlock, maxTargetBlock, now, currentBlock);
                && zset == ZWithItem(config, old(zset), currentBlock, a)
                && st.queue == WithItem(config, old(st.queue), currentBlock, a)
                && err == if ZAccepts(config, old(zset), currentBlock, a) then NoError else ErrQueueFull
      // in the limits themselves
      ensures var processable := |set bs | bs in old(zset) && old(zset)[bs] <= currentBlock + 1|;
              var unprocessable := |set bs | bs in old(zset) && old(zset)[bs] > currentBlock + 1|;
              err == NoError <==>
                && maxTargetBlock > currentBlock
                && (minTargetBlock <= currentBlock + 1 && highPriority ==> processable < config.maxProcessableHigh)
                && (minTargetBlock <= currentBlock + 1 && !highPriority ==> processable < config.maxProcessableLow)
                && (minTargetBlock > currentBlock + 1 && highPriority ==> unprocessable < config.maxUnprocessableHigh)
                && (minTargetBlock > currentBlock + 1 && !highPriority ==> unprocessable < config.maxUnprocessableLow)
      ensures err != NoError ==> err == (if maxTargetBlock <= currentBlock then ErrStaleItem else ErrQueueFull) && zset == old(zset)
      ensures err == NoError ==>
                var a := PackArgs(data, if minTargetBlock <= currentBlock then currentBlock + 1 else minTargetBlock,
                                  maxTargetBlock, highPriority, now, 0);
                zset == old(zset)[Packed(a) := Score(a)]
    {
      hide Represents, AllInRange, CanRun, Run, CanRunWell;
      ghost var submit := Submit(CALLER, data, highPriority, minTargetBlock, maxTargetBlock, now);
      if maxTargetBlock <= currentBlock {
        Act(submit);
        return ErrStaleItem;
      }
      var min := minTargetBlock;
      if min < currentBlock + 1 {
        min := currentBlock + 1;
      }
      var args := PackArgs(data, min, maxTargetBlock, highPriority, now, 0);
      AcceptsIff(config, zset, currentBlock, args);
      ghost var es := PushRun(config, st, submit);
      err := PushAndFollow(args, es);
    }

    /** Push the item and record the run that does so. */
    method PushAndFollow(args: PackArgs, ghost es: seq<Event>) returns (err: QueueError)
      requires Valid() && InRange(args) && CanRun(config, st, es) && Serial(CALLER, es)
      requires SameButQueue(st, Run(config, st, es), WithItem(config, st.queue, st.block, args))
      modifies this
      ensures Valid() && currentBlock == old(currentBlock)
      ensures old(WellUsed()) && WellPushed(old(st), es) ==> WellUsed()
      ensures zset == ZWithItem(config, old(zset), currentBlock, args)
      ensures st.queue == WithItem(config, old(st.queue), currentBlock, args)
      ensures err == if ZAccepts(config, old(zset), currentBlock, args) then NoError else ErrQueueFull
    {
      hide Represents, AllInRange, CanRun, Run;
      ZWithItemRepresents(config, zset, st.queue, currentBlock, args);
      err := PushToQueue(args);
      Follow(es);
    }

    /** Redis removes and returns the minimum; none when the set is empty. */
    method PopFromQueue() returns (args: Unpacked, ghost member: Member)
      requires Valid()
      modifies `zset
      ensures args.InvalidPackedData? <==> old(zset) == map[]
      ensures args.InvalidPackedData? ==> zset == old(zset)
      ensures args.Unpacked? ==>
                && IsFirst(st.queue, member)
                && args.args == ItemOf(member, st.queue[member])
                && zset == old(zset) - {EncodeMember(member)}
                && Represents(zset, st.queue - {member}, EncodeMember)
    {
      member := Member(false, 0, 0, 0, []);
      if zset == map[] {
        return InvalidPackedData, member;
      }
      MinimumExists(zset);
      var value :| IsMinimum(zset, value);
      args := UnpackData(zset[value], value);
      member := PoppedMember(zset, st.queue, value);
      zset := zset - {value};
    }

    /** `attempts` is how often the backoff lets the push be tried, once at least. */
    method RetryItem(args: PackArgs, incrIteration: bool, incrBlock: bool, attempts: nat) returns (err: QueueError)
      requires attempts >= 1
      modifies `zset
      ensures var retry := QueueMachine.RetryItem(config, args, incrIteration, incrBlock);
              && zset == ZWithRetry(config, old(zset), currentBlock, retry)
              && err == RetryError(config, old(zset), currentBlock, retry)
    {
      var a := args;
      if a.iteration >= config.maxRetries {
        return ErrMaxRetriesReached;
      }
      if incrIteration {
        a := a.(iteration := a.iteration + 1);
      }
      if incrBlock {
        if a.minTargetBlock >= a.maxTargetBlock {
          return ErrNoNextBlock;
        }
        a := a.(minTargetBlock := a.minTargetBlock + 1);
      }
      var tries := 0;
      err := ErrQueueFull;
      while tries < attempts && err != NoError
        invariant tries <= attempts && (tries == 0 ==> err == ErrQueueFull)
        invariant err == ErrQueueFull || err == NoError
        invariant err == ErrQueueFull ==> zset == old(zset)
        invariant tries > 0 ==> zset == ZWithItem(config, old(zset), currentBlock, a)
        invariant tries > 0 ==> (err == NoError <==> ZAccepts(config, old(zset), currentBlock, a))
        decreases attempts - tries
      {
        err := PushToQueue(a);
        tries := tries + 1;
      }
      if err != NoError {
        err := ErrRequeueFailed;
      }
    }

    /** One turn of a worker whose process function, if it is called, answers `answer`. */
    method ProcessNextItem(answer: ProcessError, attempts: nat) returns (err: QueueError, ghost member: Member)
      requires Valid() && attempts >= 1
      modifies this
      ensures Valid() && currentBlock == old(currentBlock) && (old(WellUsed()) ==> WellUsed())
      ensures old(zset) == map[] ==> err == NoError && zset == old(zset)
      ensures old(zset) != map[] ==>
                && IsFirst(old(st.queue), member)
                && var a := ItemOf(member, old(st.queue)[member]);
                   && st.queue == WithRetry(config, old(st.queue) - {member}, currentBlock,
                                            TurnRetry(config, a, currentBlock, Classify(answer)))
                   && err == TurnError(config, old(zset) - {EncodeMember(member)}, currentBlock, a, answer)
    {
      hide Represents, AllInRange, IsFirst;
      var popped;
      popped, member := PopFromQueue();
      if popped.InvalidPackedData? {
        return NoError, member;
      }
      var args := popped.args;
      ghost var es := TurnRun(config, st, CALLER, member, Classify(answer));
      TurnRepresents(args, member, Classify(answer));
      err := Turn(args, answer, attempts);
      Follow(es);
    }

    lemma TurnRepresents(args: PackArgs, member: Member, v: Verdict)
      requires member in st.queue && args == ItemOf(member, st.queue[member]) && AllInRange(st.queue)
      requires Represents(zset, st.queue - {member}, EncodeMember)
      ensures var retry := TurnRetry(config, args, currentBlock, v);
              var queue := WithRetry(config, st.queue - {member}, currentBlock, retry);
              Represents(ZWithRetry(config, zset, currentBlock, retry), queue, EncodeMember) && AllInRange(queue)
    {
      assert InRange(args);
      TurnInRange(config, args, currentBlock, v);
      var retry := TurnRetry(config, args, currentBlock, v);
      if retry.Again? {
        ZWithItemRepresents(config, zset, st.queue - {member}, currentBlock, retry.item);
      }
    }

    /** processNextItem once the item `args` is popped. */
    method Turn(args: PackArgs, answer: ProcessError, attempts: nat) returns (err: QueueError)
      requires attempts >= 1
      modifies `zset
      ensures zset == ZWithRetry(config, old(zset), currentBlock, TurnRetry(config, args, currentBlock, Classify(answer)))
      ensures err == TurnError(config, old(zset), currentBlock, args, answer)
    {
      var nextBlock := currentBlock + 1;
      if nextBlock < args.minTargetBlock {
        err := RetryItem(args, false, false, attempts);
        return;
      }
      if nextBlock > args.minTargetBlock {
        if nextBlock > args.maxTargetBlock {
          return NoError;
        }
        err := RetryItem(args.(minTargetBlock := nextBlock), false, false, attempts);
        return;
      }
      err := AfterProcess(args, answer, attempts);
    }

    method AfterProcess(args: PackArgs, answer: ProcessError, attempts: nat) returns (err: QueueError)
      requires attempts >= 1 && args.minTargetBlock == currentBlock + 1
      modifies `zset
      ensures zset == ZWithRetry(config, old(zset), currentBlock, AfterVerdict(config, args, Classify(answer)))
      ensures err == TurnError(config, old(zset), currentBlock, args, answer)
    {
      match answer
      case Nil =>
        err := RetryItem(args, true, true, attempts);
        if err == ErrNoNextBlock {
          err := NoError;
        }
      case Error(matches) =>
        if DeadlineExceeded in matches || ErrProcessWorkerError in matches {
          err := RetryItem(args, true, false, attempts);
        } else if ErrProcessScheduleNextBlock in matches {
          err := RetryItem(args, true, true, attempts);
        } else if ErrLaggingBlock in matches {
          err := RetryItem(args, false, false, attempts);
        } else if ErrProcessUnrecoverable in matches {
          err := NoError;
        } else {
          err := ErrFromProcess;
        }
    }

    // Theorems about runs, as theorems about the object

    /** Every member of the sorted set unpacks to an item inside the window it was pushed with. */
    lemma MembersLieInWindows(value: seq<byte>)
      requires Valid() && WellUsed() && value in zset
      ensures var r := UnpackData(zset[value], value);
              && r.Unpacked?
              && KeyOf(r.args) in st.tracks
              && st.tracks[KeyOf(r.args)].life.submittedMin <= r.args.minTargetBlock <= r.args.maxTargetBlock
    {
      ItemsStayInWindow(config, trace);
      var m :| m in st.queue && EncodeMember(m) == value;
      assert InRange(ItemOf(m, st.queue[m]));
      UnpackMember(m, st.queue[m]);
      assert KeyOf(ItemOf(m, st.queue[m])) == MemberKey(m);
    }

    /** However many calls are made, one after the other, items for future blocks never exceed the larger threshold. */
    lemma FutureItemsAreFew()
      requires Valid()
      ensures ZCountFrom(zset, currentBlock + 2) <= Threshold(config)
    {
      hide CanRun, Run, Represents, Injective, CountFrom, ZCountFrom;
      SerialFutureItems(config, CALLER, trace);
      PackingIsInjective();
      CountsAgree(zset, st.queue, EncodeMember, currentBlock + 2);
    }
  }
}
