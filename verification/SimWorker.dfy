/** What a simulation worker makes of one queue item, and what then reaches the builders. */
module SimWorker {
  import opened Bytes
  import opened Bundles
  import opened RedisQueues
  import Replacement
  import QueueMachine

  /** `unmarshal` reads a stored bundle back; `env` decodes transactions. */
  datatype Worker = Worker(unmarshal: seq<byte> -> Option<Bundle>, env: Env)

  datatype SimResponse = SimResponse(success: bool, error: string, stateBlock: uint64)

  datatype SimAnswer = SimError(timedOut: bool) | Simulated(response: SimResponse)

  /** What the caches and the simulation backend answer during one call; None is an error. */
  datatype Answers = Answers(cancelled: Option<bool>, sim: SimAnswer, replacementNonce: Option<nat>)

  /** The arguments with which SimulatedBundle is called. */
  datatype Delivery = Delivery(shouldCancel: bool, isOld: bool)

  datatype Outcome = Outcome(err: ProcessError, delivery: Option<Delivery>)

  /** uint64 addition and subtraction of one */
  function Next(n: uint64): uint64 {
    (n + 1) % TWO_64
  }

  function Previous(n: uint64): uint64 {
    if n == 0 then TWO_64 - 1 else n - 1
  }

  predicate Contains(s: string, part: string) {
    part <= s || (s != "" && Contains(s[1..], part))
  }

  predicate IsErrorRecoverable(message: string) {
    !Contains(message, "nonce too low")
  }

  predicate IsCancelled(b: Bundle, x: Answers) {
    b.metadata.Some? && x.cancelled == Some(true)
  }

  predicate IsOld(b: Bundle, x: Answers)
    requires b.metadata.Some?
  {
    b.replacementUuid != "" && x.replacementNonce.Some? && x.replacementNonce.value > b.metadata.value.replacementNonce
  }

  /** A later block of the window is left after state block `state`. */
  predicate RoomAfter(b: Bundle, state: uint64) {
    b.inclusion.max != 0 && state != 0 && b.inclusion.max > Next(state)
  }

  const NEXT_BLOCK: ProcessError := Error({ErrProcessScheduleNextBlock})

  function ProcessSimulated(b: Bundle, r: SimResponse, isOld: bool): Outcome {
    if b.replacementUuid != "" && !r.success then
      Outcome(if RoomAfter(b, r.stateBlock) then NEXT_BLOCK else Nil, Some(Delivery(true, isOld)))
    else if !r.success && IsErrorRecoverable(r.error) && RoomAfter(b, r.stateBlock) then
      Outcome(NEXT_BLOCK, None)
    else
      Outcome(if !r.success && !IsErrorRecoverable(r.error) then Error({ErrProcessUnrecoverable}) else Nil,
              Some(Delivery(false, isOld)))
  }

  /** Bundles are stored with their metadata. */
  function Process(w: Worker, data: seq<byte>, target: uint64, x: Answers): Outcome
    requires w.unmarshal(data).Some? ==> w.unmarshal(data).value.metadata.Some?
  {
    match w.unmarshal(data)
    case None => Outcome(Error({}), None)
    case Some(b) =>
      if IsCancelled(b, x) then Outcome(Error({ErrProcessUnrecoverable}), None)
      else
        match x.sim
        case SimError(timedOut) =>
          Outcome(Error({ErrProcessWorkerError} + if timedOut then {DeadlineExceeded} else {}), None)
        case Simulated(r) =>
          if r.stateBlock < Previous(target) then Outcome(Error({ErrLaggingBlock}), None)
          else ProcessSimulated(b, r, IsOld(b, x))
  }

  /** izZeroPriorityFeeTX */
  predicate IsZeroPriorityFeeTx(env: Env, b: Bundle) {
    && |b.body| == 1 && b.body[0].bundle.None? && b.body[0].tx.Some?
    && env.decode(b.body[0].tx.value).Some? && env.decode(b.body[0].tx.value).value.gasTipCap == 0
  }

  /** SimulatedBundle's decision to send to builders. */
  predicate SentToBuilders(env: Env, b: Bundle, r: SimResponse, d: Delivery) {
    !d.isOld && ((r.success && !IsZeroPriorityFeeTx(env, b)) || d.shouldCancel)
  }

  /** A bundle sent to builders, or the cancellation of one, for `block`. */
  datatype Send = Send(block: uint64, cancel: bool)

  /** What one call of the worker sends to builders. */
  function Sent(w: Worker, data: seq<byte>, target: uint64, x: Answers): Option<Send>
    requires w.unmarshal(data).Some? ==> w.unmarshal(data).value.metadata.Some?
  {
    var d := Process(w, data, target, x).delivery;
    if d.Some? && SentToBuilders(w.env, w.unmarshal(data).value, x.sim.response, d.value)
    then Some(Send(Next(x.sim.response.stateBlock), d.value.shouldCancel))
    else None
  }

  predicate OccursAt(s: string, part: string, i: nat) {
    i + |part| <= |s| && s[i..i + |part|] == part
  }

  lemma OccursInTail(s: string, part: string, i: nat)
    requires s != ""
    ensures OccursAt(s[1..], part, i) <==> OccursAt(s, part, i + 1)
  {
    if i + 1 + |part| <= |s| {
      assert s[1..][i..i + |part|] == s[i + 1..i + 1 + |part|];
    }
  }

  lemma {:induction false} ContainsIff(s: string, part: string)
    ensures Contains(s, part) <==> exists i :: OccursAt(s, part, i)
  {
    if part <= s {
      assert OccursAt(s, part, 0);
    } else if s != "" {
      ContainsIff(s[1..], part);
      if i: nat :| OccursAt(s[1..], part, i) {
        OccursInTail(s, part, i);
      }
      if i: nat :| OccursAt(s, part, i) {
        OccursInTail(s, part, i - 1);
      }
    }
  }

  /** The state block is the one before the target, or a later one; block numbers wrap at 2^64. */
  predicate NotBehind(state: uint64, target: uint64) {
    if target == 0 then state == 0xffff_ffff_ffff_ffff else state + 1 >= target
  }

  function After(state: uint64): uint64 {
    if state == 0xffff_ffff_ffff_ffff then 0 else state + 1
  }

  /**
   Exactly which bundles and cancellations reach the builders: read, not cancelled, simulated on a block
   that is not behind, of a nonce not below the counter if that could be read, and either a success that
   is not a lone transaction without tip, or a failure under a replacement id, which cancels.
   */
  lemma SentIff(w: Worker, data: seq<byte>, target: uint64, x: Answers)
    requires w.unmarshal(data).Some? ==> w.unmarshal(data).value.metadata.Some?
    ensures var sent := Sent(w, data, target, x);
            && (sent.Some? <==>
                  && w.unmarshal(data).Some? && x.cancelled != Some(true)
                  && x.sim.Simulated? && NotBehind(x.sim.response.stateBlock, target)
                  && var b := w.unmarshal(data).value;
                     && (b.replacementUuid != "" && x.replacementNonce.Some? ==>
                           x.replacementNonce.value <= b.metadata.value.replacementNonce)
                     && (if x.sim.response.success then
                           !(&& |b.body| == 1 && b.body[0].bundle.None? && b.body[0].tx.Some?
                             && w.env.decode(b.body[0].tx.value).Some?
                             && w.env.decode(b.body[0].tx.value).value.gasTipCap == 0)
                         else b.replacementUuid != ""))
            && (sent.Some? ==> sent.value == Send(After(x.sim.response.stateBlock), !x.sim.response.success))
  {
  }

  /** The message says that a nonce is too low. */
  ghost predicate SaysNonceTooLow(message: string) {
    exists i :: OccursAt(message, "nonce too low", i)
  }

  /** Each verdict of the queue, by what happened. */
  lemma VerdictIff(w: Worker, data: seq<byte>, target: uint64, x: Answers)
    requires w.unmarshal(data).Some? ==> w.unmarshal(data).value.metadata.Some?
    ensures var v := Classify(Process(w, data, target, x).err);
            if w.unmarshal(data).None? then v.Unrecognised?
            else if x.cancelled == Some(true) then v.Unrecoverable?
            else if x.sim.SimError? then v.WorkerFailed?
            else if !NotBehind(x.sim.response.stateBlock, target) then v.Lagging?
            else if x.sim.response.success then v.Succeeded?
            else
              var b, state := w.unmarshal(data).value, x.sim.response.stateBlock;
              var room := b.inclusion.max > 0 && state > 0 && b.inclusion.max > After(state);
              if b.replacementUuid != "" then v == (if room then QueueMachine.NextBlock else QueueMachine.Succeeded)
              else if SaysNonceTooLow(x.sim.response.error) then v.Unrecoverable?
              else v == if room then QueueMachine.NextBlock else QueueMachine.Succeeded
  {
    if x.sim.Simulated? {
      ContainsIff(x.sim.response.error, "nonce too low");
    }
  }

  /** Whether and how a call records its result: not at all if it is tried again, unless it cancels. */
  lemma DeliveryIff(w: Worker, data: seq<byte>, target: uint64, x: Answers)
    requires w.unmarshal(data).Some? ==> w.unmarshal(data).value.metadata.Some?
    ensures var p := Process(w, data, target, x);
            && (p.delivery.Some? <==>
                  && w.unmarshal(data).Some? && x.cancelled != Some(true)
                  && x.sim.Simulated? && NotBehind(x.sim.response.stateBlock, target)
                  && (Classify(p.err).NextBlock? ==> w.unmarshal(data).value.replacementUuid != ""))
            && (p.delivery.Some? ==>
                  var b := w.unmarshal(data).value;
                  && (p.delivery.value.shouldCancel <==> b.replacementUuid != "" && !x.sim.response.success)
                  && (p.delivery.value.isOld <==>
                        && b.replacementUuid != "" && x.replacementNonce.Some?
                        && x.replacementNonce.value > b.metadata.value.replacementNonce))
  {
  }

  /** The next block is asked for only if the window has one, unless the state block is the largest uint64. */
  lemma NextBlockHasRoom(w: Worker, data: seq<byte>, target: uint64, x: Answers)
    requires w.unmarshal(data).Some? ==> w.unmarshal(data).value.metadata.Some?
    requires Process(w, data, target, x).err == NEXT_BLOCK
    ensures w.unmarshal(data).Some? && x.sim.Simulated?
    ensures x.sim.response.stateBlock != TWO_64 - 1 ==> 1 <= target < w.unmarshal(data).value.inclusion.max
  {
  }

  /** A window that ends at the target block, and a backend that reports the largest state block. */
  lemma NextBlockWithoutRoom(b: Bundle, target: uint64)
    requires b.metadata.Some? && b.replacementUuid == "" && b.inclusion.max == target > 0
    ensures var w := Worker(_ => Some(b), Env(_ => None, _ => 0, _ => 0));
            var x := Answers(Some(false), Simulated(SimResponse(false, "", TWO_64 - 1)), None);
            Process(w, [], target, x).err == NEXT_BLOCK
  {
  }

  /** A send is for the target block or later; it is still in the window exactly if the state block was not at its end. */
  lemma SendBlockBounds(w: Worker, data: seq<byte>, target: uint64, x: Answers)
    requires w.unmarshal(data).Some? ==> w.unmarshal(data).value.metadata.Some?
    requires Sent(w, data, target, x).Some?
    ensures x.sim.Simulated? && w.unmarshal(data).Some?
    ensures var state, block := x.sim.response.stateBlock, Sent(w, data, target, x).value.block;
            state != TWO_64 - 1 ==>
              block >= target && (block <= w.unmarshal(data).value.inclusion.max <==> state < w.unmarshal(data).value.inclusion.max)
  {
  }

  /** A success simulated on the last block of the window is sent for the block after it. */
  lemma SendPastWindow(w: Worker, data: seq<byte>, target: uint64)
    requires w.unmarshal(data).Some? && w.unmarshal(data).value.metadata.Some?
    requires w.unmarshal(data).value.replacementUuid == "" && !IsZeroPriorityFeeTx(w.env, w.unmarshal(data).value)
    requires 0 < target <= w.unmarshal(data).value.inclusion.max < TWO_64 - 1
    ensures var max := w.unmarshal(data).value.inclusion.max;
            var x := Answers(Some(false), Simulated(SimResponse(true, "", max)), None);
            Sent(w, data, target, x) == Some(Send(max + 1, false))
  {
  }

  /** A result that is tried again is neither recorded nor sent, unless it cancels the bundle. */
  lemma RetriedFailuresAreSilent(w: Worker, data: seq<byte>, target: uint64, x: Answers)
    requires w.unmarshal(data).Some? ==> w.unmarshal(data).value.metadata.Some?
    ensures var p := Process(w, data, target, x);
            && (p.delivery.Some? && p.err == NEXT_BLOCK ==> p.delivery.value.shouldCancel)
            && (Classify(p.err).Lagging? || Classify(p.err).WorkerFailed? ==> p.delivery.None?)
  {
  }

  /**
   With a readable counter, what a call simulates in time under a replacement id is sent exactly when it is
   the latest submission under that id as the call reads the counter, save a success without tip.
   */
  lemma SentExactlyIfLatest(w: Worker, data: seq<byte>, target: uint64, x: Answers, es: seq<Replacement.Event>, k: string)
    requires w.unmarshal(data).Some? && w.unmarshal(data).value.metadata.Some?
    requires w.unmarshal(data).value.replacementUuid != ""
    requires Replacement.CanRun(es) && Replacement.AllSound(es, k)
    requires var s := Replacement.Run(es);
             && k in s.counters && x.replacementNonce == Some(s.counters[k])
             && (k, w.unmarshal(data).value.metadata.value.replacementNonce) in s.issued
    requires x.cancelled != Some(true) && x.sim.Simulated? && NotBehind(x.sim.response.stateBlock, target)
    ensures var b := w.unmarshal(data).value;
            Sent(w, data, target, x).Some? <==>
              && b.metadata.value.replacementNonce == Replacement.Run(es).counters[k]
              && (x.sim.response.success ==> !IsZeroPriorityFeeTx(w.env, b))
  {
    var n := w.unmarshal(data).value.metadata.value.replacementNonce;
    Replacement.OnlyLatestPasses(es, k, n);
    SentIff(w, data, target, x);
  }

  /** What is sent in any case was the latest as the call read the counter. */
  lemma SentWasLatestWhenChecked(w: Worker, data: seq<byte>, target: uint64, x: Answers, es: seq<Replacement.Event>, k: string)
    requires w.unmarshal(data).Some? && w.unmarshal(data).value.metadata.Some?
    requires w.unmarshal(data).value.replacementUuid != ""
    requires Replacement.CanRun(es) && Replacement.AllSound(es, k)
    requires var s := Replacement.Run(es);
             && k in s.counters && x.replacementNonce == Some(s.counters[k])
             && (k, w.unmarshal(data).value.metadata.value.replacementNonce) in s.issued
    ensures Sent(w, data, target, x).Some? ==>
              w.unmarshal(data).value.metadata.value.replacementNonce == Replacement.Run(es).counters[k]
  {
    var n := w.unmarshal(data).value.metadata.value.replacementNonce;
    Replacement.OnlyLatestPasses(es, k, n);
  }
}
