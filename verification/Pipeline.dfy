/** What validation promises the queue. */
module Pipeline {
  import opened Bundles
  import opened Validation
  import opened ValidationWindow
  import Q = QueueMachine
  import QueueSafety

  /**
   An accepted bundle, pushed with its window, is a submission with a non-empty window; in every run it is
   changed by a requeue at most once per retry and once per block of the largest range a client may ask for.
   */
  lemma AcceptedWorkIsBounded(env: Env, b: Bundle, currentBlock: nat, c: Q.Config, es: seq<Q.Event>, k: Q.Key)
    requires IsAccepted(env, 0, b, currentBlock) && NestedMaxSet(b)
    requires Q.CanRunWell(c, es) && k in Q.Run(c, Q.INITIAL, es).tracks
    requires var w := ValidateBundle(env, b, currentBlock).value.bundle.inclusion;
             k.maxTargetBlock == w.max && Q.Run(c, Q.INITIAL, es).tracks[k].life.submittedMin == w.block
    ensures var w := ValidateBundle(env, b, currentBlock).value.bundle.inclusion;
            w.block <= w.max && w.max > currentBlock
    ensures Q.Run(c, Q.INITIAL, es).tracks[k].life.moves <= c.maxRetries + MAX_BLOCK_RANGE
  {
    WindowSoundIff(env, b, currentBlock);
    QueueSafety.WorkIsBounded(c, es, k);
  }
}
