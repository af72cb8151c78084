/** The bound on items queued for future blocks, under every interleaving. */
module QueueCapacity {
  import opened QueueMachine

  /** Members that cannot be processed on the next block. */
  function Unprocessable(s: State): set<Member> {
    set m | m in s.queue && s.queue[m] >= s.block + 2
  }

  /** Threads between the end of their count and their add. */
  function Window(s: State): set<Tid> {
    set t | t in s.threads && (s.threads[t].Counted? || s.threads[t].Admitted?)
  }

  function Threshold(c: Config): nat {
    if c.maxUnprocessableLow < c.maxUnprocessableHigh then c.maxUnprocessableHigh else c.maxUnprocessableLow
  }

  /** A thread in its window that may still add an unprocessable member. */
  predicate Pending(c: Config, st: Stage, block: nat) {
    || (st.Counted? && st.unprocessable < Threshold(c))
    || (st.Admitted? && st.item.minTargetBlock >= block + 2)
  }

  function PendingThreads(c: Config, s: State): set<Tid> {
    set t | t in s.threads && Pending(c, s.threads[t], s.block)
  }

  /** A block number that a thread has loaded is not ahead of the current one. */
  predicate LoadedInPast(s: State) {
    forall t :: t in s.threads ==>
      (s.threads[t].CountingProcessable? || s.threads[t].CountingUnprocessable?) ==> s.threads[t].next <= s.block + 1
  }

  ghost predicate Bounded(c: Config, s: State, n: nat) {
    && LoadedInPast(s)
    && |Unprocessable(s)| + |PendingThreads(c, s)| <= Threshold(c) + n - 1
  }

  lemma {:induction false} SubsetSize<T>(a: set<T>, b: set<T>)
    requires a <= b
    ensures |a| <= |b|
  {
    if a != {} {
      var x :| x in a;
      SubsetSize(a - {x}, b - {x});
    }
  }

  lemma SubsetPlusOneSize<T>(a: set<T>, b: set<T>, x: T)
    requires a <= b + {x}
    ensures |a| <= |b| + 1
  {
    SubsetSize(a, b + {x});
  }

  lemma PendingIsInWindow(c: Config, s: State)
    ensures |PendingThreads(c, s)| <= |Window(s)|
  {
    SubsetSize(PendingThreads(c, s), Window(s));
  }

  /** The count of unprocessable items that a thread takes is not below the true one. */
  lemma CountCovers(c: Config, s: State, t: Tid)
    requires LoadedInPast(s) && t in s.threads && s.threads[t].CountingUnprocessable?
    ensures |Unprocessable(s)| <= CountFrom(s.queue, s.threads[t].next + 1)
  {
    SubsetSize(Unprocessable(s), set m | m in s.queue && s.queue[m] >= s.threads[t].next + 1);
  }

  lemma LoadedStaysInPast(c: Config, s: State, e: Event)
    requires LoadedInPast(s) && Enabled(c, s, e)
    ensures LoadedInPast(Apply(c, s, e))
  {
  }

  lemma CountKeeps(c: Config, s: State, t: Tid, n: nat)
    requires Bounded(c, s, n) && Enabled(c, s, CountUnprocessable(t))
    requires |Window(Apply(c, s, CountUnprocessable(t)))| <= n
    ensures Bounded(c, Apply(c, s, CountUnprocessable(t)), n)
  {
    var s' := Apply(c, s, CountUnprocessable(t));
    LoadedStaysInPast(c, s, CountUnprocessable(t));
    CountCovers(c, s, t);
    assert Unprocessable(s') == Unprocessable(s);
    if s'.threads[t].unprocessable < Threshold(c) {
      PendingIsInWindow(c, s');
    } else {
      SubsetSize(PendingThreads(c, s'), PendingThreads(c, s));
    }
  }

  lemma AddKeeps(c: Config, s: State, t: Tid, n: nat)
    requires Bounded(c, s, n) && Enabled(c, s, Add(t))
    ensures Bounded(c, Apply(c, s, Add(t)), n)
  {
    var s' := Apply(c, s, Add(t));
    LoadedStaysInPast(c, s, Add(t));
    var a := s.threads[t].item;
    if a.minTargetBlock >= s.block + 2 {
      SubsetPlusOneSize(Unprocessable(s'), Unprocessable(s), MemberOf(a));
      assert t in PendingThreads(c, s);
      SubsetSize(PendingThreads(c, s'), PendingThreads(c, s) - {t});
    } else {
      SubsetSize(Unprocessable(s'), Unprocessable(s));
      SubsetSize(PendingThreads(c, s'), PendingThreads(c, s));
    }
  }

  /** No other action adds an unprocessable member or a thread that may add one. */
  lemma OthersKeep(c: Config, s: State, e: Event, n: nat)
    requires Bounded(c, s, n) && Enabled(c, s, e)
    requires !e.CountUnprocessable? && !e.Add?
    ensures Bounded(c, Apply(c, s, e), n)
  {
    var s' := Apply(c, s, e);
    LoadedStaysInPast(c, s, e);
    assert Unprocessable(s') <= Unprocessable(s);
    SubsetSize(Unprocessable(s'), Unprocessable(s));
    assert PendingThreads(c, s') <= PendingThreads(c, s);
    SubsetSize(PendingThreads(c, s'), PendingThreads(c, s));
  }

  /** In no state of the run are more than `n` threads between their count and their add. */
  ghost predicate AtMostInWindow(c: Config, es: seq<Event>, n: nat)
    requires CanRun(c, INITIAL, es)
  {
    |Window(Run(c, INITIAL, es))| <= n && (es == [] || AtMostInWindow(c, es[..|es| - 1], n))
  }

  /**
   Whatever is submitted and however calls, requeues and new blocks interleave: with at most `n`
   threads between count and add, the items queued for future blocks exceed the larger threshold by
   at most n - 1.
   */
  lemma {:induction false} UnprocessableIsBounded(c: Config, es: seq<Event>, n: nat)
    requires n >= 1 && CanRun(c, INITIAL, es) && AtMostInWindow(c, es, n)
    ensures Bounded(c, Run(c, INITIAL, es), n)
    ensures |Unprocessable(Run(c, INITIAL, es))| <= Threshold(c) + n - 1
    decreases |es|
  {
    if es == [] {
      assert Unprocessable(INITIAL) == {} && PendingThreads(c, INITIAL) == {};
    } else {
      var s, e := Run(c, INITIAL, es[..|es| - 1]), es[|es| - 1];
      UnprocessableIsBounded(c, es[..|es| - 1], n);
      match e
      case CountUnprocessable(t) => CountKeeps(c, s, t, n);
      case Add(t) => AddKeeps(c, s, t, n);
      case _ => OthersKeep(c, s, e, n);
    }
  }
}
