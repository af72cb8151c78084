/** Runs in which one thread acts at a time, as when calls are made one after the other. */
module QueueSerial {
  import opened QueueMachine
  import opened QueueCapacity

  /** Apart from new blocks, all actions are those of thread `t`. */
  ghost predicate Serial(t: Tid, es: seq<Event>) {
    forall i :: 0 <= i < |es| ==> es[i].AdvanceBlock? || es[i].t == t
  }

  lemma {:induction false} SerialThreads(c: Config, t: Tid, es: seq<Event>)
    requires CanRun(c, INITIAL, es) && Serial(t, es)
    ensures Run(c, INITIAL, es).threads.Keys <= {t}
    decreases |es|
  {
    if es != [] {
      SerialThreads(c, t, es[..|es| - 1]);
      ThreadsOfStep(c, Run(c, INITIAL, es[..|es| - 1]), es[|es| - 1]);
    }
  }

  lemma ThreadsOfStep(c: Config, s: State, e: Event)
    requires Enabled(c, s, e)
    ensures Apply(c, s, e).threads.Keys <= s.threads.Keys + if e.AdvanceBlock? then {} else {e.t}
  {
  }

  lemma {:induction false} SerialWindow(c: Config, t: Tid, es: seq<Event>)
    requires CanRun(c, INITIAL, es) && Serial(t, es)
    ensures AtMostInWindow(c, es, 1)
    decreases |es|
  {
    SerialThreads(c, t, es);
    SubsetSize(Window(Run(c, INITIAL, es)), {t});
    if es != [] {
      SerialWindow(c, t, es[..|es| - 1]);
    }
  }

  /** One call at a time leaves no more items for future blocks than the larger threshold. */
  lemma SerialFutureItems(c: Config, t: Tid, es: seq<Event>)
    requires CanRun(c, INITIAL, es) && Serial(t, es)
    ensures var s := Run(c, INITIAL, es);
            CountFrom(s.queue, s.block + 2) <= Threshold(c)
  {
    SerialWindow(c, t, es);
    UnprocessableIsBounded(c, es, 1);
  }

  predicate NoSubmits(es: seq<Event>) {
    forall i :: 0 <= i < |es| ==> !es[i].Submit?
  }

  /** `es` starts with a push of a non-empty window under a new key, the only one. */
  ghost predicate WellPushed(s: State, es: seq<Event>) {
    es != [] && WellSubmitted(s, es[0]) && NoSubmits(es[1..])
  }

  /** Actions that submit nothing keep a run well submitted. */
  lemma {:induction false} WellWithoutSubmit(c: Config, es: seq<Event>, more: seq<Event>)
    requires CanRunWell(c, es) && CanRun(c, INITIAL, es + more)
    requires NoSubmits(more)
    ensures CanRunWell(c, es + more)
    decreases |more|
  {
    if more == [] {
      assert es + more == es;
    } else {
      var all, front := es + more, more[..|more| - 1];
      assert all[..|all| - 1] == es + front && all[|all| - 1] == more[|more| - 1];
      WellWithoutSubmit(c, es, front);
    }
  }

  /** So does a push of a non-empty window under a new key. */
  lemma WellPush(c: Config, es: seq<Event>, more: seq<Event>)
    requires CanRunWell(c, es) && CanRun(c, INITIAL, es + more)
    requires WellPushed(Run(c, INITIAL, es), more)
    ensures CanRunWell(c, es + more)
  {
    var first, rest := es + [more[0]], more[1..];
    assert es + more == first + rest;
    PrefixCanRun(c, first, rest);
    assert first[..|first| - 1] == es;
    WellWithoutSubmit(c, first, rest);
  }

  lemma {:induction false} PrefixCanRun(c: Config, es: seq<Event>, more: seq<Event>)
    requires CanRun(c, INITIAL, es + more)
    ensures CanRun(c, INITIAL, es)
    decreases |more|
  {
    if more == [] {
      assert es + more == es;
    } else {
      assert (es + more)[..|es + more| - 1] == es + more[..|more| - 1];
      PrefixCanRun(c, es, more[..|more| - 1]);
    }
  }
}
