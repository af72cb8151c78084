/** Replacement nonces: which of several submissions under one replacement id may still be sent. */
module Replacement {

  /** The Redis key; signer addresses are written with 42 characters. */
  function CacheKey(prefix: string, signer: string, uuid: string): string {
    prefix + signer + uuid
  }

  lemma CacheKeyInjective(prefix: string, signer: string, uuid: string, signer': string, uuid': string)
    requires |signer| == |signer'| == 42
    requires CacheKey(prefix, signer, uuid) == CacheKey(prefix, signer', uuid')
    ensures signer == signer' && uuid == uuid'
  {
    var k, k' := CacheKey(prefix, signer, uuid), CacheKey(prefix, signer', uuid');
    assert k[|prefix|..|prefix| + 42] == signer && k'[|prefix|..|prefix| + 42] == signer';
    assert k[|prefix| + 42..] == uuid && k'[|prefix| + 42..] == uuid';
  }

  datatype Option<T> = None | Some(value: T)

  class ReplacementCache {
    var counters: map<string, nat>

    constructor ()
      ensures counters == map[]
    {
      counters := map[];
    }

    method IncReplacementNonce(key: string) returns (nonce: nat)
      modifies this
      ensures counters == Incremented(old(counters), key)
      ensures nonce == 1 + if key in old(counters) then old(counters)[key] else 0
      ensures counters == old(counters)[key := nonce]
    {
      var current := 0;
      if key in counters {
        current := counters[key];
      }
      nonce := current + 1;
      counters := counters[key := nonce];
    }

    /** A missing key is an error. */
    method GetReplacementNonce(key: string) returns (nonce: Option<nat>)
      ensures nonce == if key in counters then Some(counters[key]) else None
    {
      if key in counters {
        nonce := Some(counters[key]);
      } else {
        nonce := None;
      }
    }
  }

  function Incremented(counters: map<string, nat>, key: string): map<string, nat> {
    counters[key := (if key in counters then counters[key] else 0) + 1]
  }

  /** The worker's judgement: old if the counter has moved past the bundle's nonce; an error counts as not old. */
  predicate IsOld(counters: map<string, nat>, key: string, nonce: nat) {
    key in counters && counters[key] > nonce
  }

  // Runs of submissions, checks and sends by any number of workers

  /**
   A check that cannot read the counter judges the bundle not old. A bundle that passed is sent later,
   by a goroutine of its own; `check` is its place among those that passed.
   */
  datatype Event =
    | Submit(key: string)
    | Check(key: string, nonce: nat, readable: bool)
    | Send(check: nat)
    | Expire(key: string)

  /**
   `issued` holds the nonces given out, `passed` those judged not old, in the order of the checks, and
   `sent` the places in `passed` that were sent.
   */
  datatype State = State(counters: map<string, nat>, issued: set<(string, nat)>, passed: seq<(string, nat)>, sent: set<nat>)

  const INITIAL: State := State(map[], {}, [], {})

  predicate Enabled(s: State, e: Event) {
    && (e.Check? ==> (e.key, e.nonce) in s.issued)
    && (e.Send? ==> e.check < |s.passed| && e.check !in s.sent)
  }

  function Apply(s: State, e: Event): State
    requires Enabled(s, e)
  {
    match e
    case Submit(k) =>
      var counters := Incremented(s.counters, k);
      s.(counters := counters, issued := s.issued + {(k, counters[k])})
    case Check(k, n, readable) =>
      if readable && IsOld(s.counters, k, n) then s else s.(passed := s.passed + [(k, n)])
    case Send(p) => s.(sent := s.sent + {p})
    case Expire(k) => s.(counters := s.counters - {k})
  }

  predicate CanRun(es: seq<Event>)
    decreases |es|, 0
  {
    es == [] || (CanRun(es[..|es| - 1]) && Enabled(Run(es[..|es| - 1]), es[|es| - 1]))
  }

  function Run(es: seq<Event>): State
    requires CanRun(es)
    decreases |es|, 1
  {
    if es == [] then INITIAL else Apply(Run(es[..|es| - 1]), es[|es| - 1])
  }

  /** The event neither loses the counter of `k` nor fails to read it. */
  predicate Sound(e: Event, k: string) {
    e != Expire(k) && (e.Check? && e.key == k ==> e.readable)
  }

  predicate AllSound(es: seq<Event>, k: string) {
    forall i :: 0 <= i < |es| ==> Sound(es[i], k)
  }

  /** Nonces of `k`, given out or passed, are bounded by its counter, and passed ones never go down. */
  ghost predicate Ordered(s: State, k: string) {
    && (forall n :: (k, n) in s.issued ==> k in s.counters && n <= s.counters[k])
    && (forall i :: 0 <= i < |s.passed| && s.passed[i].0 == k ==> k in s.counters && s.passed[i].1 <= s.counters[k])
    && (forall i, j :: 0 <= i < j < |s.passed| && s.passed[i].0 == k && s.passed[j].0 == k ==>
          s.passed[i].1 <= s.passed[j].1)
  }

  lemma {:induction false} RunIsOrdered(es: seq<Event>, k: string)
    requires CanRun(es) && AllSound(es, k)
    ensures Ordered(Run(es), k)
  {
    if es != [] {
      RunIsOrdered(es[..|es| - 1], k);
      StepIsOrdered(Run(es[..|es| - 1]), es[|es| - 1], k);
    }
  }

  lemma StepIsOrdered(s: State, e: Event, k: string)
    requires Enabled(s, e) && Ordered(s, k) && Sound(e, k)
    ensures Ordered(Apply(s, e), k)
  {
  }

  /** Across all workers, the nonces judged not old under one key never go down in the order of the checks. */
  lemma PassedNoncesNeverGoDown(es: seq<Event>, k: string, i: nat, j: nat)
    requires CanRun(es) && AllSound(es, k)
    requires i < j < |Run(es).passed| && Run(es).passed[i].0 == k && Run(es).passed[j].0 == k
    ensures Run(es).passed[i].1 <= Run(es).passed[j].1
  {
    RunIsOrdered(es, k);
  }

  /** Submissions under `k` since its counter was last lost. */
  function RecentSubmits(es: seq<Event>, k: string): nat {
    if es == [] then 0
    else
      var e := es[|es| - 1];
      var before := RecentSubmits(es[..|es| - 1], k);
      if e == Submit(k) then before + 1 else if e == Expire(k) then 0 else before
  }

  lemma {:induction false} CounterCountsRecentSubmits(es: seq<Event>, k: string)
    requires CanRun(es)
    ensures RecentSubmits(es, k) == if k in Run(es).counters then Run(es).counters[k] else 0
  {
    if es != [] {
      CounterCountsRecentSubmits(es[..|es| - 1], k);
    }
  }

  /** In every run, losses of the counter included: old exactly when more submissions followed the last loss than `n`. */
  lemma OldIff(es: seq<Event>, k: string, n: nat)
    requires CanRun(es)
    ensures IsOld(Run(es).counters, k, n) <==> RecentSubmits(es, k) > n
  {
    CounterCountsRecentSubmits(es, k);
  }

  /** A submission that no later one replaced is never judged old, whatever else happens. */
  lemma LatestAlwaysPasses(es: seq<Event>, k: string, later: seq<Event>)
    requires CanRun(es + [Submit(k)] + later)
    requires forall i :: 0 <= i < |later| ==> later[i] != Submit(k)
    ensures CanRun(es + [Submit(k)])
    ensures var s := Run(es + [Submit(k)]);
            k in s.counters && !IsOld(Run(es + [Submit(k)] + later).counters, k, s.counters[k])
  {
    var first := es + [Submit(k)];
    PrefixRuns(first, later);
    CounterCountsRecentSubmits(first, k);
    CounterCountsRecentSubmits(first + later, k);
    NoSubmitNoIncrease(first, k, later);
    assert first[..|es|] == es;
  }

  lemma {:induction false} PrefixRuns(es: seq<Event>, later: seq<Event>)
    requires CanRun(es + later)
    ensures CanRun(es)
  {
    if later == [] {
      assert es + later == es;
    } else {
      assert (es + later)[..|es + later| - 1] == es + later[..|later| - 1];
      PrefixRuns(es, later[..|later| - 1]);
    }
  }

  lemma {:induction false} NoSubmitNoIncrease(es: seq<Event>, k: string, later: seq<Event>)
    requires forall i :: 0 <= i < |later| ==> later[i] != Submit(k)
    ensures RecentSubmits(es + later, k) <= RecentSubmits(es, k)
  {
    if later == [] {
      assert es + later == es;
    } else {
      assert (es + later)[..|es + later| - 1] == es + later[..|later| - 1];
      assert (es + later)[|es + later| - 1] == later[|later| - 1];
      NoSubmitNoIncrease(es, k, later[..|later| - 1]);
    }
  }

  /** While the counter is neither lost nor unreadable, only the latest submission is not old. */
  lemma OnlyLatestPasses(es: seq<Event>, k: string, n: nat)
    requires CanRun(es) && AllSound(es, k) && (k, n) in Run(es).issued
    ensures k in Run(es).counters
    ensures !IsOld(Run(es).counters, k, n) <==> n == Run(es).counters[k]
  {
    RunIsOrdered(es, k);
  }

  /** Once the counter has expired, an old bundle passes after a newer one did. */
  lemma ExpiryLetsOldPass(k: string)
    ensures var es := [Submit(k), Submit(k), Check(k, 2, true), Expire(k), Check(k, 1, true)];
            CanRun(es) && Run(es).passed == [(k, 2), (k, 1)]
  {
    var e1, e2, e3 := [Submit(k)], [Submit(k), Submit(k)], [Submit(k), Submit(k), Check(k, 2, true)];
    var e4 := [Submit(k), Submit(k), Check(k, 2, true), Expire(k)];
    var e5 := [Submit(k), Submit(k), Check(k, 2, true), Expire(k), Check(k, 1, true)];
    RunExtends([], Submit(k), e1);
    RunExtends(e1, Submit(k), e2);
    RunExtends(e2, Check(k, 2, true), e3);
    RunExtends(e3, Expire(k), e4);
    RunExtends(e4, Check(k, 1, true), e5);
  }

  lemma RunExtends(es: seq<Event>, e: Event, all: seq<Event>)
    requires CanRun(es) && Enabled(Run(es), e) && all == es + [e]
    ensures CanRun(all) && Run(all) == Apply(Run(es), e)
  {
    assert all[..|all| - 1] == es;
  }

  // Between a check and the send

  /** The check to which the `p`-th passed bundle owes its place. */
  lemma {:induction false} PassedAt(es: seq<Event>, p: nat) returns (i: nat)
    requires CanRun(es) && p < |Run(es).passed|
    ensures i < |es| && CanRun(es[..i])
    ensures es[i].Check? && Run(es).passed[p] == (es[i].key, es[i].nonce)
    ensures (es[i].key, es[i].nonce) in Run(es[..i]).issued
    ensures es[i].readable ==> !IsOld(Run(es[..i]).counters, es[i].key, es[i].nonce)
    decreases |es|
  {
    var before := es[..|es| - 1];
    if p < |Run(before).passed| {
      i := PassedAt(before, p);
      assert es[..i] == before[..i];
    } else {
      i := |es| - 1;
    }
  }

  /** Without losses the counter moves exactly when something is submitted. */
  lemma {:induction false} CounterMovesIff(es: seq<Event>, k: string, i: nat)
    requires i <= |es| && AllSound(es, k)
    ensures RecentSubmits(es[..i], k) <= RecentSubmits(es, k)
    ensures RecentSubmits(es[..i], k) == RecentSubmits(es, k) <==> Submit(k) !in es[i..]
    decreases |es|
  {
    if i == |es| {
      assert es[..i] == es;
    } else {
      var before := es[..|es| - 1];
      CounterMovesIff(before, k, i);
      assert before[..i] == es[..i];
      assert es[i..] == before[i..] + [es[|es| - 1]];
    }
  }

  lemma LatestAtCheck(es: seq<Event>, k: string, n: nat, i: nat)
    requires CanRun(es) && AllSound(es, k) && i <= |es| && CanRun(es[..i])
    requires (k, n) in Run(es[..i]).issued && !IsOld(Run(es[..i]).counters, k, n)
    ensures n == RecentSubmits(es[..i], k)
    ensures k in Run(es).counters && Run(es).counters[k] == RecentSubmits(es, k)
  {
    assert AllSound(es[..i], k);
    OnlyLatestPasses(es[..i], k, n);
    CounterCountsRecentSubmits(es[..i], k);
    CounterCountsRecentSubmits(es, k);
    CounterMovesIff(es, k, i);
    RunIsOrdered(es, k);
    IssuedStays(es, i, k, n);
  }

  lemma {:induction false} IssuedStays(es: seq<Event>, i: nat, k: string, n: nat)
    requires CanRun(es) && i <= |es| && CanRun(es[..i]) && (k, n) in Run(es[..i]).issued
    ensures (k, n) in Run(es).issued
    decreases |es|
  {
    if i == |es| {
      assert es[..i] == es;
    } else {
      assert es[..|es| - 1][..i] == es[..i];
      IssuedStays(es[..|es| - 1], i, k, n);
    }
  }

  /**
   What is sent was the latest submission at its check. When it is sent it still is, exactly if nothing
   was submitted under its key in between.
   */
  lemma SentIsLatestIff(es: seq<Event>, p: nat) returns (i: nat)
    requires CanRun(es) && Enabled(Run(es), Send(p)) && AllSound(es, Run(es).passed[p].0)
    ensures i < |es| && CanRun(es[..i]) && es[i].Check? && Run(es).passed[p] == (es[i].key, es[i].nonce)
    ensures var k, n := es[i].key, es[i].nonce;
            && k in Run(es[..i]).counters && n == Run(es[..i]).counters[k]
            && k in Run(es).counters && (n == Run(es).counters[k] <==> Submit(k) !in es[i..])
  {
    i := PassedAt(es, p);
    var k, n := es[i].key, es[i].nonce;
    assert Sound(es[i], k);
    LatestAtCheck(es, k, n, i);
    assert AllSound(es[..i], k);
    OnlyLatestPasses(es[..i], k, n);
    CounterMovesIff(es, k, i);
  }

  /** A bundle replaced between its check and its send is sent all the same. */
  lemma ReplacedWhileSending(k: string)
    ensures var es := [Submit(k), Check(k, 1, true), Submit(k)];
            CanRun(es) && Enabled(Run(es), Send(0)) && Run(es).passed == [(k, 1)] && Run(es).counters == map[k := 2]
  {
    var e1, e2, e3 := [Submit(k)], [Submit(k), Check(k, 1, true)], [Submit(k), Check(k, 1, true), Submit(k)];
    RunExtends([], Submit(k), e1);
    RunExtends(e1, Check(k, 1, true), e2);
    RunExtends(e2, Submit(k), e3);
  }
}
