/** Which bundles validation accepts, and what it makes of them, in terms of the bundle alone. */
module Acceptance {
  import opened Bundles
  import opened BuilderNames
  import opened BuilderLists
  import opened Validation
  import opened ValidationWindow
  import opened ValidationNormal
  import opened ValidationLoops

  // The conditions

  function LastBlock(i: Inclusion): nat {
    if i.max == 0 then i.block else i.max
  }

  /** The i-th element is a nested bundle: it carries neither hash nor transaction. */
  predicate NestedAt(b: Bundle, i: int) {
    0 <= i < |b.body| && b.body[i].hash.None? && b.body[i].tx.None? && b.body[i].bundle.Some?
  }

  function WindowAt(b: Bundle, i: int): Inclusion
    requires NestedAt(b, i)
  {
    b.body[i].bundle.value.inclusion
  }

  /** Transactions and hashes in the first `n` elements, those of nested bundles included. */
  function CountUpTo(b: Bundle, n: nat): nat
    requires n <= |b.body|
    decreases b, n
  {
    if n == 0 then 0
    else
      var el := b.body[n - 1];
      CountUpTo(b, n - 1) +
      if el.hash.Some? || el.tx.Some? then 1
      else if el.bundle.Some? then CountUpTo(el.bundle.value, |el.bundle.value.body|)
      else 0
  }

  function Sum(xs: seq<int>): int {
    if xs == [] then 0 else xs[0] + Sum(xs[1..])
  }

  function ConfigPercents(cs: seq<RefundConfig>): seq<int> {
    seq(|cs|, i requires 0 <= i < |cs| => cs[i].percent)
  }

  function RefundPercents(cs: seq<RefundConstraint>): seq<int> {
    seq(|cs|, i requires 0 <= i < |cs| => cs[i].percent)
  }

  /** Windows of the first `n` elements that are bundles overlap the bundle's own and each other, as written. */
  ghost predicate WindowsMeet(b: Bundle, n: nat)
    requires n <= |b.body|
  {
    && (forall i :: 0 <= i < n && NestedAt(b, i) ==>
          WindowAt(b, i).block <= LastBlock(b.inclusion) && b.inclusion.block <= WindowAt(b, i).max)
    && (forall i, j :: 0 <= j < i < n && NestedAt(b, i) && NestedAt(b, j) ==>
          WindowAt(b, i).block <= WindowAt(b, j).max && WindowAt(b, j).block <= WindowAt(b, i).max)
  }

  /** A hash comes first and not alone; a transaction decodes; a bundle is acceptable and names no hash. */
  ghost predicate ElementAcceptable(env: Env, level: nat, b: Bundle, i: nat, currentBlock: nat)
    requires i < |b.body|
    decreases b, 0
  {
    var el := b.body[i];
    if el.hash.Some? then i == 0 && |b.body| > 1
    else if el.tx.Some? then
      env.decode(el.tx.value).Some? && el.revertMode in {"", "allow", "drop", "fail"}
    else
      el.bundle.Some? ==>
        Acceptable(env, level + 1, el.bundle.value, currentBlock) && el.bundle.value.body[0].hash.None?
  }

  ghost predicate RefundsAcceptable(v: Validity, bodySize: nat) {
    && (forall i :: 0 <= i < |v.refundConfig| ==> 0 <= v.refundConfig[i].percent <= 100)
    && Sum(ConfigPercents(v.refundConfig)) <= 100
    && (forall i :: 0 <= i < |v.refund| ==> 0 <= v.refund[i].bodyIdx < bodySize && 0 <= v.refund[i].percent <= 100)
    && (forall i, j :: 0 <= i < j < |v.refund| ==> v.refund[i].bodyIdx != v.refund[j].bodyIdx)
    && Sum(RefundPercents(v.refund)) <= 100
  }

  ghost predicate Acceptable(env: Env, level: nat, b: Bundle, currentBlock: nat)
    ensures Acceptable(env, level, b, currentBlock) ==> b.body != []
    decreases b, 1
  {
    && level <= 1
    && (b.version == "beta-1" || b.version == "v0.1")
    // window
    && b.inclusion.block <= LastBlock(b.inclusion) <= b.inclusion.block + 30
    && currentBlock < LastBlock(b.inclusion)
    && b.inclusion.block <= currentBlock + 5
    // body
    && b.body != []
    && (forall i :: 0 <= i < |b.body| ==> ElementAcceptable(env, level, b, i, currentBlock))
    && WindowsMeet(b, |b.body|)
    && CountUpTo(b, |b.body|) <= 50
    // refunds
    && RefundsAcceptable(b.validity, |b.body|)
    && (b.body[0].hash.Some? ==> b.validity.refund == [])
    // privacy
    && (b.privacy.Some? ==>
          && (b.body[0].hash.Some? ==> b.privacy.value.hints == 0)
          && (b.privacy.value.wantRefund.Some? ==> 0 <= b.privacy.value.wantRefund.value <= 100))
  }

  // Sums

  lemma {:induction false} SumSnoc(xs: seq<int>, x: int)
    ensures Sum(xs + [x]) == Sum(xs) + x
  {
    if xs == [] {
      assert xs + [x] == [x] && [x][1..] == [];
    } else {
      assert (xs + [x])[1..] == xs[1..] + [x];
      SumSnoc(xs[1..], x);
    }
  }

  lemma {:induction false} ConfigTotalIsSum(cs: seq<RefundConfig>)
    ensures ConfigTotal(cs) == Sum(ConfigPercents(cs))
  {
    if cs != [] {
      var front := cs[..|cs| - 1];
      ConfigTotalIsSum(front);
      SumSnoc(ConfigPercents(front), cs[|cs| - 1].percent);
      assert ConfigPercents(cs) == ConfigPercents(front) + [cs[|cs| - 1].percent];
    }
  }

  lemma {:induction false} RefundTotalIsSum(cs: seq<RefundConstraint>)
    ensures RefundTotal(cs) == Sum(RefundPercents(cs))
  {
    if cs != [] {
      var front := cs[..|cs| - 1];
      RefundTotalIsSum(front);
      SumSnoc(RefundPercents(front), cs[|cs| - 1].percent);
      assert RefundPercents(cs) == RefundPercents(front) + [cs[|cs| - 1].percent];
    }
  }

  lemma RefundsIff(v: Validity, bodySize: nat)
    ensures ConfigOk(v.refundConfig) && RefundOk(v.refund, bodySize) <==> RefundsAcceptable(v, bodySize)
  {
    ConfigTotalIsSum(v.refundConfig);
    RefundTotalIsSum(v.refund);
  }

  // The loop over the body

  predicate StartsBy(w: Inclusion, x: nat) {
    w.block <= x
  }

  predicate LastsTo(w: Inclusion, x: nat) {
    x <= w.max
  }

  /** The accumulated window against any block: the latest start and the earliest end so far. */
  ghost predicate WindowSoFar(w: Inclusion, b: Bundle, n: nat)
    requires n <= |b.body|
  {
    && (forall x: nat :: StartsBy(w, x) <==>
          b.inclusion.block <= x && forall i :: 0 <= i < n && NestedAt(b, i) ==> WindowAt(b, i).block <= x)
    && (forall x: nat :: LastsTo(w, x) <==>
          x <= LastBlock(b.inclusion) && forall i :: 0 <= i < n && NestedAt(b, i) ==> x <= WindowAt(b, i).max)
  }

  ghost predicate SameSettings(p: Option<Privacy>, q: Option<Privacy>) {
    && (p.Some? <==> q.Some?)
    && (p.Some? ==> p.value.hints == q.value.hints && p.value.wantRefund == q.value.wantRefund)
  }

  ghost predicate ProgressOk(p: Progress, b: Bundle, n: nat)
    requires n <= |b.body|
  {
    && WindowSoFar(p.inclusion, b, n)
    && SameSettings(p.privacy, b.privacy)
    && p.txs == CountUpTo(b, n)
    && (p.unmatched <==> n > 0 && b.body[0].hash.Some?)
  }

  ghost predicate BodyAcceptable(env: Env, level: nat, b: Bundle, n: nat, currentBlock: nat)
    requires n <= |b.body|
  {
    && (forall i :: 0 <= i < n ==> ElementAcceptable(env, level, b, i, currentBlock))
    && WindowsMeet(b, n)
  }

  lemma MergeStep(w: Inclusion, b: Bundle, i: nat)
    requires i < |b.body| && NestedAt(b, i) && WindowSoFar(w, b, i) && WindowsMeet(b, i)
    ensures MergeInclusionIntervals(w, WindowAt(b, i)).Ok? <==> WindowsMeet(b, i + 1)
    ensures MergeInclusionIntervals(w, WindowAt(b, i)).Ok? ==>
              WindowSoFar(MergeInclusionIntervals(w, WindowAt(b, i)).value, b, i + 1)
  {
    var v := WindowAt(b, i);
    assert StartsBy(w, v.max) <==> !(v.max < w.block);
    assert LastsTo(w, v.block) <==> !(w.max < v.block);
    var m := MergeInclusionIntervals(w, v);
    if m.Ok? {
      assert forall x: nat :: StartsBy(m.value, x) <==> StartsBy(w, x) && v.block <= x;
      assert forall x: nat :: LastsTo(m.value, x) <==> LastsTo(w, x) && x <= v.max;
    }
  }

  lemma PlainStep(w: Inclusion, b: Bundle, i: nat)
    requires i < |b.body| && !NestedAt(b, i)
    ensures WindowSoFar(w, b, i) ==> WindowSoFar(w, b, i + 1)
    ensures WindowsMeet(b, i) <==> WindowsMeet(b, i + 1)
  {
  }

  lemma MergeKeepsSettings(p: Option<Privacy>, inner: Option<Privacy>)
    ensures SameSettings(MergeBuilders(p, inner), p)
  {
  }

  lemma PlainElementIff(env: Env, level: nat, b: Bundle, i: nat, p: Progress, currentBlock: nat)
    requires i < |b.body| && !NestedAt(b, i)
    requires ProgressOk(p, b, i) && BodyAcceptable(env, level, b, i, currentBlock)
    ensures var r := ElementStep(env, level, b, i, p, currentBlock);
            && (r.Ok? <==> BodyAcceptable(env, level, b, i + 1, currentBlock))
            && (r.Ok? ==> ProgressOk(r.value, b, i + 1))
  {
    PlainStep(p.inclusion, b, i);
    hide WindowSoFar, WindowsMeet, Acceptable;
    assert BodyAcceptable(env, level, b, i + 1, currentBlock) <==> ElementAcceptable(env, level, b, i, currentBlock);
  }

  lemma {:induction false} NestedElementIff(env: Env, level: nat, b: Bundle, i: nat, p: Progress, currentBlock: nat)
    requires i < |b.body| && NestedAt(b, i)
    requires ProgressOk(p, b, i) && BodyAcceptable(env, level, b, i, currentBlock)
    ensures var r := ElementStep(env, level, b, i, p, currentBlock);
            && (r.Ok? <==> BodyAcceptable(env, level, b, i + 1, currentBlock))
            && (r.Ok? ==> ProgressOk(r.value, b, i + 1))
    decreases b, i, 0
  {
    var inner := b.body[i].bundle.value;
    MergeStep(p.inclusion, b, i);
    MergeKeepsSettings(p.privacy, inner.privacy);
    AcceptedIff(env, level + 1, inner, currentBlock);
    hide WindowSoFar, WindowsMeet, Acceptable, Validate, MergeInclusionIntervals, MergeBuilders;
    assert BodyAcceptable(env, level, b, i + 1, currentBlock) <==>
           ElementAcceptable(env, level, b, i, currentBlock) && WindowsMeet(b, i + 1) by {
      MeetEarlier(b, i);
    }
  }

  lemma MeetEarlier(b: Bundle, i: nat)
    requires i < |b.body|
    ensures WindowsMeet(b, i + 1) ==> WindowsMeet(b, i)
  {
  }

  lemma BodyEarlier(env: Env, level: nat, b: Bundle, i: nat, currentBlock: nat)
    requires i < |b.body|
    ensures BodyAcceptable(env, level, b, i + 1, currentBlock) ==> BodyAcceptable(env, level, b, i, currentBlock)
  {
    MeetEarlier(b, i);
    hide ElementAcceptable, WindowsMeet;
  }

  lemma ProgressStart(b: Bundle)
    ensures ProgressOk(Progress(WithDefaultMax(b.inclusion), b.privacy, [], [], 0, false), b, 0)
  {
  }

  lemma {:induction false} BodyIff(env: Env, level: nat, b: Bundle, n: nat, currentBlock: nat)
    requires n <= |b.body|
    ensures var r := BodyUpTo(env, level, b, n, currentBlock);
            && (r.Ok? <==> BodyAcceptable(env, level, b, n, currentBlock))
            && (r.Ok? ==> ProgressOk(r.value, b, n))
    decreases b, n
  {
    hide ProgressOk, BodyAcceptable, ElementStep;
    if n == 0 {
      ProgressStart(b);
      NothingIsAcceptable(env, level, b, currentBlock);
    } else {
      BodyIff(env, level, b, n - 1, currentBlock);
      BodyEarlier(env, level, b, n - 1, currentBlock);
      var r := BodyUpTo(env, level, b, n - 1, currentBlock);
      if r.Ok? {
        if NestedAt(b, n - 1) {
          NestedElementIff(env, level, b, n - 1, r.value, currentBlock);
        } else {
          PlainElementIff(env, level, b, n - 1, r.value, currentBlock);
        }
      }
    }
  }

  lemma NothingIsAcceptable(env: Env, level: nat, b: Bundle, currentBlock: nat)
    ensures BodyAcceptable(env, level, b, 0, currentBlock)
  {
  }

  lemma FinishIff(env: Env, b: Bundle, p: Progress)
    requires b.body != [] && ProgressOk(p, b, |b.body|)
    ensures var r := Finish(env, b, p);
            && (r.Ok? <==>
                  && CountUpTo(b, |b.body|) <= 50
                  && RefundsAcceptable(b.validity, |b.body|)
                  && (b.body[0].hash.Some? ==> b.validity.refund == [])
                  && (b.privacy.Some? ==>
                        && (b.body[0].hash.Some? ==> b.privacy.value.hints == 0)
                        && (b.privacy.value.wantRefund.Some? ==> 0 <= b.privacy.value.wantRefund.value <= 100)))
            && (r.Ok? ==> r.value.txs == CountUpTo(b, |b.body|) && (r.value.unmatched <==> b.body[0].hash.Some?))
  {
    RefundsIff(b.validity, |b.body|);
    hide WindowSoFar, RefundsAcceptable, ConfigOk, RefundOk, CountUpTo;
  }

  /** Validation accepts a bundle exactly when it is acceptable; then it counts its transactions and hashes. */
  lemma {:induction false} AcceptedIff(env: Env, level: nat, b: Bundle, currentBlock: nat)
    ensures IsAccepted(env, level, b, currentBlock) <==> Acceptable(env, level, b, currentBlock)
    ensures IsAccepted(env, level, b, currentBlock) ==>
              var a := Validate(env, level, b, currentBlock).value;
              && a.txs == CountUpTo(b, |b.body|)
              && b.body != [] && (a.unmatched <==> b.body[0].hash.Some?)
    decreases b, |b.body| + 1
  {
    BodyIff(env, level, b, |b.body|, currentBlock);
    var r := BodyUpTo(env, level, b, |b.body|, currentBlock);
    if b.body != [] && r.Ok? {
      FinishIff(env, b, r.value);
    }
    hide ProgressOk, BodyUpTo, Finish, ElementAcceptable, WindowsMeet, CountUpTo, RefundsAcceptable;
  }

  // Why a bundle is rejected

  /** The checks before the body, in their order. */
  lemma RejectedBeforeBody(env: Env, level: nat, b: Bundle, currentBlock: nat)
    ensures var r, last := Validate(env, level, b, currentBlock), LastBlock(b.inclusion);
            if level > 1 then r == Err(ErrBundleTooDeep)
            else if b.version != "beta-1" && b.version != "v0.1" then r == Err(ErrUnsupportedBundleVersion)
            else if last < b.inclusion.block || last > b.inclusion.block + 30 || currentBlock >= last ||
                    b.inclusion.block > currentBlock + 5 then r == Err(ErrInvalidInclusion)
            else b.body == [] ==> r == Err(ErrInvalidBundleBodySize)
  {
    hide BodyUpTo, Finish;
  }

  /** The checks before the body pass. */
  ghost predicate GetsToBody(level: nat, b: Bundle, currentBlock: nat) {
    && level <= 1 && (b.version == "beta-1" || b.version == "v0.1")
    && b.inclusion.block <= LastBlock(b.inclusion) <= b.inclusion.block + 30
    && currentBlock < LastBlock(b.inclusion) && b.inclusion.block <= currentBlock + 5
    && b.body != []
  }

  /** The first element at which the body is not acceptable decides the error; that of a nested bundle is passed on. */
  lemma RejectedByElement(env: Env, level: nat, b: Bundle, i: nat, currentBlock: nat)
    requires GetsToBody(level, b, currentBlock) && i < |b.body|
    requires BodyAcceptable(env, level, b, i, currentBlock) && !BodyAcceptable(env, level, b, i + 1, currentBlock)
    ensures var r, el := Validate(env, level, b, currentBlock), b.body[i];
            if el.hash.Some? then r == Err(ErrInvalidBundleBody)
            else if el.tx.Some? then
              r == Err(if env.decode(el.tx.value).None? then ErrUndecodable else ErrInvalidRevertMode)
            else
              && el.bundle.Some?
              && var inner := Validate(env, level + 1, el.bundle.value, currentBlock);
                 r == Err(if !WindowsMeet(b, i + 1) then ErrInvalidInclusion
                          else if inner.Err? then inner.error
                          else ErrInvalidBundleBody)
  {
    BodyIff(env, level, b, i, currentBlock);
    BodyIff(env, level, b, i + 1, currentBlock);
    ErrorStays(env, level, b, i + 1, currentBlock);
    var p := BodyUpTo(env, level, b, i, currentBlock).value;
    assert ElementStep(env, level, b, i, p, currentBlock).Err?;
    if NestedAt(b, i) {
      MergeStep(p.inclusion, b, i);
      AcceptedIff(env, level + 1, b.body[i].bundle.value, currentBlock);
    } else {
      PlainStep(p.inclusion, b, i);
    }
    hide WindowSoFar, WindowsMeet, Acceptable, MergeInclusionIntervals, CountUpTo, MergeBuilders;
  }

  /** With an acceptable body: too many transactions, then constraints, then privacy. */
  lemma RejectedAfterBody(env: Env, level: nat, b: Bundle, currentBlock: nat)
    requires GetsToBody(level, b, currentBlock) && BodyAcceptable(env, level, b, |b.body|, currentBlock)
    ensures var r := Validate(env, level, b, currentBlock);
            if CountUpTo(b, |b.body|) > 50 then r == Err(ErrInvalidBundleBodySize)
            else if (b.body[0].hash.Some? && b.validity.refund != []) || !RefundsAcceptable(b.validity, |b.body|)
              then r == Err(ErrInvalidBundleConstraints)
            else r.Err? ==> r == Err(ErrInvalidBundlePrivacy)
  {
    BodyIff(env, level, b, |b.body|, currentBlock);
    RefundsIff(b.validity, |b.body|);
    hide WindowSoFar, BodyUpTo, BodyAcceptable, RefundsAcceptable, ConfigOk, RefundOk, CountUpTo;
  }

  // What an accepted bundle becomes

  ghost predicate AllHave(lists: seq<seq<string>>, s: string) {
    forall k :: 0 <= k < |lists| ==> s in Names(lists[k])
  }

  ghost predicate NestedHave(b: Bundle, n: nat, s: string)
    requires n <= |b.body|
  {
    forall i :: 0 <= i < n && NestedAt(b, i) ==> s in Names(BuildersOf(b.body[i].bundle.value.privacy))
  }

  lemma {:induction false} NestedListsHave(b: Bundle, n: nat, s: string)
    requires n <= |b.body|
    ensures AllHave(NestedLists(b.body, n), s) <==> NestedHave(b, n, s)
  {
    if n > 0 {
      NestedListsHave(b, n - 1, s);
      var front := NestedLists(b.body, n - 1);
      if NestedAt(b, n - 1) {
        AllHaveSnoc(front, BuildersOf(b.body[n - 1].bundle.value.privacy), s);
        assert NestedHave(b, n, s) <==>
               NestedHave(b, n - 1, s) && s in Names(BuildersOf(b.body[n - 1].bundle.value.privacy));
      } else {
        assert NestedLists(b.body, n) == front;
        assert NestedHave(b, n, s) <==> NestedHave(b, n - 1, s);
      }
    }
  }

  lemma AllHaveSnoc(lists: seq<seq<string>>, last: seq<string>, s: string)
    ensures AllHave(lists + [last], s) <==> AllHave(lists, s) && s in Names(last)
  {
    var all := lists + [last];
    assert all[|lists|] == last;
    assert forall k :: 0 <= k < |lists| ==> all[k] == lists[k];
  }

  /** The name, lowered, is listed by the bundle and by each bundle inside it. */
  ghost predicate NamedByAll(s: string, b: Bundle) {
    && b.privacy.Some? && s in Names(b.privacy.value.builders)
    && forall i :: NestedAt(b, i) ==>
         && b.body[i].bundle.value.privacy.Some?
         && s in Names(b.body[i].bundle.value.privacy.value.builders)
  }

  lemma MergedBuilders(b: Bundle, s: string)
    requires b.privacy.Some?
    ensures s in LowerAll(IntersectAll(b.privacy.value.builders, NestedLists(b.body, |b.body|))) <==> NamedByAll(s, b)
  {
    var own, lists := b.privacy.value.builders, NestedLists(b.body, |b.body|);
    IntersectAllNames(own, lists);
    NamesOfLowered(IntersectAll(own, lists));
    NestedListsHave(b, |b.body|, s);
    assert AllHave(lists, s) <==> forall k :: 0 <= k < |lists| ==> s in Names(lists[k]);
    NoNames(s);
    forall i | NestedAt(b, i)
      ensures s in Names(BuildersOf(b.body[i].bundle.value.privacy)) <==>
              && b.body[i].bundle.value.privacy.Some?
              && s in Names(b.body[i].bundle.value.privacy.value.builders)
    {
    }
  }

  lemma NoNames(s: string)
    ensures s !in Names([])
  {
  }

  /** A bundle that asks for any hint shares its hash too; builders are those that all its bundles name. */
  lemma AcceptedPrivacy(env: Env, level: nat, b: Bundle, currentBlock: nat)
    requires IsAccepted(env, level, b, currentBlock)
    ensures var p := Validate(env, level, b, currentBlock).value.bundle.privacy;
            && (p.Some? <==> b.privacy.Some?)
            && (p.Some? ==>
                  && p.value.hints == (if b.privacy.value.hints == 0 then 0 else b.privacy.value.hints | 16)
                  && p.value.wantRefund == b.privacy.value.wantRefund
                  && forall s :: s in p.value.builders <==> NamedByAll(s, b))
  {
    AcceptedFacts(env, level, b, currentBlock);
    PrivacyUpTo(env, level, b, |b.body|, currentBlock);
    hide Validate, BodyUpTo, ElementStep, IntersectAll, NestedLists, LowerAll, NamedByAll;
    if b.privacy.Some? {
      forall s
        ensures s in LowerAll(IntersectAll(b.privacy.value.builders, NestedLists(b.body, |b.body|))) <==> NamedByAll(s, b)
      {
        MergedBuilders(b, s);
      }
    }
  }

  /** A transaction gets an explicit revert mode; a nested bundle is replaced by its accepted form; all else stays. */
  lemma AcceptedElement(env: Env, level: nat, b: Bundle, i: nat, currentBlock: nat)
    requires IsAccepted(env, level, b, currentBlock) && i < |b.body|
    ensures var b', el := Validate(env, level, b, currentBlock).value.bundle, b.body[i];
            && |b'.body| == |b.body|
            && (if el.hash.None? && el.tx.Some? then
                  var mode := if el.revertMode != "" then el.revertMode else if el.canRevert then "allow" else "fail";
                  b'.body[i] == el.(revertMode := mode, canRevert := mode == "allow")
                else if NestedAt(b, i) then
                  && IsAccepted(env, level + 1, el.bundle.value, currentBlock)
                  && b'.body[i] == el.(bundle := Some(Validate(env, level + 1, el.bundle.value, currentBlock).value.bundle))
                else b'.body[i] == el)
  {
    BodyIsNormal(env, level, b, currentBlock);
    AcceptedIff(env, level, b, currentBlock);
    assert ElementAcceptable(env, level, b, i, currentBlock);
    hide Validate, Acceptable;
    if NestedAt(b, i) {
      InnerAccepted(env, level, b, i, currentBlock);
    }
  }

  /** Fields owned by the node are cleared, whatever the client put there, and nothing else is touched. */
  lemma AcceptedRest(env: Env, level: nat, b: Bundle, currentBlock: nat)
    requires IsAccepted(env, level, b, currentBlock)
    ensures var a := Validate(env, level, b, currentBlock).value;
            var b' := a.bundle;
            && b' == b.(inclusion := b'.inclusion, body := b'.body, privacy := b'.privacy, metadata := b'.metadata)
            && b'.metadata.Some?
            && b'.metadata.value == Metadata(a.hash, b'.metadata.value.bodyHashes, 0, "", 0, env.keccak([a.hash]), false, 0, false)
  {
    AcceptedFacts(env, level, b, currentBlock);
    hide Validate, BodyUpTo, ElementStep;
  }
}
