/** Validating what validation returns changes nothing. */
module ValidationNormal {
  import opened Bundles
  import opened BuilderNames
  import opened BuilderLists
  import opened Validation
  import opened ValidationWindow

  // The normalised body

  /** What validation turns an element into. */
  ghost function NormalElement(env: Env, level: nat, el: Element, currentBlock: nat): Element {
    match KindOf(el)
    case IsTx => Normalised(el)
    case IsBundle =>
      var inner := Validate(env, level + 1, el.bundle.value, currentBlock);
      if inner.Ok? then el.(bundle := Some(inner.value.bundle)) else el
    case _ => el
  }

  lemma {:induction false} BodyUpToIsNormal(env: Env, level: nat, b: Bundle, n: nat, currentBlock: nat)
    requires IsAccepted(env, level, b, currentBlock) && n <= |b.body|
    ensures var body := At(env, level, b, n, currentBlock).body;
            |body| == n && forall i :: 0 <= i < n ==> body[i] == NormalElement(env, level, b.body[i], currentBlock)
    decreases n
  {
    hide Validate, BodyUpTo;
    AcceptedFacts(env, level, b, currentBlock);
    if n > 0 {
      BodyUpToIsNormal(env, level, b, n - 1, currentBlock);
      StepAt(env, level, b, n - 1, currentBlock);
    }
  }

  lemma BodyIsNormal(env: Env, level: nat, b: Bundle, currentBlock: nat)
    requires IsAccepted(env, level, b, currentBlock)
    ensures var b' := Validate(env, level, b, currentBlock).value.bundle;
            && |b'.body| == |b.body|
            && (forall i :: 0 <= i < |b.body| ==>
                  && b'.body[i] == NormalElement(env, level, b.body[i], currentBlock)
                  && KindOf(b'.body[i]) == KindOf(b.body[i]))
            && b'.version == b.version && b'.validity == b.validity
  {
    AcceptedFacts(env, level, b, currentBlock);
    hide Validate, BodyUpTo, ElementStep;
    BodyUpToIsNormal(env, level, b, |b.body|, currentBlock);
  }

  // Builders

  /** The builder lists of the bundles among the first `n` elements. */
  function NestedLists(body: seq<Element>, n: nat): seq<seq<string>>
    requires n <= |body|
  {
    if n == 0 then []
    else if KindOf(body[n - 1]).IsBundle? then NestedLists(body, n - 1) + [BuildersOf(body[n - 1].bundle.value.privacy)]
    else NestedLists(body, n - 1)
  }

  function WithBuilders(p: Option<Privacy>, lists: seq<seq<string>>): Option<Privacy> {
    if p.None? then None else Some(p.value.(builders := IntersectAll(p.value.builders, lists)))
  }

  lemma {:induction false} PrivacyUpTo(env: Env, level: nat, b: Bundle, n: nat, currentBlock: nat)
    requires IsAccepted(env, level, b, currentBlock) && n <= |b.body|
    ensures At(env, level, b, n, currentBlock).privacy == WithBuilders(b.privacy, NestedLists(b.body, n))
    decreases n
  {
    hide Validate, BodyUpTo, ElementStep;
    AcceptedFacts(env, level, b, currentBlock);
    if n > 0 {
      PrivacyUpTo(env, level, b, n - 1, currentBlock);
      if IsBundleAt(b, n - 1) {
        InnerAccepted(env, level, b, n - 1, currentBlock);
        var lists := NestedLists(b.body, n);
        assert lists[..|lists| - 1] == NestedLists(b.body, n - 1);
        MergeBuildersIsIntersection(At(env, level, b, n - 1, currentBlock).privacy, InnerAt(b, n - 1).privacy);
      } else {
        OtherStep(env, level, b, n - 1, currentBlock);
      }
    }
  }

  /** A bundle without nested ones keeps its window and its builders, but for their case. */
  lemma FlatBundle(env: Env, level: nat, b: Bundle, currentBlock: nat)
    requires IsAccepted(env, level, b, currentBlock) && level >= MAX_NESTING_LEVEL
    ensures var b' := Validate(env, level, b, currentBlock).value.bundle;
            && b'.inclusion == WithDefaultMax(b.inclusion)
            && b'.privacy == CleanPrivacy(b.privacy)
  {
    AcceptedFacts(env, level, b, currentBlock);
    hide Validate, BodyUpTo, ElementStep;
    FlatUpTo(env, level, b, |b.body|, currentBlock);
  }

  lemma {:induction false} FlatUpTo(env: Env, level: nat, b: Bundle, n: nat, currentBlock: nat)
    requires IsAccepted(env, level, b, currentBlock) && level >= MAX_NESTING_LEVEL && n <= |b.body|
    ensures At(env, level, b, n, currentBlock).inclusion == WithDefaultMax(b.inclusion)
    ensures At(env, level, b, n, currentBlock).privacy == b.privacy
    decreases n
  {
    hide Validate, BodyUpTo, ElementStep;
    AcceptedFacts(env, level, b, currentBlock);
    if n > 0 {
      FlatUpTo(env, level, b, n - 1, currentBlock);
      InnerHasNoInner(env, level, b, currentBlock, n - 1);
      OtherStep(env, level, b, n - 1, currentBlock);
    }
  }

  /** Nested bundles come out with lowered builder lists. */
  lemma {:induction false} NestedListsLowered(env: Env, level: nat, b: Bundle, n: nat, currentBlock: nat)
    requires IsAccepted(env, level, b, currentBlock) && n <= |b.body|
    ensures var b' := Validate(env, level, b, currentBlock).value.bundle;
            && |b'.body| == |b.body|
            && NestedLists(b'.body, n) == LowerEach(NestedLists(b.body, n))
    decreases n
  {
    hide Validate, BodyUpTo, ElementStep;
    BodyIsNormal(env, level, b, currentBlock);
    if n > 0 {
      NestedListsLowered(env, level, b, n - 1, currentBlock);
      if IsBundleAt(b, n - 1) {
        InnerAccepted(env, level, b, n - 1, currentBlock);
        FlatBundle(env, level + 1, InnerAt(b, n - 1), currentBlock);
        LowerEachAppend(NestedLists(b.body, n - 1), BuildersOf(InnerAt(b, n - 1).privacy));
      }
    }
  }

  lemma LowerEachAppend(lists: seq<seq<string>>, l: seq<string>)
    ensures LowerEach(lists + [l]) == LowerEach(lists) + [LowerAll(l)]
  {
  }

  // The second run

  lemma NormalElementAgain(env: Env, el: Element, p: Progress, p': Progress)
    requires KindOf(el).IsTx? && TxStep(env, el, p).Ok?
    requires p'.hashes == p.hashes && p'.txs == p.txs && p'.unmatched == p.unmatched
    ensures var q, q' := TxStep(env, el, p).value, TxStep(env, Normalised(el), p');
            && q'.Ok?
            && q'.value == p'.(body := p'.body + [Normalised(el)], hashes := q.hashes, txs := q.txs, unmatched := q.unmatched)
  {
    RevertModeNormalised(el.canRevert, el.revertMode);
  }

  /** The accumulators of the second run agree with those of the first, but for window and builders. */
  ghost predicate SecondRun(env: Env, level: nat, b: Bundle, b': Bundle, n: nat, currentBlock: nat)
    requires IsAccepted(env, level, b, currentBlock) && n <= |b.body| == |b'.body|
  {
    var p := At(env, level, b, n, currentBlock);
    BodyUpTo(env, level, b', n, currentBlock) ==
    Ok(Progress(b'.inclusion, WithBuilders(b'.privacy, NestedLists(b'.body, n)), b'.body[..n], p.hashes, p.txs, p.unmatched))
  }

  /** Validation of a bundle and of its nested bundles settles after one run. */
  lemma {:induction false} Idempotent(env: Env, level: nat, b: Bundle, currentBlock: nat)
    requires IsAccepted(env, level, b, currentBlock) && NestedMaxSet(b)
    ensures var a := Validate(env, level, b, currentBlock).value;
            Validate(env, level, a.bundle, currentBlock) == Ok(a)
    decreases b, |b.body| + 1
  {
    hide ElementStep, BodyUpTo, Validate;
    AcceptedFacts(env, level, b, currentBlock);
    var b' := Validate(env, level, b, currentBlock).value.bundle;
    BodyIsNormal(env, level, b, currentBlock);
    SecondRunUpTo(env, level, b, |b.body|, currentBlock);
    FinishAgain(env, level, b, currentBlock);
  }

  lemma {:induction false} SecondRunUpTo(env: Env, level: nat, b: Bundle, n: nat, currentBlock: nat)
    requires IsAccepted(env, level, b, currentBlock) && NestedMaxSet(b) && n <= |b.body|
    ensures var b' := Validate(env, level, b, currentBlock).value.bundle;
            |b'.body| == |b.body| && SecondRun(env, level, b, b', n, currentBlock)
    decreases b, n
  {
    hide Validate, ElementStep, BodyUpTo, Finish, SecondRun;
    BodyIsNormal(env, level, b, currentBlock);
    if n == 0 {
      SecondRunStarts(env, level, b, currentBlock);
    } else {
      SecondRunUpTo(env, level, b, n - 1, currentBlock);
      if IsBundleAt(b, n - 1) {
        var inner := InnerAt(b, n - 1);
        InnerAccepted(env, level, b, n - 1, currentBlock);
        InnerNestedMaxSet(env, level, b, n - 1, currentBlock);
        Idempotent(env, level + 1, inner, currentBlock);
        SecondBundleStep(env, level, b, n - 1, currentBlock);
      } else {
        SecondOtherStep(env, level, b, n - 1, currentBlock);
      }
    }
  }

  lemma SecondRunStarts(env: Env, level: nat, b: Bundle, currentBlock: nat)
    requires IsAccepted(env, level, b, currentBlock) && NestedMaxSet(b)
    ensures var b' := Validate(env, level, b, currentBlock).value.bundle;
            |b'.body| == |b.body| && SecondRun(env, level, b, b', 0, currentBlock)
  {
    hide Validate, ElementStep, Finish;
    BodyIsNormal(env, level, b, currentBlock);
    AcceptedFacts(env, level, b, currentBlock);
    ResultWindow(env, level, b, currentBlock);
    assert Validate(env, level, b, currentBlock).value.bundle.body[..0] == [];
  }

  lemma InnerNestedMaxSet(env: Env, level: nat, b: Bundle, i: nat, currentBlock: nat)
    requires IsAccepted(env, level, b, currentBlock) && IsBundleAt(b, i)
    ensures IsAccepted(env, level + 1, InnerAt(b, i), currentBlock) && NestedMaxSet(InnerAt(b, i))
  {
    hide Validate;
    InnerAccepted(env, level, b, i, currentBlock);
    forall j: nat
      ensures !IsBundleAt(InnerAt(b, i), j)
    {
      InnerHasNoInner(env, level + 1, InnerAt(b, i), currentBlock, j);
    }
  }

  /** The window that comes out passes the checks and lies inside every nested window. */
  lemma ResultWindow(env: Env, level: nat, b: Bundle, currentBlock: nat)
    requires IsAccepted(env, level, b, currentBlock) && NestedMaxSet(b)
    ensures var w := Validate(env, level, b, currentBlock).value.bundle.inclusion;
            && InclusionOk(w, currentBlock) && WithDefaultMax(w) == w
            && forall i :: IsBundleAt(b, i) ==>
                 MergeInclusionIntervals(w, InnerAt(b, i).inclusion) == Ok(w)
  {
    AcceptedFacts(env, level, b, currentBlock);
    hide Validate, BodyUpTo, ElementStep;
    WindowUpTo(env, level, b, |b.body|, currentBlock);
    var w := Validate(env, level, b, currentBlock).value.bundle.inclusion;
    assert Includes(w, w.block) && Includes(w, w.max);
  }

  lemma SecondBundleStep(env: Env, level: nat, b: Bundle, i: nat, currentBlock: nat)
    requires IsAccepted(env, level, b, currentBlock) && NestedMaxSet(b) && IsBundleAt(b, i)
    requires var b' := Validate(env, level, b, currentBlock).value.bundle;
             |b'.body| == |b.body| && SecondRun(env, level, b, b', i, currentBlock)
    requires IsAccepted(env, level + 1, InnerAt(b, i), currentBlock)
    requires var a := Validate(env, level + 1, InnerAt(b, i), currentBlock).value;
             Validate(env, level + 1, a.bundle, currentBlock) == Ok(a)
    ensures SecondRun(env, level, b, Validate(env, level, b, currentBlock).value.bundle, i + 1, currentBlock)
  {
    hide Validate;
    var b' := Validate(env, level, b, currentBlock).value.bundle;
    var a := Validate(env, level + 1, InnerAt(b, i), currentBlock).value;
    BodyIsNormal(env, level, b, currentBlock);
    assert b'.body[i] == b.body[i].(bundle := Some(a.bundle));
    InnerAccepted(env, level, b, i, currentBlock);
    FlatBundle(env, level + 1, InnerAt(b, i), currentBlock);
    ResultWindow(env, level, b, currentBlock);
    var lists := NestedLists(b'.body, i + 1);
    assert lists[..|lists| - 1] == NestedLists(b'.body, i);
    MergeBuildersIsIntersection(WithBuilders(b'.privacy, NestedLists(b'.body, i)), a.bundle.privacy);
    assert b'.body[..i + 1] == b'.body[..i] + [b'.body[i]];
    var p' := BodyUpTo(env, level, b', i, currentBlock).value;
    SecondStep(env, level, b', i, p', currentBlock);
    assert ElementStep(env, level, b', i, p', currentBlock) == BundleStep(b'.body[i], Ok(a), p');
  }

  lemma SecondStep(env: Env, level: nat, b: Bundle, i: nat, p: Progress, currentBlock: nat)
    requires i < |b.body| && BodyUpTo(env, level, b, i, currentBlock) == Ok(p)
    ensures BodyUpTo(env, level, b, i + 1, currentBlock) == ElementStep(env, level, b, i, p, currentBlock)
  {
  }

  lemma SecondOtherStep(env: Env, level: nat, b: Bundle, i: nat, currentBlock: nat)
    requires IsAccepted(env, level, b, currentBlock) && i < |b.body| && !IsBundleAt(b, i)
    requires var b' := Validate(env, level, b, currentBlock).value.bundle;
             |b'.body| == |b.body| && SecondRun(env, level, b, b', i, currentBlock)
    ensures SecondRun(env, level, b, Validate(env, level, b, currentBlock).value.bundle, i + 1, currentBlock)
  {
    hide Validate;
    var b' := Validate(env, level, b, currentBlock).value.bundle;
    BodyIsNormal(env, level, b, currentBlock);
    StepAt(env, level, b, i, currentBlock);
    var p := At(env, level, b, i, currentBlock);
    var p' := BodyUpTo(env, level, b', i, currentBlock).value;
    if KindOf(b.body[i]).IsTx? {
      NormalElementAgain(env, b.body[i], p, p');
    }
    assert b'.body[..i + 1] == b'.body[..i] + [b'.body[i]];
    SecondStep(env, level, b', i, p', currentBlock);
  }

  lemma CleanPrivacyAgain(p: Option<Privacy>, lists: seq<seq<string>>)
    ensures var q := CleanPrivacy(WithBuilders(p, lists));
            CleanPrivacy(WithBuilders(q, LowerEach(lists))) == q
  {
    if p.Some? {
      IntersectAllAgain(p.value.builders, lists);
    }
  }

  lemma FinishAgain(env: Env, level: nat, b: Bundle, currentBlock: nat)
    requires IsAccepted(env, level, b, currentBlock) && NestedMaxSet(b)
    requires var b' := Validate(env, level, b, currentBlock).value.bundle;
             |b'.body| == |b.body| && SecondRun(env, level, b, b', |b.body|, currentBlock)
    ensures var a := Validate(env, level, b, currentBlock).value;
            Validate(env, level, a.bundle, currentBlock) == Ok(a)
  {
    hide BodyUpTo, ElementStep;
    var b' := Validate(env, level, b, currentBlock).value.bundle;
    AcceptedFacts(env, level, b, currentBlock);
    BodyIsNormal(env, level, b, currentBlock);
    ResultWindow(env, level, b, currentBlock);
    PrivacyUpTo(env, level, b, |b.body|, currentBlock);
    NestedListsLowered(env, level, b, |b.body|, currentBlock);
    CleanPrivacyAgain(b.privacy, NestedLists(b.body, |b.body|));
    assert b'.body[..|b.body|] == b'.body;
  }

  /**
   Validating the result again succeeds with the same bundle, hash, count and builder sequence, exactly
   when every nested bundle sets its max block.
   */
  lemma IdempotentIff(env: Env, b: Bundle, currentBlock: nat)
    requires IsAccepted(env, 0, b, currentBlock)
    ensures var a := ValidateBundle(env, b, currentBlock).value;
            ValidateBundle(env, a.bundle, currentBlock) == Ok(a) <==> NestedMaxSet(b)
  {
    hide Validate;
    var a := ValidateBundle(env, b, currentBlock).value;
    if NestedMaxSet(b) {
      Idempotent(env, 0, b, currentBlock);
    } else if ValidateBundle(env, a.bundle, currentBlock) == Ok(a) {
      NestedMaxComesOutSet(env, b, currentBlock);
      WindowSoundIff(env, a.bundle, currentBlock);
      WindowSoundIff(env, b, currentBlock);
    }
  }

  lemma NestedMaxComesOutSet(env: Env, b: Bundle, currentBlock: nat)
    requires IsAccepted(env, 0, b, currentBlock)
    ensures NestedMaxSet(ValidateBundle(env, b, currentBlock).value.bundle)
  {
    hide Validate;
    var b' := ValidateBundle(env, b, currentBlock).value.bundle;
    BodyIsNormal(env, 0, b, currentBlock);
    forall i | IsBundleAt(b', i)
      ensures InnerAt(b', i).inclusion.max != 0
    {
      assert b'.body[i] == NormalElement(env, 0, b.body[i], currentBlock);
      InnerAccepted(env, 0, b, i, currentBlock);
      FlatBundle(env, 1, InnerAt(b, i), currentBlock);
      AcceptedFacts(env, 1, InnerAt(b, i), currentBlock);
    }
  }

  // The failing family is not empty

  function LoneTx(raw: Raw): Element {
    Element(None, Some(raw), None, false, "")
  }

  function Plain(inclusion: Inclusion, el: Element): Bundle {
    Bundle("v0.1", "", inclusion, [el], Validity([], []), None, None)
  }

  lemma PlainTxAccepted(env: Env, level: nat, raw: Raw, inclusion: Inclusion, currentBlock: nat)
    requires env.decode(raw).Some? && level <= 1 && InclusionOk(WithDefaultMax(inclusion), currentBlock)
    ensures var r := Validate(env, level, Plain(inclusion, LoneTx(raw)), currentBlock);
            r.Ok? && !r.value.unmatched && r.value.txs == 1
  {
    var b := Plain(inclusion, LoneTx(raw));
    var p := Progress(WithDefaultMax(inclusion), None, [], [], 0, false);
    assert BodyUpTo(env, level, b, 0, currentBlock) == Ok(p);
    SecondStep(env, level, b, 0, p, currentBlock);
    assert ElementStep(env, level, b, 0, p, currentBlock) == TxStep(env, LoneTx(raw), p);
  }

  /** At block zero, a nested bundle without max block empties the window of the bundle around it. */
  lemma UnsetNestedMaxEmptiesWindow(env: Env, raw: Raw)
    requires env.decode(raw).Some?
    ensures var inner := Plain(Inclusion(1, 0), LoneTx(raw));
            var outer := Plain(Inclusion(0, 5), Element(None, None, Some(inner), false, ""));
            var r := ValidateBundle(env, outer, 0);
            r.Ok? && r.value.bundle.inclusion == Inclusion(1, 0)
  {
    var inner := Plain(Inclusion(1, 0), LoneTx(raw));
    var el := Element(None, None, Some(inner), false, "");
    var outer := Plain(Inclusion(0, 5), el);
    PlainTxAccepted(env, 1, raw, Inclusion(1, 0), 0);
    var p := Progress(Inclusion(0, 5), None, [], [], 0, false);
    assert BodyUpTo(env, 0, outer, 0, 0) == Ok(p);
    SecondStep(env, 0, outer, 0, p, 0);
    assert ElementStep(env, 0, outer, 0, p, 0) == BundleStep(el, Validate(env, 1, inner, 0), p);
  }
}
