/** What an accepted bundle looks like, and where it may be included. */
module ValidationWindow {
  import opened Bundles
  import opened Validation

  ghost predicate IsAccepted(env: Env, level: nat, b: Bundle, currentBlock: nat) {
    Validate(env, level, b, currentBlock).Ok?
  }

  /** The accumulators after `n` elements of an accepted bundle. */
  ghost function At(env: Env, level: nat, b: Bundle, n: nat, currentBlock: nat): Progress
    requires IsAccepted(env, level, b, currentBlock) && n <= |b.body|
  {
    PrefixOk(env, level, b, n, currentBlock);
    BodyUpTo(env, level, b, n, currentBlock).value
  }

  lemma {:induction false} PrefixOk(env: Env, level: nat, b: Bundle, n: nat, currentBlock: nat)
    requires n <= |b.body| && BodyUpTo(env, level, b, |b.body|, currentBlock).Ok?
    ensures BodyUpTo(env, level, b, n, currentBlock).Ok?
    decreases |b.body| - n
  {
    if n < |b.body| {
      PrefixOk(env, level, b, n + 1, currentBlock);
    }
  }

  /** One step of the loop over the body of an accepted bundle. */
  lemma StepAt(env: Env, level: nat, b: Bundle, i: nat, currentBlock: nat)
    requires IsAccepted(env, level, b, currentBlock) && i < |b.body|
    ensures ElementStep(env, level, b, i, At(env, level, b, i, currentBlock), currentBlock) ==
            Ok(At(env, level, b, i + 1, currentBlock))
  {
    PrefixOk(env, level, b, i, currentBlock);
    PrefixOk(env, level, b, i + 1, currentBlock);
  }

  lemma AcceptedFacts(env: Env, level: nat, b: Bundle, currentBlock: nat)
    requires IsAccepted(env, level, b, currentBlock)
    ensures level <= MAX_NESTING_LEVEL && VersionOk(b.version) && |b.body| > 0
    ensures InclusionOk(WithDefaultMax(b.inclusion), currentBlock)
    ensures Validate(env, level, b, currentBlock) == Finish(env, b, At(env, level, b, |b.body|, currentBlock))
    ensures At(env, level, b, 0, currentBlock) == Progress(WithDefaultMax(b.inclusion), b.privacy, [], [], 0, false)
  {
  }

  predicate IsBundleAt(b: Bundle, i: int) {
    0 <= i < |b.body| && KindOf(b.body[i]).IsBundle?
  }

  function InnerAt(b: Bundle, i: int): (inner: Bundle)
    requires IsBundleAt(b, i)
    ensures inner < b
  {
    b.body[i].bundle.value
  }

  /** Every nested bundle of an accepted one was accepted, one level down, and fully matched. */
  lemma InnerAccepted(env: Env, level: nat, b: Bundle, i: nat, currentBlock: nat)
    requires IsAccepted(env, level, b, currentBlock) && IsBundleAt(b, i)
    ensures IsAccepted(env, level + 1, InnerAt(b, i), currentBlock)
    ensures !Validate(env, level + 1, InnerAt(b, i), currentBlock).value.unmatched
    ensures var p := At(env, level, b, i, currentBlock);
            var a := Validate(env, level + 1, InnerAt(b, i), currentBlock).value;
            && MergeInclusionIntervals(p.inclusion, InnerAt(b, i).inclusion).Ok?
            && At(env, level, b, i + 1, currentBlock) ==
               Progress(MergeInclusionIntervals(p.inclusion, InnerAt(b, i).inclusion).value,
                        MergeBuilders(p.privacy, InnerAt(b, i).privacy),
                        p.body + [b.body[i].(bundle := Some(a.bundle))], p.hashes + [a.hash], p.txs + a.txs, p.unmatched)
  {
    StepAt(env, level, b, i, currentBlock);
  }

  /** Bundles nest at most one level deep. */
  lemma InnerHasNoInner(env: Env, level: nat, b: Bundle, currentBlock: nat, i: nat)
    requires IsAccepted(env, level, b, currentBlock) && level >= MAX_NESTING_LEVEL
    ensures !IsBundleAt(b, i)
  {
    if IsBundleAt(b, i) {
      InnerAccepted(env, level, b, i, currentBlock);
    }
  }

  lemma OtherStep(env: Env, level: nat, b: Bundle, i: nat, currentBlock: nat)
    requires IsAccepted(env, level, b, currentBlock) && i < |b.body| && !IsBundleAt(b, i)
    ensures At(env, level, b, i + 1, currentBlock).inclusion == At(env, level, b, i, currentBlock).inclusion
    ensures At(env, level, b, i + 1, currentBlock).privacy == At(env, level, b, i, currentBlock).privacy
  {
    StepAt(env, level, b, i, currentBlock);
  }

  // Windows

  /** No bundle directly inside leaves its max block unset. */
  ghost predicate NestedMaxSet(b: Bundle) {
    forall i :: IsBundleAt(b, i) ==> InnerAt(b, i).inclusion.max != 0
  }

  lemma MergeKeepsChecks(top: Inclusion, inner: Inclusion, currentBlock: nat)
    requires InclusionOk(top, currentBlock) && InclusionOk(inner, currentBlock)
    requires MergeInclusionIntervals(top, inner).Ok?
    ensures InclusionOk(MergeInclusionIntervals(top, inner).value, currentBlock)
  {
  }

  /** The window so far passes the checks and is the intersection of all windows so far. */
  lemma {:induction false} WindowUpTo(env: Env, level: nat, b: Bundle, n: nat, currentBlock: nat)
    requires IsAccepted(env, level, b, currentBlock) && n <= |b.body| && NestedMaxSet(b)
    ensures var w := At(env, level, b, n, currentBlock).inclusion;
            && InclusionOk(w, currentBlock)
            && forall block: nat :: Includes(w, block) <==>
                 Includes(WithDefaultMax(b.inclusion), block) &&
                 forall i :: 0 <= i < n && IsBundleAt(b, i) ==> Includes(InnerAt(b, i).inclusion, block)
    decreases n
  {
    hide Validate, BodyUpTo, ElementStep, Finish;
    AcceptedFacts(env, level, b, currentBlock);
    if n > 0 {
      WindowUpTo(env, level, b, n - 1, currentBlock);
      if IsBundleAt(b, n - 1) {
        var inner := InnerAt(b, n - 1);
        InnerAccepted(env, level, b, n - 1, currentBlock);
        AcceptedFacts(env, level + 1, inner, currentBlock);
        assert WithDefaultMax(inner.inclusion) == inner.inclusion;
        var top := At(env, level, b, n - 1, currentBlock).inclusion;
        MergeKeepsChecks(top, inner.inclusion, currentBlock);
        MergeIsIntersection(top, inner.inclusion);
      } else {
        OtherStep(env, level, b, n - 1, currentBlock);
      }
    }
  }

  /** The window only shrinks. */
  lemma {:induction false} WindowShrinks(env: Env, level: nat, b: Bundle, i: nat, n: nat, currentBlock: nat)
    requires IsAccepted(env, level, b, currentBlock) && i <= n <= |b.body|
    ensures At(env, level, b, n, currentBlock).inclusion.max <= At(env, level, b, i, currentBlock).inclusion.max
    ensures At(env, level, b, n, currentBlock).inclusion.block >= At(env, level, b, i, currentBlock).inclusion.block
    decreases n - i
  {
    hide Validate, BodyUpTo, ElementStep, Finish;
    if i < n {
      WindowShrinks(env, level, b, i, n - 1, currentBlock);
      if IsBundleAt(b, n - 1) {
        InnerAccepted(env, level, b, n - 1, currentBlock);
      } else {
        OtherStep(env, level, b, n - 1, currentBlock);
      }
    }
  }

  /** `inner` occurs inside `b`, at any depth. */
  ghost predicate IsNested(inner: Bundle, b: Bundle)
    decreases b
  {
    exists i :: IsBundleAt(b, i) && (InnerAt(b, i) == inner || IsNested(inner, InnerAt(b, i)))
  }

  lemma NestedIsDirect(env: Env, b: Bundle, currentBlock: nat, inner: Bundle)
    requires IsAccepted(env, 0, b, currentBlock)
    ensures IsNested(inner, b) <==> exists i :: IsBundleAt(b, i) && InnerAt(b, i) == inner
  {
    hide Validate, BodyUpTo, ElementStep, Finish;
    if IsNested(inner, b) {
      var i :| IsBundleAt(b, i) && (InnerAt(b, i) == inner || IsNested(inner, InnerAt(b, i)));
      InnerAccepted(env, 0, b, i, currentBlock);
      if IsNested(inner, InnerAt(b, i)) {
        var j :| IsBundleAt(InnerAt(b, i), j) &&
                 (InnerAt(InnerAt(b, i), j) == inner || IsNested(inner, InnerAt(InnerAt(b, i), j)));
        InnerHasNoInner(env, 1, InnerAt(b, i), currentBlock, j);
      }
    }
  }

  /**
   The window of an accepted bundle still passes the inclusion checks, which ran before merging,
   exactly when every nested bundle sets its max block.
   */
  lemma WindowSoundIff(env: Env, b: Bundle, currentBlock: nat)
    requires IsAccepted(env, 0, b, currentBlock)
    ensures InclusionOk(ValidateBundle(env, b, currentBlock).value.bundle.inclusion, currentBlock) <==> NestedMaxSet(b)
  {
    AcceptedFacts(env, 0, b, currentBlock);
    hide Validate, BodyUpTo, ElementStep;
    if NestedMaxSet(b) {
      WindowUpTo(env, 0, b, |b.body|, currentBlock);
    } else {
      var i :| IsBundleAt(b, i) && InnerAt(b, i).inclusion.max == 0;
      InnerAccepted(env, 0, b, i, currentBlock);
      WindowShrinks(env, 0, b, i + 1, |b.body|, currentBlock);
    }
  }

  /** On any chain past its first blocks, acceptance itself rules out unset nested max blocks. */
  lemma LateAcceptanceSetsNestedMax(env: Env, b: Bundle, currentBlock: nat)
    requires IsAccepted(env, 0, b, currentBlock) && currentBlock >= MAX_BLOCK_RANGE
    ensures NestedMaxSet(b)
  {
    AcceptedFacts(env, 0, b, currentBlock);
    hide Validate, BodyUpTo, ElementStep, Finish;
    forall i | IsBundleAt(b, i)
      ensures InnerAt(b, i).inclusion.max != 0
    {
      InnerAccepted(env, 0, b, i, currentBlock);
      WindowShrinks(env, 0, b, 0, i, currentBlock);
    }
  }

  /** An accepted bundle's window is the non-empty intersection of its own and all nested windows. */
  lemma WindowIsIntersection(env: Env, b: Bundle, currentBlock: nat, block: nat)
    requires IsAccepted(env, 0, b, currentBlock) && NestedMaxSet(b)
    ensures var w := ValidateBundle(env, b, currentBlock).value.bundle.inclusion;
            && w.block <= w.max
            && (Includes(w, block) <==>
                  Includes(WithDefaultMax(b.inclusion), block) &&
                  forall inner :: IsNested(inner, b) ==> Includes(inner.inclusion, block))
  {
    AcceptedFacts(env, 0, b, currentBlock);
    hide Validate, BodyUpTo, ElementStep, IsNested;
    WindowUpTo(env, 0, b, |b.body|, currentBlock);
    forall inner
      ensures IsNested(inner, b) <==> exists i :: IsBundleAt(b, i) && InnerAt(b, i) == inner
    {
      NestedIsDirect(env, b, currentBlock, inner);
    }
  }
}
