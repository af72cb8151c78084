/** How the API joins a backrun to the stored bundle whose matching hash it names. */
module Matching {
  import opened Bundles
  import opened BuilderNames
  import opened BuilderTargets
  import opened Validation
  import opened ValidationWindow
  import opened ValidationNormal
  import opened Acceptance

  const REFUND_PERCENT: int := 90

  function Replaced(s: seq<Hash>, from: Hash, to: Hash): seq<Hash> {
    seq(|s|, i requires 0 <= i < |s| => if s[i] == from then to else s[i])
  }

  method FindAndReplace(hashes: array<Hash>, from: Hash, to: Hash) returns (found: bool)
    modifies hashes
    ensures hashes[..] == Replaced(old(hashes[..]), from, to)
    ensures forall i :: 0 <= i < hashes.Length ==> hashes[i] == if old(hashes[i]) == from then to else old(hashes[i])
    ensures found <==> from in old(hashes[..])
  {
    found := false;
    for i := 0 to hashes.Length
      invariant forall j :: 0 <= j < i ==> hashes[j] == if old(hashes[j]) == from then to else old(hashes[j])
      invariant forall j :: i <= j < hashes.Length ==> hashes[j] == old(hashes[j])
      invariant found <==> exists j :: 0 <= j < i && old(hashes[j]) == from
    {
      if hashes[i] == from {
        hashes[i] := to;
        found := true;
      }
    }
  }

  /** The share of the refund that goes to the stored bundle. */
  function RefundShare(stored: Bundle): int {
    if stored.privacy.Some? && stored.privacy.value.wantRefund.Some? then stored.privacy.value.wantRefund.value
    else REFUND_PERCENT
  }

  predicate MayBeBackrun(stored: Bundle) {
    stored.privacy.Some? && HasHint(stored.privacy.value.hints, HintHash)
  }

  predicate NamesAMatch(b: Bundle) {
    |b.body| > 0 && b.body[0].hash.Some?
  }

  /** The bundle with the stored one in place of its hash; builders and window are not merged yet. */
  function Joined(b: Bundle, stored: Bundle): Bundle
    requires NamesAMatch(b) && b.metadata.Some? && stored.metadata.Some?
  {
    b.(body := b.body[0 := b.body[0].(bundle := Some(stored), hash := None)],
       metadata := Some(b.metadata.value.(
         bodyHashes := Replaced(b.metadata.value.bodyHashes, b.body[0].hash.value, stored.metadata.value.bundleHash))),
       validity := b.validity.(refund := [RefundConstraint(0, RefundShare(stored))]))
  }

  datatype MatchResult =
    | Matched(bundle: Bundle) | ErrInternalServiceError | ErrBackrunInvalidBundle | ErrBackrunInclusion

  /** `m` is the joined bundle with the common window, and with builders that every bundle in it names. */
  ghost predicate IsMatch(b: Bundle, stored: Bundle, m: Bundle)
    requires NamesAMatch(b) && b.metadata.Some? && stored.metadata.Some?
  {
    && MergeInclusionIntervals(b.inclusion, stored.inclusion) == Ok(m.inclusion)
    && m == Joined(b, stored).(inclusion := m.inclusion, privacy := m.privacy)
    && (m.privacy.Some? <==> b.privacy.Some?)
    && (m.privacy.Some? ==>
          && m.privacy.value == b.privacy.value.(builders := m.privacy.value.builders)
          && forall s :: s in m.privacy.value.builders <==>
               forall inner :: Within(inner, Joined(b, stored)) ==> s in Names(BuildersOf(inner.privacy)))
  }

  /** The part of SendBundle that runs when a bundle is not fully matched; both bundles passed validation. */
  method MatchBackrun(b: Bundle, stored: Bundle) returns (r: MatchResult)
    requires b.metadata.Some? && stored.metadata.Some?
    ensures r.ErrInternalServiceError? <==> !NamesAMatch(b)
    ensures r.ErrBackrunInvalidBundle? <==> NamesAMatch(b) && !MayBeBackrun(stored)
    ensures r.Matched? <==>
              NamesAMatch(b) && MayBeBackrun(stored) && MergeInclusionIntervals(b.inclusion, stored.inclusion).Ok?
    ensures r.Matched? ==> IsMatch(b, stored, r.bundle)
    // the same in the bundles' own fields
    ensures r.ErrInternalServiceError? <==> b.body == [] || b.body[0].hash.None?
    ensures !r.ErrInternalServiceError? ==>
              (r.ErrBackrunInvalidBundle? <==> !SharesHash(stored))
    ensures !r.ErrInternalServiceError? && !r.ErrBackrunInvalidBundle? ==>
              (r.ErrBackrunInclusion? <==>
                 b.inclusion.max < stored.inclusion.block || stored.inclusion.max < b.inclusion.block)
    ensures r.Matched? ==>
              && |r.bundle.body| == |b.body|
              && r.bundle.body[0] == b.body[0].(hash := None, bundle := Some(stored))
              && r.bundle.body[1..] == b.body[1..]
              && r.bundle.validity == b.validity.(refund := [RefundConstraint(0,
                   if stored.privacy.value.wantRefund.Some? then stored.privacy.value.wantRefund.value else 90)])
              && r.bundle.inclusion.block in {b.inclusion.block, stored.inclusion.block}
              && r.bundle.inclusion.max in {b.inclusion.max, stored.inclusion.max}
              && r.bundle.inclusion.block >= b.inclusion.block && r.bundle.inclusion.block >= stored.inclusion.block
              && r.bundle.inclusion.max <= b.inclusion.max && r.bundle.inclusion.max <= stored.inclusion.max
    ensures r.Matched? ==>
              var before := b.metadata.value.bodyHashes;
              && r.bundle.metadata.Some?
              && r.bundle.metadata.value == b.metadata.value.(bodyHashes := r.bundle.metadata.value.bodyHashes)
              && |r.bundle.metadata.value.bodyHashes| == |before|
              && forall i :: 0 <= i < |before| ==>
                   r.bundle.metadata.value.bodyHashes[i] ==
                   if before[i] == b.body[0].hash.value then stored.metadata.value.bundleHash else before[i]
  {
    if |b.body| == 0 || b.body[0].hash.None? {
      return ErrInternalServiceError;
    }
    var unmatchedHash := b.body[0].hash.value;
    if stored.privacy.None? || !HasHint(stored.privacy.value.hints, HintHash) {
      return ErrBackrunInvalidBundle;
    }
    var m := b.(body := b.body[0 := b.body[0].(bundle := Some(stored), hash := None)]);
    var hashes := new Hash[|b.metadata.value.bodyHashes|]
      (i requires 0 <= i < |b.metadata.value.bodyHashes| => b.metadata.value.bodyHashes[i]);
    assert hashes[..] == b.metadata.value.bodyHashes;
    var _ := FindAndReplace(hashes, unmatchedHash, stored.metadata.value.bundleHash);
    m := m.(metadata := Some(b.metadata.value.(bodyHashes := hashes[..])));
    var refundPercent := REFUND_PERCENT;
    if stored.privacy.value.wantRefund.Some? {
      refundPercent := stored.privacy.value.wantRefund.value;
    }
    m := m.(validity := b.validity.(refund := [RefundConstraint(0, refundPercent)]));
    assert m == Joined(b, stored);
    m := MergePrivacyBuilders(m);
    var merged := MergeInclusionIntervals(b.inclusion, stored.inclusion);
    if merged.Err? {
      return ErrBackrunInclusion;
    }
    m := m.(inclusion := merged.value);
    return Matched(m);
  }

  // Accepted bundles

  /** An accepted bundle that asks for any hint can be backrun. */
  lemma HintedMayBeBackrun(env: Env, level: nat, b: Bundle, currentBlock: nat)
    requires IsAccepted(env, level, b, currentBlock) && b.privacy.Some?
    ensures var stored := Validate(env, level, b, currentBlock).value.bundle;
            && (MayBeBackrun(stored) <==> b.privacy.value.hints != 0)
            && (SharesHash(stored) <==> b.privacy.value.hints != 0)
  {
    AcceptedPrivacy(env, level, b, currentBlock);
    hide Validate;
    HashBit(b.privacy.value.hints);
  }

  lemma HashBit(hints: HintIntent)
    ensures HasHint(hints | 16, HintHash) && !HasHint(0, HintHash)
  {
  }

  /** Only the first element of an accepted bundle can be a hash, and the bundle is unmatched exactly if it is. */
  lemma HashOnlyFirst(env: Env, b: Bundle, currentBlock: nat)
    requires IsAccepted(env, 0, b, currentBlock)
    ensures var a := ValidateBundle(env, b, currentBlock).value;
            && (a.unmatched <==> NamesAMatch(a.bundle))
            && forall i :: 0 < i < |a.bundle.body| ==> a.bundle.body[i].hash.None?
  {
    BodyIsNormal(env, 0, b, currentBlock);
    AcceptedFacts(env, 0, b, currentBlock);
    hide Validate, BodyUpTo, ElementStep;
    HashUpTo(env, b, |b.body|, currentBlock);
    var b' := ValidateBundle(env, b, currentBlock).value.bundle;
    forall i | 0 <= i < |b'.body|
      ensures KindOf(b'.body[i]).IsHash? <==> i == 0 && KindOf(b.body[0]).IsHash?
    {
      assert KindOf(b'.body[i]) == KindOf(b.body[i]);
    }
  }

  lemma {:induction false} HashUpTo(env: Env, b: Bundle, n: nat, currentBlock: nat)
    requires IsAccepted(env, 0, b, currentBlock) && n <= |b.body|
    ensures At(env, 0, b, n, currentBlock).unmatched <==> n > 0 && KindOf(b.body[0]).IsHash?
    ensures forall i :: 0 < i < n ==> !KindOf(b.body[i]).IsHash?
    decreases n
  {
    hide Validate, BodyUpTo;
    AcceptedFacts(env, 0, b, currentBlock);
    if n > 0 {
      HashUpTo(env, b, n - 1, currentBlock);
      StepAt(env, 0, b, n - 1, currentBlock);
    }
  }

  /** The share a stored bundle asks for was checked when it was accepted, and its metadata was written. */
  lemma ShareIsSane(env: Env, level: nat, b: Bundle, currentBlock: nat)
    requires IsAccepted(env, level, b, currentBlock)
    ensures PercentOk(RefundShare(Validate(env, level, b, currentBlock).value.bundle))
    ensures Validate(env, level, b, currentBlock).value.bundle.metadata.Some?
  {
    AcceptedFacts(env, level, b, currentBlock);
    hide Validate, BodyUpTo, ElementStep;
  }

  /**
   Joining two accepted bundles: nothing is left unmatched, the stored bundle is nested as such unless the
   first element also carried a transaction, the refund passes validation's check, every builder named is one
   of the stored bundle's, and, for proper windows, the result may be included exactly where both may.
   */
  lemma MatchIsSound(env: Env, b: Bundle, currentBlock: nat, before: Bundle, thenBlock: nat, m: Bundle)
    requires IsAccepted(env, 0, b, currentBlock) && ValidateBundle(env, b, currentBlock).value.unmatched
    requires IsAccepted(env, 0, before, thenBlock)
    requires var a, stored := ValidateBundle(env, b, currentBlock).value.bundle, ValidateBundle(env, before, thenBlock).value.bundle;
             NamesAMatch(a) && IsMatch(a, stored, m)
    ensures var a, stored := ValidateBundle(env, b, currentBlock).value.bundle, ValidateBundle(env, before, thenBlock).value.bundle;
            && (forall i :: 0 <= i < |m.body| ==> m.body[i].hash.None?)
            && (KindOf(m.body[0]).IsBundle? <==> a.body[0].tx.None?)
            && RefundOk(m.validity.refund, |m.body|)
            && (m.privacy.Some? ==> forall s :: s in m.privacy.value.builders ==> s in Names(BuildersOf(stored.privacy)))
            && (NestedMaxSet(b) && NestedMaxSet(before) ==>
                  && m.inclusion.block <= m.inclusion.max
                  && forall block: nat :: Includes(m.inclusion, block) <==> Includes(a.inclusion, block) && Includes(stored.inclusion, block))
  {
    hide Validate, BodyUpTo, ElementStep, MergeInclusionIntervals;
    var a, stored := ValidateBundle(env, b, currentBlock).value.bundle, ValidateBundle(env, before, thenBlock).value.bundle;
    HashOnlyFirst(env, b, currentBlock);
    ShareIsSane(env, 0, b, currentBlock);
    ShareIsSane(env, 0, before, thenBlock);
    SingleRefund(RefundShare(stored), |m.body|);
    StoredIsWithin(a, stored);
    if NestedMaxSet(b) && NestedMaxSet(before) {
      WindowSoundIff(env, b, currentBlock);
      WindowSoundIff(env, before, thenBlock);
      MergeIsIntersection(a.inclusion, stored.inclusion);
    }
  }

  lemma SingleRefund(percent: int, bodySize: nat)
    requires PercentOk(percent) && bodySize > 0
    ensures RefundOk([RefundConstraint(0, percent)], bodySize)
  {
    var cs := [RefundConstraint(0, percent)];
    assert cs[..|cs| - 1] == [];
    assert RefundTotal(cs) == percent;
  }

  lemma StoredIsWithin(a: Bundle, stored: Bundle)
    requires NamesAMatch(a) && a.metadata.Some? && stored.metadata.Some?
    ensures Within(stored, Joined(a, stored))
  {
    assert Within(stored, stored);
    assert Joined(a, stored).body[0].bundle == Some(stored);
  }
}
