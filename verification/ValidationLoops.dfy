/** Validation as the node runs it: loops that rewrite the bundle, proved to compute `Validate`. */
module ValidationLoops {
  import opened Bundles
  import opened BuilderNames
  import opened Validation

  method CheckRefundConfig(cs: seq<RefundConfig>) returns (ok: bool)
    ensures ok <==> ConfigOk(cs)
  {
    var total, i := 0, 0;
    while i < |cs|
      invariant 0 <= i <= |cs|
      invariant total == ConfigTotal(cs[..i])
      invariant forall j :: 0 <= j < i ==> PercentOk(cs[j].percent)
    {
      var percent := cs[i].percent;
      if percent < 0 || percent > 100 {
        return false;
      }
      assert cs[..i + 1][..i] == cs[..i];
      total := total + percent;
      i := i + 1;
    }
    assert cs[..i] == cs;
    ok := total <= 100;
  }

  method CheckRefunds(cs: seq<RefundConstraint>, bodySize: nat) returns (ok: bool)
    ensures ok <==> RefundOk(cs, bodySize)
  {
    var usedBodyPos: set<int> := {};
    var total, i := 0, 0;
    while i < |cs|
      invariant 0 <= i <= |cs|
      invariant total == RefundTotal(cs[..i])
      invariant usedBodyPos == set j | 0 <= j < i :: cs[j].bodyIdx
      invariant forall j :: 0 <= j < i ==> 0 <= cs[j].bodyIdx < bodySize && PercentOk(cs[j].percent)
      invariant forall j, k :: 0 <= j < k < i ==> cs[j].bodyIdx != cs[k].bodyIdx
    {
      var c := cs[i];
      if c.bodyIdx >= bodySize || c.bodyIdx < 0 {
        return false;
      }
      if c.bodyIdx in usedBodyPos {
        ghost var j :| 0 <= j < i && cs[j].bodyIdx == c.bodyIdx;
        return false;
      }
      usedBodyPos := usedBodyPos + {c.bodyIdx};
      if c.percent < 0 || c.percent > 100 {
        return false;
      }
      assert cs[..i + 1][..i] == cs[..i];
      total := total + c.percent;
      i := i + 1;
    }
    assert cs[..i] == cs;
    ok := total <= 100;
  }

  method LowerInPlace(builders: seq<string>) returns (lowered: seq<string>)
    ensures lowered == LowerAll(builders)
    ensures |lowered| == |builders| && forall i :: 0 <= i < |builders| ==> lowered[i] == ToLower(builders[i])
  {
    lowered := builders;
    var i := 0;
    while i < |lowered|
      invariant 0 <= i <= |lowered| == |builders|
      invariant forall j :: 0 <= j < i ==> lowered[j] == ToLower(builders[j])
      invariant forall j :: i <= j < |lowered| ==> lowered[j] == builders[j]
    {
      lowered := lowered[i := ToLower(lowered[i])];
      i := i + 1;
    }
  }

  /** `b` is the bundle as rewritten so far, after `i` elements. */
  ghost predicate Rewritten(env: Env, level: nat, original: Bundle, currentBlock: nat,
                            b: Bundle, i: nat, hashes: seq<Hash>, txs: nat, unmatched: bool)
  {
    && i <= |original.body| == |b.body|
    && b.body[i..] == original.body[i..]
    && b == original.(inclusion := b.inclusion, privacy := b.privacy, body := b.body)
    && BodyUpTo(env, level, original, i, currentBlock) ==
       Ok(Progress(b.inclusion, b.privacy, b.body[..i], hashes, txs, unmatched))
  }

  method ValidateBundleInner(env: Env, level: nat, bundle: Bundle, currentBlock: nat) returns (r: Result<Accepted>)
    ensures r == Validate(env, level, bundle, currentBlock)
    decreases bundle, 1
  {
    if level > MAX_NESTING_LEVEL {
      return Err(ErrBundleTooDeep);
    }
    if bundle.version != "beta-1" && bundle.version != "v0.1" {
      return Err(ErrUnsupportedBundleVersion);
    }
    var b := bundle;
    if b.inclusion.max == 0 {
      b := b.(inclusion := b.inclusion.(max := b.inclusion.block));
    }
    var minBlock, maxBlock := b.inclusion.block, b.inclusion.max;
    if maxBlock < minBlock {
      return Err(ErrInvalidInclusion);
    }
    if maxBlock - minBlock > MAX_BLOCK_RANGE {
      return Err(ErrInvalidInclusion);
    }
    if currentBlock >= maxBlock {
      return Err(ErrInvalidInclusion);
    }
    if minBlock > currentBlock + MAX_BLOCK_OFFSET {
      return Err(ErrInvalidInclusion);
    }
    if |b.body| == 0 {
      return Err(ErrInvalidBundleBodySize);
    }
    assert b.body[..0] == [];
    r := ValidateBody(env, level, bundle, b, currentBlock);
  }

  /** From the loop over the body on. */
  method ValidateBody(env: Env, level: nat, ghost original: Bundle, bundle: Bundle, currentBlock: nat) returns (r: Result<Accepted>)
    requires Rewritten(env, level, original, currentBlock, bundle, 0, [], 0, false)
    ensures r == match BodyUpTo(env, level, original, |original.body|, currentBlock)
                 case Err(e) => Err(e)
                 case Ok(p) => Finish(env, original, p)
    decreases original, 0
  {
    var b := bundle;
    var bodyHashes: seq<Hash> := [];
    var txs: nat, unmatched := 0, false;
    var i := 0;
    while i < |b.body|
      invariant Rewritten(env, level, original, currentBlock, b, i, bodyHashes, txs, unmatched)
      decreases |original.body| - i
    {
      var el := b.body[i];
      assert el == original.body[i];
      ghost var p := Progress(b.inclusion, b.privacy, b.body[..i], bodyHashes, txs, unmatched);
      if el.hash.Some? {
        if unmatched || i != 0 {
          ErrorStays(env, level, original, i + 1, currentBlock);
          return Err(ErrInvalidBundleBody);
        }
        unmatched := true;
        bodyHashes := bodyHashes + [el.hash.value];
        if |b.body| == 1 {
          ErrorStays(env, level, original, i + 1, currentBlock);
          return Err(ErrInvalidBundleBody);
        }
        txs := txs + 1;
      } else if el.tx.Some? {
        var tx := env.decode(el.tx.value);
        if tx.None? {
          ErrorStays(env, level, original, i + 1, currentBlock);
          return Err(ErrUndecodable);
        }
        if !ValidRevertMode(el.revertMode) {
          ErrorStays(env, level, original, i + 1, currentBlock);
          return Err(ErrInvalidRevertMode);
        }
        var (can, mode) := ApplyRevertMode(el.canRevert, el.revertMode);
        b := b.(body := b.body[i := el.(canRevert := can, revertMode := mode)]);
        bodyHashes := bodyHashes + [env.txHash(tx.value)];
        txs := txs + 1;
      } else if el.bundle.Some? {
        var inclusion := MergeInclusionIntervals(b.inclusion, el.bundle.value.inclusion);
        if inclusion.Err? {
          ErrorStays(env, level, original, i + 1, currentBlock);
          return Err(inclusion.error);
        }
        b := b.(inclusion := inclusion.value, privacy := MergeBuilders(b.privacy, el.bundle.value.privacy));
        var inner := ValidateBundleInner(env, level + 1, el.bundle.value, currentBlock);
        if inner.Err? {
          ErrorStays(env, level, original, i + 1, currentBlock);
          return Err(inner.error);
        }
        b := b.(body := b.body[i := el.(bundle := Some(inner.value.bundle))]);
        bodyHashes := bodyHashes + [inner.value.hash];
        txs := txs + inner.value.txs;
        if inner.value.unmatched {
          ErrorStays(env, level, original, i + 1, currentBlock);
          return Err(ErrInvalidBundleBody);
        }
      }
      assert b.body[..i + 1] == p.body + [b.body[i]];
      i := i + 1;
    }
    assert b.body[..i] == b.body;
    r := FinishBundle(env, original, b, bodyHashes, txs, unmatched);
  }

  /** After the loop over the body: checks, privacy clean-up and fresh metadata. */
  method FinishBundle(env: Env, ghost original: Bundle, bundle: Bundle, bodyHashes: seq<Hash>, txs: nat, unmatched: bool)
      returns (r: Result<Accepted>)
    requires bundle == original.(inclusion := bundle.inclusion, privacy := bundle.privacy, body := bundle.body)
    requires |bundle.body| == |original.body|
    ensures r == Finish(env, original, Progress(bundle.inclusion, bundle.privacy, bundle.body, bodyHashes, txs, unmatched))
  {
    var b := bundle;
    if txs > MAX_BODY_SIZE {
      return Err(ErrInvalidBundleBodySize);
    }
    var hash;
    if |bodyHashes| == 1 {
      hash := bodyHashes[0];
    } else {
      hash := env.keccak(bodyHashes);
    }
    if unmatched && |b.validity.refund| > 0 {
      return Err(ErrInvalidBundleConstraints);
    }
    var configOk := CheckRefundConfig(b.validity.refundConfig);
    if !configOk {
      return Err(ErrInvalidBundleConstraints);
    }
    var refundOk := CheckRefunds(b.validity.refund, |b.body|);
    if !refundOk {
      return Err(ErrInvalidBundleConstraints);
    }
    if unmatched && b.privacy.Some? && b.privacy.value.hints != HintNone {
      return Err(ErrInvalidBundlePrivacy);
    }
    if b.privacy.Some? {
      var privacy := b.privacy.value;
      if privacy.hints != HintNone {
        privacy := privacy.(hints := SetHint(privacy.hints, HintHash));
      }
      if privacy.wantRefund.Some? && (privacy.wantRefund.value < 0 || privacy.wantRefund.value > 100) {
        return Err(ErrInvalidBundlePrivacy);
      }
      var lowered := LowerInPlace(privacy.builders);
      b := b.(privacy := Some(privacy.(builders := lowered)));
    }
    var matchingHash := env.keccak([hash]);
    b := b.(metadata := Some(Metadata(hash, bodyHashes, 0, "", 0, matchingHash, false, 0, false)));
    r := Ok(Accepted(b, hash, txs, unmatched));
  }

  lemma {:induction false} ErrorStays(env: Env, level: nat, b: Bundle, n: nat, currentBlock: nat)
    requires n <= |b.body| && BodyUpTo(env, level, b, n, currentBlock).Err?
    ensures BodyUpTo(env, level, b, |b.body|, currentBlock) == BodyUpTo(env, level, b, n, currentBlock)
    decreases |b.body| - n
  {
    if n < |b.body| {
      ErrorStays(env, level, b, n + 1, currentBlock);
    }
  }
}
