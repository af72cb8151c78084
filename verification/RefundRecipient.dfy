/** Conversion to the flat form that refund-recipient builders take. */
module RefundRecipient {
  import opened Bundles
  import opened Validation
  import opened ValidationWindow
  import opened ValidationNormal

  datatype ConvertError =
    | ErrTooDeep | ErrCantConvertToRefRecBundle | ErrNilBundleMetadata | ErrBody | ErrConstraints

  datatype Outcome<+T> = Done(value: T) | Failed(error: ConvertError)

  datatype Extract = Extract(txs: seq<Raw>, reverting: seq<Hash>)

  // Extracting transactions

  function TxExtract(b: Bundle, i: nat, x: Extract): Outcome<Extract>
    requires i < |b.body| && b.body[i].tx.Some?
  {
    var el := b.body[i];
    var txs := x.txs + [el.tx.value];
    if !el.canRevert then Done(Extract(txs, x.reverting))
    else if b.metadata.None? then Failed(ErrNilBundleMetadata)
    else if |b.metadata.value.bodyHashes| > i then Done(Extract(txs, x.reverting + [b.metadata.value.bodyHashes[i]]))
    else Failed(ErrBody)
  }

  /** What is extracted from the first `n` elements. */
  function ExtractUpTo(depth: nat, b: Bundle, n: nat): Outcome<Extract>
    requires n <= |b.body|
    decreases b, n
  {
    if n == 0 then Done(Extract([], []))
    else
      match ExtractUpTo(depth, b, n - 1)
      case Failed(e) => Failed(e)
      case Done(x) =>
        var el := b.body[n - 1];
        if el.tx.Some? then TxExtract(b, n - 1, x)
        else if el.bundle.Some? then
          match ExtractTxs(depth + 1, el.bundle.value)
          case Failed(e) => Failed(e)
          case Done(y) => Done(Extract(x.txs + y.txs, x.reverting + y.reverting))
        else Failed(ErrBody)
  }

  function ExtractTxs(depth: nat, b: Bundle): Outcome<Extract>
    decreases b, |b.body| + 1
  {
    if depth > MAX_NESTING_LEVEL then Failed(ErrTooDeep)
    else if depth > 0 && |b.validity.refund| > 0 then Failed(ErrCantConvertToRefRecBundle)
    else ExtractUpTo(depth, b, |b.body|)
  }

  /** The loop over the body. */
  method ExtractTxsForRefundRecipientBundle(depth: nat, bundle: Bundle) returns (r: Outcome<Extract>)
    ensures r == ExtractTxs(depth, bundle)
    decreases bundle
  {
    if depth > MAX_NESTING_LEVEL {
      return Failed(ErrTooDeep);
    }
    if depth > 0 && |bundle.validity.refund| > 0 {
      return Failed(ErrCantConvertToRefRecBundle);
    }
    var txs: seq<Raw>, canRevert: seq<Hash> := [], [];
    var i := 0;
    while i < |bundle.body|
      invariant 0 <= i <= |bundle.body|
      invariant ExtractUpTo(depth, bundle, i) == Done(Extract(txs, canRevert))
    {
      var el := bundle.body[i];
      if el.tx.Some? {
        txs := txs + [el.tx.value];
        if el.canRevert {
          if bundle.metadata.None? {
            FailureStays(depth, bundle, i + 1);
            return Failed(ErrNilBundleMetadata);
          }
          if |bundle.metadata.value.bodyHashes| > i {
            canRevert := canRevert + [bundle.metadata.value.bodyHashes[i]];
          } else {
            FailureStays(depth, bundle, i + 1);
            return Failed(ErrBody);
          }
        }
      } else if el.bundle.Some? {
        var inner := ExtractTxsForRefundRecipientBundle(depth + 1, el.bundle.value);
        if inner.Failed? {
          FailureStays(depth, bundle, i + 1);
          return Failed(inner.error);
        }
        txs := txs + inner.value.txs;
        canRevert := canRevert + inner.value.reverting;
      } else {
        FailureStays(depth, bundle, i + 1);
        return Failed(ErrBody);
      }
      i := i + 1;
    }
    r := Done(Extract(txs, canRevert));
  }

  lemma {:induction false} FailureStays(depth: nat, b: Bundle, n: nat)
    requires n <= |b.body| && ExtractUpTo(depth, b, n).Failed?
    ensures ExtractUpTo(depth, b, |b.body|) == ExtractUpTo(depth, b, n)
    decreases |b.body| - n
  {
    if n < |b.body| {
      FailureStays(depth, b, n + 1);
    }
  }

  lemma {:induction false} PrefixDone(depth: nat, b: Bundle, n: nat)
    requires n <= |b.body| && ExtractUpTo(depth, b, |b.body|).Done?
    ensures ExtractUpTo(depth, b, n).Done?
    decreases |b.body| - n
  {
    if n < |b.body| {
      PrefixDone(depth, b, n + 1);
    }
  }

  // The leaves of the tree

  /** The transaction elements of a bundle, in order, nested ones in place. */
  ghost function Leaves(b: Bundle): seq<Element>
    decreases b, |b.body| + 1
  {
    LeavesUpTo(b, |b.body|)
  }

  ghost function LeavesUpTo(b: Bundle, n: nat): seq<Element>
    requires n <= |b.body|
    decreases b, n
  {
    if n == 0 then []
    else
      var el := b.body[n - 1];
      LeavesUpTo(b, n - 1) +
      if el.tx.Some? then [el]
      else if el.bundle.Some? then Leaves(el.bundle.value)
      else []
  }

  /** The raw transactions of leaves. */
  ghost function RawTxs(els: seq<Element>): seq<Raw> {
    if els == [] then []
    else RawTxs(els[..|els| - 1]) + if els[|els| - 1].tx.Some? then [els[|els| - 1].tx.value] else []
  }

  /** The transaction hashes of the leaves in revert mode allow. */
  ghost function AllowedHashes(env: Env, els: seq<Element>): seq<Hash> {
    if els == [] then []
    else
      var el := els[|els| - 1];
      AllowedHashes(env, els[..|els| - 1]) +
      if el.tx.Some? && el.revertMode == RevertModeAllow && env.decode(el.tx.value).Some?
      then [env.txHash(env.decode(el.tx.value).value)] else []
  }

  lemma {:induction false} LeafConcat(env: Env, xs: seq<Element>, ys: seq<Element>)
    ensures RawTxs(xs + ys) == RawTxs(xs) + RawTxs(ys)
    ensures AllowedHashes(env, xs + ys) == AllowedHashes(env, xs) + AllowedHashes(env, ys)
    decreases |ys|
  {
    if ys == [] {
      assert xs + ys == xs;
    } else {
      var n := |ys| - 1;
      LeafConcat(env, xs, ys[..n]);
      assert (xs + ys)[..|xs + ys| - 1] == xs + ys[..n];
    }
  }

  lemma OneLeaf(env: Env, el: Element)
    requires el.tx.Some?
    ensures RawTxs([el]) == [el.tx.value]
    ensures AllowedHashes(env, [el]) ==
            if el.revertMode == RevertModeAllow && env.decode(el.tx.value).Some?
            then [env.txHash(env.decode(el.tx.value).value)] else []
  {
    assert [el][..0] == [];
    assert RawTxs([el]) == RawTxs([]) + [el.tx.value];
    assert AllowedHashes(env, []) == [];
  }

  // Bundles whose recorded body hashes belong to their elements

  ghost predicate ElementAligned(env: Env, b: Bundle, i: nat)
    requires i < |b.body| && b.metadata.Some? && |b.metadata.value.bodyHashes| == |b.body|
    decreases b, 0
  {
    var el := b.body[i];
    if el.tx.Some? then
      && env.decode(el.tx.value).Some?
      && b.metadata.value.bodyHashes[i] == env.txHash(env.decode(el.tx.value).value)
      && (el.canRevert <==> el.revertMode == RevertModeAllow)
    else el.bundle.Some? ==> Aligned(env, el.bundle.value)
  }

  ghost predicate Aligned(env: Env, b: Bundle)
    decreases b, 1
  {
    && b.metadata.Some?
    && |b.metadata.value.bodyHashes| == |b.body|
    && forall i :: 0 <= i < |b.body| ==> ElementAligned(env, b, i)
  }

  /** The conversion lists the leaves in order, and the hashes of exactly those that may revert. */
  lemma {:induction false} ExtractsLeaves(env: Env, depth: nat, b: Bundle)
    requires Aligned(env, b) && ExtractTxs(depth, b).Done?
    ensures ExtractTxs(depth, b).value == Extract(RawTxs(Leaves(b)), AllowedHashes(env, Leaves(b)))
    decreases b, |b.body| + 1
  {
    ExtractsLeavesUpTo(env, depth, b, |b.body|);
  }

  lemma {:induction false} ExtractsLeavesUpTo(env: Env, depth: nat, b: Bundle, n: nat)
    requires Aligned(env, b) && n <= |b.body| && ExtractUpTo(depth, b, |b.body|).Done?
    ensures ExtractUpTo(depth, b, n) ==
            Done(Extract(RawTxs(LeavesUpTo(b, n)), AllowedHashes(env, LeavesUpTo(b, n))))
    decreases b, n
  {
    if n > 0 {
      PrefixDone(depth, b, n);
      ExtractsLeavesUpTo(env, depth, b, n - 1);
      var el, xs := b.body[n - 1], LeavesUpTo(b, n - 1);
      assert ElementAligned(env, b, n - 1);
      if el.tx.Some? {
        LeafConcat(env, xs, [el]);
        OneLeaf(env, el);
        assert AllowedHashes(env, xs) + [] == AllowedHashes(env, xs);
      } else if el.bundle.Some? {
        ExtractsLeaves(env, depth + 1, el.bundle.value);
        LeafConcat(env, xs, Leaves(el.bundle.value));
      }
    }
  }

  // When the extraction succeeds

  /** Every element is a transaction or a bundle, and only the top level asks for refunds. */
  ghost predicate Flattenable(depth: nat, b: Bundle)
    decreases b
  {
    && depth <= 1
    && (depth > 0 ==> |b.validity.refund| == 0)
    && forall i :: 0 <= i < |b.body| ==>
         b.body[i].tx.Some? || (b.body[i].bundle.Some? && Flattenable(depth + 1, b.body[i].bundle.value))
  }

  lemma {:induction false} DoneIsFlattenable(depth: nat, b: Bundle)
    requires ExtractTxs(depth, b).Done?
    ensures Flattenable(depth, b)
    decreases b
  {
    forall i | 0 <= i < |b.body|
      ensures b.body[i].tx.Some? || (b.body[i].bundle.Some? && Flattenable(depth + 1, b.body[i].bundle.value))
    {
      PrefixDone(depth, b, i);
      PrefixDone(depth, b, i + 1);
      if b.body[i].tx.None? {
        DoneIsFlattenable(depth + 1, b.body[i].bundle.value);
      }
    }
  }

  lemma {:induction false} AlignedConverts(env: Env, depth: nat, b: Bundle)
    requires Aligned(env, b) && Flattenable(depth, b)
    ensures ExtractTxs(depth, b).Done?
    decreases b, |b.body| + 1
  {
    AlignedConvertsUpTo(env, depth, b, |b.body|);
  }

  lemma {:induction false} AlignedConvertsUpTo(env: Env, depth: nat, b: Bundle, n: nat)
    requires Aligned(env, b) && Flattenable(depth, b) && n <= |b.body|
    ensures ExtractUpTo(depth, b, n).Done?
    decreases b, n
  {
    if n > 0 {
      AlignedConvertsUpTo(env, depth, b, n - 1);
      assert ElementAligned(env, b, n - 1);
      if b.body[n - 1].tx.None? {
        AlignedConverts(env, depth + 1, b.body[n - 1].bundle.value);
      }
    }
  }

  // Accepted bundles

  lemma {:induction false} MatchedHasNoHashes(env: Env, level: nat, b: Bundle, n: nat, currentBlock: nat)
    requires IsAccepted(env, level, b, currentBlock) && n <= |b.body| && !At(env, level, b, n, currentBlock).unmatched
    ensures forall i :: 0 <= i < n ==> !KindOf(b.body[i]).IsHash?
    decreases n
  {
    hide Validate, BodyUpTo;
    if n > 0 {
      StepAt(env, level, b, n - 1, currentBlock);
      MatchedHasNoHashes(env, level, b, n - 1, currentBlock);
    }
  }

  /** Without empty elements, the recorded hashes line up with the body. */
  lemma {:induction false} HashesLineUp(env: Env, level: nat, b: Bundle, n: nat, currentBlock: nat)
    requires IsAccepted(env, level, b, currentBlock) && n <= |b.body|
    requires forall i :: 0 <= i < n ==> !KindOf(b.body[i]).IsEmpty?
    ensures var hashes := At(env, level, b, n, currentBlock).hashes;
            && |hashes| == n
            && forall i :: 0 <= i < n && KindOf(b.body[i]).IsTx? ==>
                 && env.decode(b.body[i].tx.value).Some?
                 && ValidRevertMode(b.body[i].revertMode)
                 && hashes[i] == env.txHash(env.decode(b.body[i].tx.value).value)
    decreases n
  {
    hide Validate, BodyUpTo;
    AcceptedFacts(env, level, b, currentBlock);
    if n > 0 {
      HashesLineUp(env, level, b, n - 1, currentBlock);
      StepAt(env, level, b, n - 1, currentBlock);
    }
  }

  lemma AcceptedShape(env: Env, level: nat, b: Bundle, currentBlock: nat)
    requires IsAccepted(env, level, b, currentBlock) && !Validate(env, level, b, currentBlock).value.unmatched
    ensures var b' := Validate(env, level, b, currentBlock).value.bundle;
            && |b'.body| == |b.body|
            && (forall i :: 0 <= i < |b.body| ==>
                  && b'.body[i] == NormalElement(env, level, b.body[i], currentBlock)
                  && !KindOf(b.body[i]).IsHash?)
            && b'.metadata.Some?
            && b'.metadata.value.bodyHashes == At(env, level, b, |b.body|, currentBlock).hashes
            && Validate(env, level, b, currentBlock).value.txs == At(env, level, b, |b.body|, currentBlock).txs <= MAX_BODY_SIZE
  {
    AcceptedFacts(env, level, b, currentBlock);
    hide Validate, BodyUpTo, ElementStep;
    BodyIsNormal(env, level, b, currentBlock);
    MatchedHasNoHashes(env, level, b, |b.body|, currentBlock);
  }

  lemma {:induction false} AcceptedAligned(env: Env, level: nat, b: Bundle, currentBlock: nat, depth: nat)
    requires IsAccepted(env, level, b, currentBlock) && !Validate(env, level, b, currentBlock).value.unmatched
    requires Flattenable(depth, Validate(env, level, b, currentBlock).value.bundle)
    ensures Aligned(env, Validate(env, level, b, currentBlock).value.bundle)
    decreases b
  {
    hide Validate;
    var b' := Validate(env, level, b, currentBlock).value.bundle;
    AcceptedShape(env, level, b, currentBlock);
    HashesLineUp(env, level, b, |b.body|, currentBlock);
    forall i | 0 <= i < |b'.body|
      ensures ElementAligned(env, b', i)
    {
      if IsBundleAt(b, i) {
        InnerAccepted(env, level, b, i, currentBlock);
        AcceptedAligned(env, level + 1, InnerAt(b, i), currentBlock, depth + 1);
      } else {
        RevertModeNormalised(b.body[i].canRevert, b.body[i].revertMode);
      }
    }
  }

  lemma {:induction false} LeavesAreTxs(b: Bundle, n: nat)
    requires n <= |b.body|
    ensures forall i :: 0 <= i < |LeavesUpTo(b, n)| ==> LeavesUpTo(b, n)[i].tx.Some?
    decreases b, n
  {
    if n > 0 {
      LeavesAreTxs(b, n - 1);
      var el := b.body[n - 1];
      if el.tx.None? && el.bundle.Some? {
        var inner := el.bundle.value;
        LeavesAreTxs(inner, |inner.body|);
        assert LeavesUpTo(b, n) == LeavesUpTo(b, n - 1) + LeavesUpTo(inner, |inner.body|);
      }
    }
  }

  lemma {:induction false} RawTxsCount(els: seq<Element>)
    requires forall i :: 0 <= i < |els| ==> els[i].tx.Some?
    ensures |RawTxs(els)| == |els|
  {
    if els != [] {
      RawTxsCount(els[..|els| - 1]);
    }
  }

  /** The validator's count is the number of leaves. */
  lemma {:induction false} CountsLeaves(env: Env, level: nat, b: Bundle, n: nat, currentBlock: nat)
    requires IsAccepted(env, level, b, currentBlock) && !Validate(env, level, b, currentBlock).value.unmatched && n <= |b.body|
    ensures var b' := Validate(env, level, b, currentBlock).value.bundle;
            && |b'.body| == |b.body|
            && |LeavesUpTo(b', n)| == At(env, level, b, n, currentBlock).txs
    decreases b, n
  {
    hide Validate, BodyUpTo, Finish;
    AcceptedShape(env, level, b, currentBlock);
    if n == 0 {
      AcceptedFacts(env, level, b, currentBlock);
    } else {
      CountsLeaves(env, level, b, n - 1, currentBlock);
      if IsBundleAt(b, n - 1) {
        var inner := InnerAt(b, n - 1);
        InnerAccepted(env, level, b, n - 1, currentBlock);
        CountsLeaves(env, level + 1, inner, |inner.body|, currentBlock);
        AcceptedShape(env, level + 1, inner, currentBlock);
      } else {
        StepAt(env, level, b, n - 1, currentBlock);
      }
    }
  }

  /**
   For an accepted, fully matched bundle the extraction succeeds exactly when the bundle is flattenable;
   then it lists the leaves of the tree in order, as many as the validator counted, and the hashes of
   exactly the leaves in mode allow.
   */
  lemma ExtractionPreservesMeaning(env: Env, b: Bundle, currentBlock: nat)
    requires IsAccepted(env, 0, b, currentBlock) && !ValidateBundle(env, b, currentBlock).value.unmatched
    ensures var a := ValidateBundle(env, b, currentBlock).value;
            && (ExtractTxs(0, a.bundle).Done? <==> Flattenable(0, a.bundle))
            && (ExtractTxs(0, a.bundle).Done? ==>
                  && ExtractTxs(0, a.bundle).value == Extract(RawTxs(Leaves(a.bundle)), AllowedHashes(env, Leaves(a.bundle)))
                  && |RawTxs(Leaves(a.bundle))| == a.txs <= MAX_BODY_SIZE)
  {
    hide Validate;
    var a := ValidateBundle(env, b, currentBlock).value;
    if ExtractTxs(0, a.bundle).Done? {
      DoneIsFlattenable(0, a.bundle);
    }
    if Flattenable(0, a.bundle) {
      AcceptedAligned(env, 0, b, currentBlock, 0);
      AlignedConverts(env, 0, a.bundle);
      ExtractsLeaves(env, 0, a.bundle);
    }
    CountsLeaves(env, 0, b, |b.body|, currentBlock);
    AcceptedShape(env, 0, b, currentBlock);
    LeavesAreTxs(a.bundle, |a.bundle.body|);
    RawTxsCount(Leaves(a.bundle));
  }

  // Refund data

  datatype Refund = Refund(percent: Option<int>, recipient: Option<Address>)

  /** Go's integer division truncates toward zero. */
  function TruncatedDiv(n: int, d: nat): int
    requires d > 0
  {
    if n < 0 then -(-n / d) else n / d
  }

  /** Only the shapes that the flat form can express are converted; the body index has been validated. */
  function ExtractRefund(b: Bundle): Outcome<Refund>
    requires RefundIndexOk(b)
  {
    if |b.validity.refund| == 0 then Done(Refund(None, None))
    else if |b.validity.refund| > 1 then Failed(ErrCantConvertToRefRecBundle)
    else
      var percent, idx := b.validity.refund[0].percent, b.validity.refund[0].bodyIdx;
      if |b.body| <= idx then Failed(ErrConstraints)
      else
        var el := b.body[idx];
        if el.tx.Some? then
          if idx == 0 then Done(Refund(Some(percent), None)) else Failed(ErrCantConvertToRefRecBundle)
        else if el.bundle.Some? then
          var config := el.bundle.value.validity.refundConfig;
          if |config| == 0 then
            if idx == 0 then Done(Refund(Some(percent), None)) else Failed(ErrCantConvertToRefRecBundle)
          else if |config| > 1 then Failed(ErrCantConvertToRefRecBundle)
          else Done(Refund(Some(TruncatedDiv(config[0].percent * percent, 100)), Some(config[0].address)))
        else Failed(ErrBody)
  }

  /** A caller's refund index is not negative; the source panics on a negative one. */
  predicate RefundIndexOk(b: Bundle) {
    |b.validity.refund| == 1 ==> b.validity.refund[0].bodyIdx >= 0
  }

  /**
   The flat form can say who is refunded: nobody, the sender of the first transaction, or the one
   recipient that a bundle names.
   */
  predicate RefundExpressible(b: Bundle) {
    || b.validity.refund == []
    || (&& |b.validity.refund| == 1
        && 0 <= b.validity.refund[0].bodyIdx < |b.body|
        && var idx := b.validity.refund[0].bodyIdx;
           || (idx == 0 && RefundsItsSender(b.body[0]))
           || (b.body[idx].tx.None? && b.body[idx].bundle.Some? &&
               |b.body[idx].bundle.value.validity.refundConfig| == 1))
  }

  predicate RefundsItsSender(el: Element) {
    el.tx.Some? || (el.bundle.Some? && el.bundle.value.validity.refundConfig == [])
  }

  lemma ExtractRefundIff(b: Bundle)
    requires RefundIndexOk(b)
    ensures ExtractRefund(b).Done? <==> RefundExpressible(b)
  {
  }

  lemma ScaledPercent(c: int, p: int)
    requires PercentOk(c) && PercentOk(p)
    ensures 0 <= TruncatedDiv(c * p, 100) <= c
    ensures TruncatedDiv(c * p, 100) <= p
    ensures 100 * TruncatedDiv(c * p, 100) <= c * p < 100 * TruncatedDiv(c * p, 100) + 100
  {
    assert 0 <= c * p;
    assert c * p <= 100 * p && c * p <= c * 100;
  }

  lemma AcceptedPercents(env: Env, level: nat, b: Bundle, currentBlock: nat)
    requires IsAccepted(env, level, b, currentBlock)
    ensures RefundOk(b.validity.refund, |b.body|) && ConfigOk(b.validity.refundConfig)
  {
    AcceptedFacts(env, level, b, currentBlock);
    hide Validate, BodyUpTo, ElementStep;
  }

  /** `p` is one hundredth of `product`, cut off toward zero. */
  predicate IsHundredth(p: int, product: int) {
    if product >= 0 then 100 * p <= product < 100 * p + 100 else 100 * p - 100 < product <= 100 * p
  }

  /**
   The refund is the one asked for. It names no recipient exactly when there is none, or when the sender of
   the first transaction is refunded in full: by a first element that is a transaction, or a bundle without
   refund config. It names the one recipient in a bundle's config, with that recipient's share, exactly when
   the refunded element is such a bundle.
   */
  ghost predicate RefundOf(b: Bundle, refund: Refund) {
    && (refund.percent.None? <==> b.validity.refund == [])
    && (refund.percent.None? ==> refund.recipient.None?)
    && (refund.percent.Some? ==>
          && |b.validity.refund| == 1 && 0 <= b.validity.refund[0].bodyIdx < |b.body|
          && var c := b.validity.refund[0];
             var el := b.body[c.bodyIdx];
             && (refund.recipient.None? <==>
                   c.bodyIdx == 0 && (el.tx.Some? || (el.bundle.Some? && el.bundle.value.validity.refundConfig == [])))
             && (refund.recipient.None? ==> refund.percent.value == c.percent)
             && (refund.recipient.Some? <==>
                   el.tx.None? && el.bundle.Some? && |el.bundle.value.validity.refundConfig| == 1)
             && (refund.recipient.Some? ==>
                   var config := el.bundle.value.validity.refundConfig[0];
                   && refund.recipient.value == config.address
                   && IsHundredth(refund.percent.value, config.percent * c.percent)))
  }

  /** Whatever refund data is found is the refund asked for, percentages in range or not. */
  lemma ExtractsRefund(b: Bundle)
    requires RefundIndexOk(b) && ExtractRefund(b).Done?
    ensures RefundOf(b, ExtractRefund(b).value)
  {
    if |b.validity.refund| == 1 {
      var c := b.validity.refund[0];
      var el := b.body[c.bodyIdx];
      if el.tx.None? && el.bundle.Some? && |el.bundle.value.validity.refundConfig| == 1 {
        Hundredth(el.bundle.value.validity.refundConfig[0].percent * c.percent);
      }
    }
  }

  lemma Hundredth(product: int)
    ensures IsHundredth(TruncatedDiv(product, 100), product)
  {
  }

  /** The percentage lies in [0, 100] and is at most each of its factors. */
  ghost predicate RefundInRange(b: Bundle, refund: Refund)
    requires RefundOf(b, refund)
  {
    refund.percent.Some? ==>
      var c, p := b.validity.refund[0], refund.percent.value;
      && 0 <= p <= 100 && p <= c.percent
      && (refund.recipient.Some? ==> p <= b.body[c.bodyIdx].bundle.value.validity.refundConfig[0].percent)
  }

  /** For an accepted bundle the refund is the one asked for, in range and at most each of its factors. */
  lemma RefundIsSane(env: Env, b: Bundle, currentBlock: nat)
    requires IsAccepted(env, 0, b, currentBlock) && !ValidateBundle(env, b, currentBlock).value.unmatched
    ensures var b' := ValidateBundle(env, b, currentBlock).value.bundle;
            && RefundOk(b'.validity.refund, |b'.body|)
            && (ExtractRefund(b').Done? ==>
                  RefundOf(b', ExtractRefund(b').value) && RefundInRange(b', ExtractRefund(b').value))
  {
    hide Validate;
    var b' := ValidateBundle(env, b, currentBlock).value.bundle;
    AcceptedPercents(env, 0, b, currentBlock);
    BodyIsNormal(env, 0, b, currentBlock);
    if ExtractRefund(b').Done? {
      ExtractsRefund(b');
    }
    if |b'.validity.refund| == 1 {
      var c := b'.validity.refund[0];
      AcceptedShape(env, 0, b, currentBlock);
      if IsBundleAt(b, c.bodyIdx) {
        var inner := InnerAt(b, c.bodyIdx);
        InnerAccepted(env, 0, b, c.bodyIdx, currentBlock);
        AcceptedPercents(env, 1, inner, currentBlock);
        BodyIsNormal(env, 1, inner, currentBlock);
        if |inner.validity.refundConfig| == 1 {
          ScaledPercent(inner.validity.refundConfig[0].percent, c.percent);
        }
      }
    }
  }

  // The whole conversion

  datatype RefundRecBundle = RefundRecBundle(block: nat, txs: seq<Raw>, reverting: seq<Hash>, refund: Refund)

  /** ConvertBundleToRefundRecipient */
  function Convert(b: Bundle): Outcome<RefundRecBundle>
    requires RefundIndexOk(b)
  {
    match ExtractTxs(0, b)
    case Failed(e) => Failed(e)
    case Done(x) =>
      match ExtractRefund(b)
      case Failed(e) => Failed(e)
      case Done(refund) => Done(RefundRecBundle(b.inclusion.block, x.txs, x.reverting, refund))
  }

  /**
   An accepted, fully matched bundle converts exactly when it is flattenable and the flat form can
   express its refund. Then the transactions are the leaves of the tree in order, as many as the
   validator counted, the reverting hashes are those of exactly the leaves in mode allow, and the
   refund is the one asked for.
   */
  lemma ConversionPreservesMeaning(env: Env, b: Bundle, currentBlock: nat)
    requires IsAccepted(env, 0, b, currentBlock) && !ValidateBundle(env, b, currentBlock).value.unmatched
    ensures var a := ValidateBundle(env, b, currentBlock).value;
            && RefundIndexOk(a.bundle)
            && (Convert(a.bundle).Done? <==> Flattenable(0, a.bundle) && RefundExpressible(a.bundle))
            && (Convert(a.bundle).Done? ==>
                  var flat := Convert(a.bundle).value;
                  && flat.block == a.bundle.inclusion.block
                  && flat.txs == RawTxs(Leaves(a.bundle)) && |flat.txs| == a.txs <= MAX_BODY_SIZE
                  && flat.reverting == AllowedHashes(env, Leaves(a.bundle))
                  && RefundOf(a.bundle, flat.refund) && RefundInRange(a.bundle, flat.refund))
  {
    RefundIsSane(env, b, currentBlock);
    ExtractionPreservesMeaning(env, b, currentBlock);
    hide Validate, ExtractTxs, Leaves, RefundOf, RefundInRange;
    ExtractRefundIff(ValidateBundle(env, b, currentBlock).value.bundle);
  }

  // The bundle that is sent has been cleaned first

  /** Before a bundle goes out, privacy and metadata are removed from it and from all nested bundles. */
  ghost function Cleaned(b: Bundle): Bundle
    decreases b, |b.body| + 1
  {
    b.(body := CleanedUpTo(b, |b.body|), privacy := None, metadata := None)
  }

  ghost function CleanedUpTo(b: Bundle, n: nat): (body: seq<Element>)
    requires n <= |b.body|
    ensures |body| == n
    decreases b, n
  {
    if n == 0 then []
    else
      var el := b.body[n - 1];
      CleanedUpTo(b, n - 1) + [if el.bundle.Some? then el.(bundle := Some(Cleaned(el.bundle.value))) else el]
  }

  lemma {:induction false} CleanedElement(b: Bundle, n: nat, i: nat)
    requires i < n <= |b.body|
    ensures CleanedUpTo(b, n)[i] ==
            if b.body[i].bundle.Some? then b.body[i].(bundle := Some(Cleaned(b.body[i].bundle.value))) else b.body[i]
  {
    if i < n - 1 {
      CleanedElement(b, n - 1, i);
    }
  }

  /** No transaction, at any depth, may revert. */
  ghost predicate NothingReverts(b: Bundle)
    decreases b
  {
    forall i :: 0 <= i < |b.body| ==>
      if b.body[i].tx.Some? then !b.body[i].canRevert
      else b.body[i].bundle.Some? ==> NothingReverts(b.body[i].bundle.value)
  }

  lemma {:induction false} CleanedExtractsIff(env: Env, depth: nat, b: Bundle)
    ensures ExtractTxs(depth, Cleaned(b)).Done? <==> Flattenable(depth, b) && NothingReverts(b)
    ensures ExtractTxs(depth, Cleaned(b)).Done? ==> ExtractTxs(depth, Cleaned(b)).value == Extract(RawTxs(Leaves(b)), [])
    decreases b, |b.body| + 1
  {
    var c := Cleaned(b);
    if ExtractTxs(depth, c).Done? {
      forall i | 0 <= i < |b.body|
        ensures b.body[i].tx.Some? || (b.body[i].bundle.Some? && Flattenable(depth + 1, b.body[i].bundle.value))
        ensures if b.body[i].tx.Some? then !b.body[i].canRevert
                else b.body[i].bundle.Some? ==> NothingReverts(b.body[i].bundle.value)
      {
        CleanedElement(b, |b.body|, i);
        PrefixDone(depth, c, i);
        PrefixDone(depth, c, i + 1);
        if b.body[i].tx.None? && b.body[i].bundle.Some? {
          CleanedExtractsIff(env, depth + 1, b.body[i].bundle.value);
        }
      }
    }
    if Flattenable(depth, b) && NothingReverts(b) {
      CleanedExtractsUpTo(env, depth, b, |b.body|);
    }
  }

  lemma RawTxsStep(env: Env, b: Bundle, n: nat)
    requires 0 < n <= |b.body|
    ensures var el := b.body[n - 1];
            RawTxs(LeavesUpTo(b, n)) == RawTxs(LeavesUpTo(b, n - 1)) +
            if el.tx.Some? then [el.tx.value] else if el.bundle.Some? then RawTxs(Leaves(el.bundle.value)) else []
  {
    var el := b.body[n - 1];
    if el.tx.Some? {
      OneLeaf(env, el);
      LeafConcat(env, LeavesUpTo(b, n - 1), [el]);
    } else if el.bundle.Some? {
      LeafConcat(env, LeavesUpTo(b, n - 1), Leaves(el.bundle.value));
    } else {
      LeafConcat(env, LeavesUpTo(b, n - 1), []);
    }
  }

  lemma CleanedAt(b: Bundle, i: nat)
    requires i < |b.body|
    ensures |Cleaned(b).body| == |b.body|
    ensures Cleaned(b).body[i] ==
            if b.body[i].bundle.Some? then b.body[i].(bundle := Some(Cleaned(b.body[i].bundle.value))) else b.body[i]
  {
    CleanedElement(b, |b.body|, i);
  }

  /** One element that adds `ys` and nothing that may revert. */
  lemma ExtractStep(depth: nat, b: Bundle, n: nat, xs: seq<Raw>, ys: seq<Raw>)
    requires 0 < n <= |b.body| && ExtractUpTo(depth, b, n - 1) == Done(Extract(xs, []))
    requires var el := b.body[n - 1];
             if el.tx.Some? then !el.canRevert && ys == [el.tx.value]
             else el.bundle.Some? && ExtractTxs(depth + 1, el.bundle.value) == Done(Extract(ys, []))
    ensures ExtractUpTo(depth, b, n) == Done(Extract(xs + ys, []))
  {
    hide ExtractTxs;
    var none: seq<Hash> := [];
    assert none + none == none;
  }

  lemma ExtractStart(depth: nat, b: Bundle)
    ensures ExtractUpTo(depth, Cleaned(b), 0) == Done(Extract(RawTxs(LeavesUpTo(b, 0)), []))
  {
    assert RawTxs([]) == [];
  }

  lemma FlatElement(depth: nat, b: Bundle, i: nat)
    requires Flattenable(depth, b) && NothingReverts(b) && i < |b.body|
    ensures b.body[i].tx.Some? ==> !b.body[i].canRevert
    ensures b.body[i].tx.None? ==>
              && b.body[i].bundle.Some?
              && Flattenable(depth + 1, b.body[i].bundle.value) && NothingReverts(b.body[i].bundle.value)
  {
  }

  lemma {:induction false} CleanedExtractsUpTo(env: Env, depth: nat, b: Bundle, n: nat)
    requires Flattenable(depth, b) && NothingReverts(b) && n <= |b.body| == |Cleaned(b).body|
    ensures ExtractUpTo(depth, Cleaned(b), n) == Done(Extract(RawTxs(LeavesUpTo(b, n)), []))
    decreases b, n
  {
    hide ExtractUpTo, ExtractTxs, Cleaned, RawTxs, LeavesUpTo, Leaves, Flattenable, NothingReverts;
    if n == 0 {
      ExtractStart(depth, b);
    } else {
      var el := b.body[n - 1];
      FlatElement(depth, b, n - 1);
      CleanedExtractsUpTo(env, depth, b, n - 1);
      if el.tx.None? {
        CleanedExtractsIff(env, depth + 1, el.bundle.value);
      }
      RawTxsStep(env, b, n);
      CleanedAt(b, n - 1);
      ExtractStep(depth, Cleaned(b), n, RawTxs(LeavesUpTo(b, n - 1)),
                  if el.tx.Some? then [el.tx.value] else RawTxs(Leaves(el.bundle.value)));
    }
  }

  lemma CleanedRefund(b: Bundle)
    requires RefundIndexOk(b)
    ensures ExtractRefund(Cleaned(b)) == ExtractRefund(b)
  {
    if |b.validity.refund| == 1 && b.validity.refund[0].bodyIdx < |b.body| {
      CleanedElement(b, |b.body|, b.validity.refund[0].bodyIdx);
    }
  }

  /**
   A cleaned bundle, which is what builders are sent, converts exactly when the bundle is flattenable,
   the flat form can express its refund, and none of its transactions may revert. Then transactions and
   refund are those of the bundle before cleaning.
   */
  lemma CleanedConvertsIff(env: Env, b: Bundle)
    requires RefundIndexOk(b)
    ensures var r := Convert(Cleaned(b));
            && (r.Done? <==> Flattenable(0, b) && RefundExpressible(b) && NothingReverts(b))
            && (r.Done? ==>
                  && r.value.block == b.inclusion.block
                  && r.value.txs == RawTxs(Leaves(b)) && r.value.reverting == []
                  && RefundOf(b, r.value.refund))
  {
    if ExtractRefund(b).Done? {
      ExtractsRefund(b);
    }
    hide RefundOf;
    CleanedExtractsIff(env, 0, b);
    CleanedRefund(b);
    ExtractRefundIff(b);
  }

  /** A bundle with one transaction that may revert converts, but no longer once it is cleaned. */
  lemma CleaningLosesReverting(env: Env, b: Bundle)
    requires |b.body| == 1 && b.body[0].tx.Some? && b.body[0].canRevert && b.validity.refund == []
    requires b.metadata.Some? && |b.metadata.value.bodyHashes| == 1
    ensures Convert(b).Done? && Convert(Cleaned(b)).Failed?
  {
    assert ExtractUpTo(0, b, 0).Done?;
    assert ExtractUpTo(0, b, 1).Done?;
    CleanedConvertsIff(env, b);
  }

  function TwoTxs(raw: Raw): Bundle {
    var el := Element(None, Some(raw), None, false, RevertModeFail);
    Bundle("v0.1", "", Inclusion(1, 1), [el, el],
           Validity([RefundConstraint(0, 40), RefundConstraint(1, 40)], []), None, None)
  }

  /** An accepted bundle that can be flattened but refunds two of its transactions does not convert. */
  lemma TwoRefundsDoNotConvert(env: Env, raw: Raw)
    requires env.decode(raw).Some?
    ensures var r := ValidateBundle(env, TwoTxs(raw), 0);
            && r.Ok? && !r.value.unmatched
            && Flattenable(0, r.value.bundle) && RefundIndexOk(r.value.bundle)
            && Convert(r.value.bundle).Failed?
  {
    var b := TwoTxs(raw);
    var el, h := b.body[0], env.txHash(env.decode(raw).value);
    assert Normalised(el) == el;
    var p0 := Progress(Inclusion(1, 1), None, [], [], 0, false);
    assert BodyUpTo(env, 0, b, 0, 0) == Ok(p0);
    var p1 := p0.(body := [el], hashes := [h], txs := 1);
    assert p0.body + [el] == [el] && p0.hashes + [h] == [h];
    assert BodyUpTo(env, 0, b, 1, 0) == Ok(p1);
    var p2 := p1.(body := [el] + [el], hashes := [h] + [h], txs := 2);
    assert BodyUpTo(env, 0, b, 2, 0) == Ok(p2);
    var cs := b.validity.refund;
    assert cs[..1][..0] == [] && cs[..1][0] == cs[0];
    assert RefundTotal(cs[..1]) == 40;
    assert RefundTotal(cs) == 80;
  }
}
