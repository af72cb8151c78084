/** Validation and normalisation of a submitted bundle. */
module Validation {
  import opened Bundles
  import opened BuilderNames

  const MAX_BLOCK_OFFSET: nat := 5
  const MAX_BLOCK_RANGE: nat := 30
  const MAX_BODY_SIZE: nat := 50
  const MAX_NESTING_LEVEL: nat := 1

  datatype Error =
    | ErrBundleTooDeep | ErrUnsupportedBundleVersion | ErrInvalidInclusion
    | ErrInvalidBundleBodySize | ErrInvalidBundleBody | ErrUndecodable | ErrInvalidRevertMode
    | ErrInvalidBundleConstraints | ErrInvalidBundlePrivacy

  datatype Result<+T> = Ok(value: T) | Err(error: Error)

  /** An accepted bundle in its normalised form, with its hash, transaction count and matching state. */
  datatype Accepted = Accepted(bundle: Bundle, hash: Hash, txs: nat, unmatched: bool)

  // Inclusion

  function WithDefaultMax(i: Inclusion): Inclusion {
    if i.max == 0 then i.(max := i.block) else i
  }

  /** The four inclusion checks. */
  predicate InclusionOk(i: Inclusion, currentBlock: nat) {
    && i.block <= i.max
    && i.max - i.block <= MAX_BLOCK_RANGE
    && currentBlock < i.max
    && i.block <= currentBlock + MAX_BLOCK_OFFSET
  }

  predicate Includes(i: Inclusion, block: nat) {
    i.block <= block <= i.max
  }

  function MergeInclusionIntervals(top: Inclusion, inner: Inclusion): Result<Inclusion> {
    if top.max < inner.block || inner.max < top.block then Err(ErrInvalidInclusion)
    else Ok(Inclusion(if top.block < inner.block then inner.block else top.block,
                      if top.max > inner.max then inner.max else top.max))
  }

  /**
   Merging any two windows intersects them, and fails only when they have no block in common. The result
   has a block exactly when both windows have one; then a failure also means that they are disjoint.
   */
  lemma MergeIsIntersection(top: Inclusion, inner: Inclusion)
    ensures var r := MergeInclusionIntervals(top, inner);
            && (r.Ok? ==> forall b: nat :: Includes(r.value, b) <==> Includes(top, b) && Includes(inner, b))
            && (r.Ok? ==> (r.value.block <= r.value.max <==> top.block <= top.max && inner.block <= inner.max))
            && (r.Err? ==> forall b: nat :: !(Includes(top, b) && Includes(inner, b)))
            && (top.block <= top.max && inner.block <= inner.max ==>
                  (r.Err? <==> forall b: nat :: !(Includes(top, b) && Includes(inner, b))))
  {
    var r := MergeInclusionIntervals(top, inner);
    if r.Ok? && r.value.block <= r.value.max {
      assert Includes(top, r.value.block) && Includes(inner, r.value.block);
    }
  }

  // Privacy

  /** The builders that a privacy setting allows; an absent setting allows none. */
  function BuildersOf(p: Option<Privacy>): seq<string> {
    if p.Some? then p.value.builders else []
  }

  function MergeBuilders(top: Option<Privacy>, inner: Option<Privacy>): Option<Privacy> {
    match top
    case None => None
    case Some(p) =>
      if inner.None? then Some(p.(builders := []))
      else Some(p.(builders := Intersection(p.builders, inner.value.builders)))
  }

  lemma MergeBuildersIsIntersection(top: Option<Privacy>, inner: Option<Privacy>)
    ensures top.Some? ==>
              MergeBuilders(top, inner) == Some(top.value.(builders := Intersection(top.value.builders, BuildersOf(inner))))
  {
    if top.Some? && inner.None? {
      FilteredElements(LowerAll([]), Names(top.value.builders));
    }
  }

  // Revert modes

  predicate ValidRevertMode(mode: string) {
    mode == "" || mode == RevertModeFail || mode == RevertModeDrop || mode == RevertModeAllow
  }

  /** The revert mode wins over the older canRevert flag, which only counts when no mode is given. */
  function ApplyRevertMode(canRevert: bool, mode: string): (bool, string) {
    if mode == RevertModeFail then (false, mode)
    else if mode == RevertModeDrop then (false, mode)
    else if mode == RevertModeAllow then (true, mode)
    else if canRevert then (true, RevertModeAllow)
    else (false, RevertModeFail)
  }

  lemma RevertModeNormalised(canRevert: bool, mode: string)
    requires ValidRevertMode(mode)
    ensures var (can, m) := ApplyRevertMode(canRevert, mode);
            && ValidRevertMode(m) && m != ""
            && (can <==> m == RevertModeAllow)
            && (mode != "" ==> m == mode)
            && (mode == "" ==> can == canRevert && m != RevertModeDrop)
            && ApplyRevertMode(can, m) == (can, m)
  {
  }

  // The body

  /** The accumulators of the loop over the body. */
  datatype Progress = Progress(
    inclusion: Inclusion,
    privacy: Option<Privacy>,
    body: seq<Element>,
    hashes: seq<Hash>,
    txs: nat,
    unmatched: bool)

  function Normalised(el: Element): Element {
    var (can, mode) := ApplyRevertMode(el.canRevert, el.revertMode);
    el.(canRevert := can, revertMode := mode)
  }

  function HashStep(el: Element, i: nat, len: nat, p: Progress): Result<Progress>
    requires el.hash.Some?
  {
    if p.unmatched || i != 0 then Err(ErrInvalidBundleBody)
    else if len == 1 then Err(ErrInvalidBundleBody)
    else Ok(p.(body := p.body + [el], hashes := p.hashes + [el.hash.value], txs := p.txs + 1, unmatched := true))
  }

  function TxStep(env: Env, el: Element, p: Progress): Result<Progress>
    requires el.tx.Some?
  {
    var tx := env.decode(el.tx.value);
    if tx.None? then Err(ErrUndecodable)
    else if !ValidRevertMode(el.revertMode) then Err(ErrInvalidRevertMode)
    else Ok(p.(body := p.body + [Normalised(el)], hashes := p.hashes + [env.txHash(tx.value)], txs := p.txs + 1))
  }

  /** The nested bundle has been merged into `p` and validated as `inner`. */
  function BundleStep(el: Element, inner: Result<Accepted>, p: Progress): Result<Progress>
    requires el.bundle.Some?
  {
    match MergeInclusionIntervals(p.inclusion, el.bundle.value.inclusion)
    case Err(e) => Err(e)
    case Ok(inclusion) =>
      match inner
      case Err(e) => Err(e)
      case Ok(a) =>
        if a.unmatched then Err(ErrInvalidBundleBody)
        else Ok(Progress(inclusion, MergeBuilders(p.privacy, el.bundle.value.privacy),
                         p.body + [el.(bundle := Some(a.bundle))], p.hashes + [a.hash], p.txs + a.txs, p.unmatched))
  }

  function ElementStep(env: Env, level: nat, b: Bundle, i: nat, p: Progress, currentBlock: nat): Result<Progress>
    requires i < |b.body|
    decreases b, i, 0
  {
    var el := b.body[i];
    match KindOf(el)
    case IsHash => HashStep(el, i, |b.body|, p)
    case IsTx => TxStep(env, el, p)
    case IsBundle => BundleStep(el, Validate(env, level + 1, el.bundle.value, currentBlock), p)
    case IsEmpty => Ok(p.(body := p.body + [el]))
  }

  /** The accumulators after the first `n` elements. */
  function BodyUpTo(env: Env, level: nat, b: Bundle, n: nat, currentBlock: nat): Result<Progress>
    requires n <= |b.body|
    decreases b, n
  {
    if n == 0 then Ok(Progress(WithDefaultMax(b.inclusion), b.privacy, [], [], 0, false))
    else
      match BodyUpTo(env, level, b, n - 1, currentBlock)
      case Err(e) => Err(e)
      case Ok(p) => ElementStep(env, level, b, n - 1, p, currentBlock)
  }

  function BundleHash(env: Env, hashes: seq<Hash>): Hash {
    if |hashes| == 1 then hashes[0] else env.keccak(hashes)
  }

  // Refunds

  predicate PercentOk(percent: int) {
    0 <= percent <= 100
  }

  function ConfigTotal(cs: seq<RefundConfig>): int {
    if cs == [] then 0 else ConfigTotal(cs[..|cs| - 1]) + cs[|cs| - 1].percent
  }

  function RefundTotal(cs: seq<RefundConstraint>): int {
    if cs == [] then 0 else RefundTotal(cs[..|cs| - 1]) + cs[|cs| - 1].percent
  }

  predicate ConfigOk(cs: seq<RefundConfig>) {
    (forall i :: 0 <= i < |cs| ==> PercentOk(cs[i].percent)) && ConfigTotal(cs) <= 100
  }

  /** Indices name distinct body elements, percentages are sane and do not add up to more than 100. */
  predicate RefundOk(cs: seq<RefundConstraint>, bodySize: nat) {
    && (forall i :: 0 <= i < |cs| ==> 0 <= cs[i].bodyIdx < bodySize && PercentOk(cs[i].percent))
    && (forall i, j :: 0 <= i < j < |cs| ==> cs[i].bodyIdx != cs[j].bodyIdx)
    && RefundTotal(cs) <= 100
  }

  predicate PrivacyOk(p: Option<Privacy>, unmatched: bool) {
    p.Some? ==>
      && (unmatched ==> p.value.hints == HintNone)
      && (p.value.wantRefund.Some? ==> PercentOk(p.value.wantRefund.value))
  }

  function CleanPrivacy(p: Option<Privacy>): Option<Privacy> {
    if p.None? then None
    else
      var hints := if p.value.hints != HintNone then SetHint(p.value.hints, HintHash) else p.value.hints;
      Some(p.value.(hints := hints, builders := LowerAll(p.value.builders)))
  }

  function FreshMetadata(env: Env, hash: Hash, bodyHashes: seq<Hash>): Metadata {
    Metadata(hash, bodyHashes, 0, "", 0, env.keccak([hash]), false, 0, false)
  }

  /** The checks and rewrites after the loop over the body. */
  function Finish(env: Env, b: Bundle, p: Progress): Result<Accepted> {
    var hash := BundleHash(env, p.hashes);
    if p.txs > MAX_BODY_SIZE then Err(ErrInvalidBundleBodySize)
    else if p.unmatched && |b.validity.refund| > 0 then Err(ErrInvalidBundleConstraints)
    else if !ConfigOk(b.validity.refundConfig) || !RefundOk(b.validity.refund, |b.body|)
      then Err(ErrInvalidBundleConstraints)
    else if !PrivacyOk(p.privacy, p.unmatched) then Err(ErrInvalidBundlePrivacy)
    else Ok(Accepted(
      b.(inclusion := p.inclusion,
         body := p.body,
         privacy := CleanPrivacy(p.privacy),
         metadata := Some(FreshMetadata(env, hash, p.hashes))),
      hash, p.txs, p.unmatched))
  }

  predicate VersionOk(version: string) {
    version == "beta-1" || version == "v0.1"
  }

  function Validate(env: Env, level: nat, b: Bundle, currentBlock: nat): Result<Accepted>
    decreases b, |b.body| + 1
  {
    if level > MAX_NESTING_LEVEL then Err(ErrBundleTooDeep)
    else if !VersionOk(b.version) then Err(ErrUnsupportedBundleVersion)
    else if !InclusionOk(WithDefaultMax(b.inclusion), currentBlock) then Err(ErrInvalidInclusion)
    else if |b.body| == 0 then Err(ErrInvalidBundleBodySize)
    else
      match BodyUpTo(env, level, b, |b.body|, currentBlock)
      case Err(e) => Err(e)
      case Ok(p) => Finish(env, b, p)
  }

  function ValidateBundle(env: Env, b: Bundle, currentBlock: nat): Result<Accepted> {
    Validate(env, 0, b, currentBlock)
  }
}
