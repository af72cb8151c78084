/** Which builders a bundle is sent to. */
module BuilderTargets {
  import opened Bundles
  import opened BuilderNames
  import opened Validation

  // Merging the builder lists of a whole bundle tree

  /** `inner` is `b` or occurs inside it, at any depth. */
  ghost predicate Within(inner: Bundle, b: Bundle)
    decreases b
  {
    inner == b || exists i :: 0 <= i < |b.body| && b.body[i].bundle.Some? && Within(inner, b.body[i].bundle.value)
  }

  /** A builder that every bundle of the tree names, ignoring case; an absent privacy setting names none. */
  ghost predicate NamedThroughout(name: string, b: Bundle)
    decreases b
  {
    && name in Names(BuildersOf(b.privacy))
    && forall i :: 0 <= i < |b.body| && b.body[i].bundle.Some? ==> NamedThroughout(name, b.body[i].bundle.value)
  }

  lemma {:induction false} NamedThroughoutIff(name: string, b: Bundle)
    ensures NamedThroughout(name, b) <==> forall inner :: Within(inner, b) ==> name in Names(BuildersOf(inner.privacy))
    decreases b
  {
    forall i | 0 <= i < |b.body| && b.body[i].bundle.Some?
      ensures NamedThroughout(name, b.body[i].bundle.value) <==>
              forall inner :: Within(inner, b.body[i].bundle.value) ==> name in Names(BuildersOf(inner.privacy))
    {
      NamedThroughoutIff(name, b.body[i].bundle.value);
    }
    assert Within(b, b);
    if NamedThroughout(name, b) {
      forall inner | Within(inner, b)
        ensures name in Names(BuildersOf(inner.privacy))
      {
        if inner != b {
          var i :| 0 <= i < |b.body| && b.body[i].bundle.Some? && Within(inner, b.body[i].bundle.value);
        }
      }
    }
  }

  /** Narrows the top-level builders, held in `top`, by every list in the tree below `bundle`. */
  method MergePrivacyBuildersInner(bundle: Bundle, top: Privacy) returns (merged: Privacy)
    ensures merged == top.(builders := merged.builders)
    ensures forall s :: s in Names(merged.builders) <==> s in Names(top.builders) && NamedThroughout(s, bundle)
    ensures LowerAll(merged.builders) == merged.builders
    decreases bundle
  {
    merged := MergeBuilders(Some(top), bundle.privacy).value;
    MergeBuildersIsIntersection(Some(top), bundle.privacy);
    IntersectionNames(top.builders, BuildersOf(bundle.privacy));
    var i := 0;
    while i < |bundle.body|
      invariant 0 <= i <= |bundle.body|
      invariant merged == top.(builders := merged.builders)
      invariant LowerAll(merged.builders) == merged.builders
      invariant forall s :: s in Names(merged.builders) <==>
                  && s in Names(top.builders) && s in Names(BuildersOf(bundle.privacy))
                  && forall j :: 0 <= j < i && bundle.body[j].bundle.Some? ==> NamedThroughout(s, bundle.body[j].bundle.value)
    {
      if bundle.body[i].bundle.Some? {
        merged := MergePrivacyBuildersInner(bundle.body[i].bundle.value, merged);
      }
      i := i + 1;
    }
  }

  /** Sets the top-level builders to those that every bundle in the tree names. */
  method MergePrivacyBuilders(bundle: Bundle) returns (merged: Bundle)
    ensures merged == bundle.(privacy := merged.privacy)
    ensures merged.privacy.Some? <==> bundle.privacy.Some?
    ensures bundle.privacy.Some? ==>
              && merged.privacy == Some(bundle.privacy.value.(builders := merged.privacy.value.builders))
              && (forall s :: s in merged.privacy.value.builders <==>
                    forall inner :: Within(inner, bundle) ==> s in Names(BuildersOf(inner.privacy)))
  {
    merged := bundle;
    if bundle.privacy.Some? {
      var top := MergePrivacyBuildersInner(bundle, bundle.privacy.value);
      merged := bundle.(privacy := Some(top));
      NamesOfLowered(top.builders);
      forall s
        ensures s in top.builders <==> forall inner :: Within(inner, bundle) ==> s in Names(BuildersOf(inner.privacy))
      {
        NamedThroughoutIff(s, bundle);
      }
    }
  }

  // Choosing targets

  datatype BuilderApi = RefundRecipientApi | MevShareBeta1 | MevShareBeta1Replacement

  datatype Builder = Builder(name: string, api: BuilderApi, delay: bool)

  /** A delayed builder is left out for the first block of the bundle's window. */
  predicate Delayed(b: Builder, firstBlock: bool) {
    b.delay && firstBlock
  }

  predicate ReplacementOk(b: Builder, isReplaceable: bool) {
    isReplaceable ==> b.api.MevShareBeta1Replacement?
  }

  /** The external builder `name` gets the bundle. */
  predicate IsExternalTarget(name: string, builders: seq<string>, external: map<string, Builder>, isReplaceable: bool, firstBlock: bool) {
    && name in Names(builders)
    && name != "default" && name != "flashbots"
    && name in external
    && ReplacementOk(external[name], isReplaceable)
    && !Delayed(external[name], firstBlock)
  }

  predicate NoDuplicates(names: seq<string>) {
    forall i, j :: 0 <= i < j < |names| ==> names[i] != names[j]
  }

  /** The loop over the bundle's builders: each suitable external builder once. */
  method ExternalTargets(builders: seq<string>, external: map<string, Builder>, isReplaceable: bool, firstBlock: bool)
      returns (targets: seq<string>)
    ensures NoDuplicates(targets)
    ensures forall s :: s in targets <==> IsExternalTarget(s, builders, external, isReplaceable, firstBlock)
    ensures forall s :: s in targets <==>
              && s in Names(builders) && s != "default" && s != "flashbots" && s in external
              && (isReplaceable ==> external[s].api == MevShareBeta1Replacement)
              && (external[s].delay ==> !firstBlock)
  {
    targets := [];
    var buildersUsed: set<string> := {};
    var i := 0;
    while i < |builders|
      invariant 0 <= i <= |builders|
      invariant NoDuplicates(targets)
      invariant forall s :: s in buildersUsed <==> s in Names(builders[..i]) && s != "default" && s != "flashbots"
      invariant forall s :: s in targets <==> IsExternalTarget(s, builders[..i], external, isReplaceable, firstBlock)
    {
      var target := ToLower(builders[i]);
      NamesAppend(builders, i);
      assert target in targets ==> target in buildersUsed;
      i := i + 1;
      if target == "default" || target == "flashbots" {
        continue;
      }
      if target in buildersUsed {
        continue;
      }
      buildersUsed := buildersUsed + {target};
      if target in external {
        var builder := external[target];
        if isReplaceable && builder.api != MevShareBeta1Replacement {
          continue;
        }
        if !(builder.delay && firstBlock) {
          targets := targets + [target];
        }
      }
    }
    assert builders[..i] == builders;
  }

  /** The internal builder gets the bundle. */
  predicate IsInternalTarget(b: Builder, isReplaceable: bool, restrictedSigner: bool, firstBlock: bool) {
    ReplacementOk(b, isReplaceable || restrictedSigner) && !Delayed(b, firstBlock)
  }

  /** Internal builders are sent to whatever the bundle names; `sent[i]` says whether the i-th one is. */
  method InternalTargets(ours: seq<Builder>, isReplaceable: bool, signer: string, restrictedAddress: string, firstBlock: bool)
      returns (sent: seq<bool>)
    ensures |sent| == |ours|
    ensures forall i :: 0 <= i < |ours| ==>
              (sent[i] <==> IsInternalTarget(ours[i], isReplaceable, ToLower(signer) == ToLower(restrictedAddress), firstBlock))
    ensures forall i :: 0 <= i < |ours| ==>
              (sent[i] <==>
                 && (isReplaceable || ToLower(signer) == ToLower(restrictedAddress) ==> ours[i].api == MevShareBeta1Replacement)
                 && (ours[i].delay ==> !firstBlock))
  {
    sent := [];
    var i := 0;
    while i < |ours|
      invariant 0 <= i <= |ours| && |sent| == i
      invariant forall j :: 0 <= j < i ==>
                  (sent[j] <==> IsInternalTarget(ours[j], isReplaceable, ToLower(signer) == ToLower(restrictedAddress), firstBlock))
    {
      var builder := ours[i];
      i := i + 1;
      if isReplaceable && builder.api != MevShareBeta1Replacement {
        sent := sent + [false];
        continue;
      }
      if ToLower(signer) == ToLower(restrictedAddress) && builder.api != MevShareBeta1Replacement {
        sent := sent + [false];
        continue;
      }
      sent := sent + [!(builder.delay && firstBlock)];
    }
  }

  /** The whole choice for one bundle and target block. */
  method SendTargets(bundle: Bundle, targetBlock: nat, external: map<string, Builder>) returns (targets: seq<string>)
    ensures NoDuplicates(targets)
    ensures forall s :: s in targets <==>
              && s in external && s != "default" && s != "flashbots"
              && (bundle.replacementUuid != "" ==> external[s].api == MevShareBeta1Replacement)
              && (external[s].delay ==> bundle.inclusion.block != targetBlock)
              && bundle.privacy.Some?
              && (forall inner :: Within(inner, bundle) ==>
                    inner.privacy.Some? && s in Names(inner.privacy.value.builders))
  {
    var builders: seq<string> := [];
    if bundle.privacy.Some? {
      var merged := MergePrivacyBuilders(bundle);
      builders := merged.privacy.value.builders;
      LoweredNames(builders, bundle);
    }
    targets := ExternalTargets(builders, external, bundle.replacementUuid != "", bundle.inclusion.block == targetBlock);
  }

  lemma LoweredNames(builders: seq<string>, b: Bundle)
    requires forall s :: s in builders <==> forall inner :: Within(inner, b) ==> s in Names(BuildersOf(inner.privacy))
    ensures Names(builders) == set s | s in builders
  {
    assert Within(b, b);
    forall s | s in builders
      ensures ToLower(s) == s
    {
      var names := BuildersOf(b.privacy);
      var i :| 0 <= i < |names| && s == ToLower(names[i]);
      ToLowerIdempotent(names[i]);
    }
  }
}
