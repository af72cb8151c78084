/** The body hashes of a joined bundle are the hashes of its elements. */
module MatchedHashes {
  import opened Bundles
  import opened Validation
  import opened ValidationWindow
  import opened ValidationNormal
  import opened BundleHash
  import opened Matching

  // Normalisation keeps the tree

  lemma {:induction false} NormalTree(env: Env, level: nat, b: Bundle, currentBlock: nat)
    requires IsAccepted(env, level, b, currentBlock)
    ensures TreeOf(env, Validate(env, level, b, currentBlock).value.bundle) == TreeOf(env, b)
    decreases b, |b.body| + 1
  {
    hide Validate;
    BodyIsNormal(env, level, b, currentBlock);
    NormalTreesUpTo(env, level, b, |b.body|, currentBlock);
  }

  lemma {:induction false} NormalTreesUpTo(env: Env, level: nat, b: Bundle, n: nat, currentBlock: nat)
    requires IsAccepted(env, level, b, currentBlock) && n <= |b.body|
    ensures var b' := Validate(env, level, b, currentBlock).value.bundle;
            n <= |b'.body| && TreesUpTo(env, b', n) == TreesUpTo(env, b, n)
    decreases b, n
  {
    hide Validate, TreeOf;
    BodyIsNormal(env, level, b, currentBlock);
    if n > 0 {
      NormalTreesUpTo(env, level, b, n - 1, currentBlock);
      NormalElementTrees(env, level, b, n - 1, currentBlock);
    }
  }

  lemma {:induction false} NormalElementTrees(env: Env, level: nat, b: Bundle, i: nat, currentBlock: nat)
    requires IsAccepted(env, level, b, currentBlock) && i < |b.body|
    ensures var b' := Validate(env, level, b, currentBlock).value.bundle;
            i < |b'.body| && ElementTrees(env, b'.body[i]) == ElementTrees(env, b.body[i])
    decreases b, i
  {
    BodyIsNormal(env, level, b, currentBlock);
    hide Validate, TreeOf;
    if IsBundleAt(b, i) {
      InnerAccepted(env, level, b, i, currentBlock);
      NormalTree(env, level + 1, InnerAt(b, i), currentBlock);
    }
  }

  // Which hashes a matching hash can be confused with

  /** A transaction, or a bundle of several elements or none: the hash is not that of a single hash. */
  predicate NotOfOneHash(t: Tree) {
    t.Leaf? || (t.Node? && |t.children| != 1)
  }

  lemma NotAMatchingHash(env: Env, t: Tree, h: Hash)
    requires CollisionFree(env) && NotOfOneHash(t)
    ensures HashOf(env, t) != env.keccak([h])
  {
    if t.Node? {
      assert |HashesOf(env, t.children)| != |[h]|;
    }
  }

  predicate HasNotOneChild(t: Tree) {
    t.Node? ==> |t.children| != 1
  }

  ghost predicate NoneHasOneChild(ts: seq<Tree>) {
    forall i :: 0 <= i < |ts| ==> HasNotOneChild(ts[i])
  }

  lemma {:induction false} RootIsCollapsed(env: Env, b: Bundle)
    ensures HasNotOneChild(TreeOf(env, b))
    decreases b, |b.body| + 1
  {
    RootsAreCollapsed(env, b, |b.body|);
    CollapsedRoot(TreesUpTo(env, b, |b.body|));
  }

  lemma CollapsedRoot(ts: seq<Tree>)
    requires NoneHasOneChild(ts)
    ensures HasNotOneChild(Collapsed(ts))
  {
  }

  lemma {:induction false} RootsAreCollapsed(env: Env, b: Bundle, n: nat)
    requires n <= |b.body|
    ensures NoneHasOneChild(TreesUpTo(env, b, n))
    decreases b, n
  {
    hide TreeOf;
    if n > 0 {
      RootsAreCollapsed(env, b, n - 1);
      if KindOf(b.body[n - 1]).IsBundle? {
        RootIsCollapsed(env, b.body[n - 1].bundle.value);
      }
    }
  }

  /** Of an accepted, unmatched bundle only the first tree is a given hash. */
  lemma {:induction false} OnlyFirstIsGiven(env: Env, b: Bundle, n: nat, currentBlock: nat)
    requires IsAccepted(env, 0, b, currentBlock) && 1 <= n <= |b.body| && KindOf(b.body[0]).IsHash?
    ensures var ts := TreesUpTo(env, b, n);
            && ts != [] && ts[0] == Given(b.body[0].hash.value)
            && forall i :: 1 <= i < |ts| ==> NotOfOneHash(ts[i])
    decreases n
  {
    hide Validate, TreeOf;
    if n == 1 {
      assert TreesUpTo(env, b, 0) == [];
    } else {
      OnlyFirstIsGiven(env, b, n - 1, currentBlock);
      LaterIsNotGiven(env, b, n - 1, currentBlock);
    }
  }

  lemma LaterIsNotGiven(env: Env, b: Bundle, i: nat, currentBlock: nat)
    requires IsAccepted(env, 0, b, currentBlock) && 1 <= i < |b.body|
    ensures forall j :: 0 <= j < |ElementTrees(env, b.body[i])| ==> NotOfOneHash(ElementTrees(env, b.body[i])[j])
  {
    hide Validate;
    HashUpTo(env, b, |b.body|, currentBlock);
    if IsBundleAt(b, i) {
      InnerAccepted(env, 0, b, i, currentBlock);
      MatchedTree(env, 1, InnerAt(b, i), currentBlock);
      RootIsCollapsed(env, InnerAt(b, i));
    }
  }

  // The joined bundle

  lemma {:induction false} JoinedTrees(env: Env, a: Bundle, stored: Bundle, n: nat)
    requires NamesAMatch(a) && a.body[0].tx.None? && a.metadata.Some? && stored.metadata.Some?
    requires 1 <= n <= |a.body|
    ensures var ts := TreesUpTo(env, a, n);
            ts != [] && TreesUpTo(env, Joined(a, stored), n) == ts[0 := TreeOf(env, stored)]
    decreases n
  {
    hide TreeOf;
    var j := Joined(a, stored);
    if n == 1 {
      assert TreesUpTo(env, a, 0) == [] && TreesUpTo(env, j, 0) == [];
      assert ElementTrees(env, j.body[0]) == [TreeOf(env, stored)];
    } else {
      JoinedTrees(env, a, stored, n - 1);
      assert j.body[n - 1] == a.body[n - 1];
    }
  }

  lemma {:induction false} HashesAt(env: Env, ts: seq<Tree>, i: nat)
    requires i < |ts|
    ensures HashesOf(env, ts)[i] == HashOf(env, ts[i])
    decreases |ts|
  {
    if i < |ts| - 1 {
      HashesAt(env, ts[..|ts| - 1], i);
    }
  }

  lemma ReplacedHashes(env: Env, ts: seq<Tree>, t: Tree)
    requires CollisionFree(env) && ts != [] && ts[0] == Given(env.keccak([HashOf(env, t)]))
    requires forall i :: 1 <= i < |ts| ==> NotOfOneHash(ts[i])
    ensures Replaced(HashesOf(env, ts), env.keccak([HashOf(env, t)]), HashOf(env, t)) == HashesOf(env, ts[0 := t])
  {
    var hs, ts' := HashesOf(env, ts), ts[0 := t];
    forall i | 0 <= i < |ts|
      ensures Replaced(hs, env.keccak([HashOf(env, t)]), HashOf(env, t))[i] == HashesOf(env, ts')[i]
    {
      HashesAt(env, ts, i);
      HashesAt(env, ts', i);
      if i > 0 {
        NotAMatchingHash(env, ts[i], HashOf(env, t));
      }
    }
  }

  lemma AcceptedMetadata(env: Env, level: nat, b: Bundle, currentBlock: nat)
    requires IsAccepted(env, level, b, currentBlock)
    ensures var a := Validate(env, level, b, currentBlock).value.bundle;
            && a.metadata.Some?
            && a.metadata.value.bodyHashes == HashesOf(env, TreesUpTo(env, b, |b.body|))
            && a.metadata.value.bundleHash == HashOf(env, TreeOf(env, b))
            && a.metadata.value.matchingHash == env.keccak([a.metadata.value.bundleHash])
  {
    AcceptedFacts(env, level, b, currentBlock);
    HashIsTreeHash(env, level, b, currentBlock);
    hide Validate, BodyUpTo, ElementStep, TreeOf, TreesUpTo;
    HashesUpTo(env, level, b, |b.body|, currentBlock);
  }

  /**
   Without collisions, joining a backrun to the accepted bundle whose matching hash it names yields body
   hashes that are the tree hashes of the joined body: replacing the matching hash hits no other element.
   */
  lemma JoinedHashesAreTreeHashes(env: Env, b: Bundle, currentBlock: nat, before: Bundle, thenBlock: nat)
    requires CollisionFree(env)
    requires IsAccepted(env, 0, b, currentBlock) && ValidateBundle(env, b, currentBlock).value.unmatched
    requires IsAccepted(env, 0, before, thenBlock)
    requires var a, stored := ValidateBundle(env, b, currentBlock).value.bundle, ValidateBundle(env, before, thenBlock).value.bundle;
             && a.metadata.Some? && stored.metadata.Some?
             && NamesAMatch(a) && a.body[0].tx.None? && a.body[0].hash.value == stored.metadata.value.matchingHash
    ensures var j := Joined(ValidateBundle(env, b, currentBlock).value.bundle, ValidateBundle(env, before, thenBlock).value.bundle);
            j.metadata.value.bodyHashes == HashesOf(env, TreesUpTo(env, j, |j.body|))
  {
    BodyIsNormal(env, 0, b, currentBlock);
    hide Validate, TreeOf, TreesUpTo, HashesOf, HashOf;
    var a, stored := ValidateBundle(env, b, currentBlock).value.bundle, ValidateBundle(env, before, thenBlock).value.bundle;
    var n := |b.body|;
    AcceptedMetadata(env, 0, b, currentBlock);
    AcceptedMetadata(env, 0, before, thenBlock);
    NormalTreesUpTo(env, 0, b, n, currentBlock);
    NormalTree(env, 0, before, thenBlock);
    assert KindOf(a.body[0]) == KindOf(b.body[0]);
    OnlyFirstIsGiven(env, b, n, currentBlock);
    JoinedTrees(env, a, stored, n);
    assert a.body[0].hash == b.body[0].hash;
    ReplacedHashes(env, TreesUpTo(env, b, n), TreeOf(env, before));
  }
}
