/** What a bundle's hash stands for. */
module BundleHash {
  import opened Bundles
  import opened Validation
  import opened ValidationWindow

  /** A body tree: transactions in order, grouped by bundle. */
  datatype Tree = Leaf(tx: Tx) | Given(hash: Hash) | Node(children: seq<Tree>)

  /** The tree of a bundle; a bundle with a single element is that element. */
  ghost function TreeOf(env: Env, b: Bundle): Tree
    decreases b, |b.body| + 1
  {
    Collapsed(TreesUpTo(env, b, |b.body|))
  }

  ghost function Collapsed(ts: seq<Tree>): Tree {
    if |ts| == 1 then ts[0] else Node(ts)
  }

  ghost function TreesUpTo(env: Env, b: Bundle, n: nat): seq<Tree>
    requires n <= |b.body|
    decreases b, n
  {
    if n == 0 then []
    else TreesUpTo(env, b, n - 1) + ElementTrees(env, b.body[n - 1])
  }

  ghost function ElementTrees(env: Env, el: Element): seq<Tree>
    decreases el, 0
  {
    match KindOf(el)
    case IsHash => [Given(el.hash.value)]
    case IsTx => if env.decode(el.tx.value).Some? then [Leaf(env.decode(el.tx.value).value)] else []
    case IsBundle => [TreeOf(env, el.bundle.value)]
    case IsEmpty => []
  }

  ghost function HashOf(env: Env, t: Tree): Hash
    decreases t, 1
  {
    match t
    case Leaf(tx) => env.txHash(tx)
    case Given(h) => h
    case Node(children) => env.keccak(HashesOf(env, children))
  }

  ghost function HashesOf(env: Env, ts: seq<Tree>): (hashes: seq<Hash>)
    ensures |hashes| == |ts|
    decreases ts, 0
  {
    if ts == [] then []
    else HashesOf(env, ts[..|ts| - 1]) + [HashOf(env, ts[|ts| - 1])]
  }

  lemma HashesOfAppend(env: Env, ts: seq<Tree>, t: Tree)
    ensures HashesOf(env, ts + [t]) == HashesOf(env, ts) + [HashOf(env, t)]
  {
    assert (ts + [t])[..|ts|] == ts;
  }

  lemma HashOfCollapsed(env: Env, ts: seq<Tree>)
    ensures HashOf(env, Collapsed(ts)) == Validation.BundleHash(env, HashesOf(env, ts))
  {
    if |ts| == 1 {
      assert ts[..0] == [];
    }
  }

  lemma HashesOfOne(env: Env, t: Tree)
    ensures HashesOf(env, [t]) == [HashOf(env, t)]
  {
    assert [t][..0] == [];
  }

  lemma HashesOfConcat(env: Env, ts: seq<Tree>, us: seq<Tree>)
    requires |us| <= 1
    ensures HashesOf(env, ts + us) == HashesOf(env, ts) + HashesOf(env, us)
  {
    if us == [] {
      assert ts + us == ts;
    } else {
      HashesOfAppend(env, ts, us[0]);
      HashesOfOne(env, us[0]);
      assert us == [us[0]];
    }
  }

  lemma PlainHashes(env: Env, level: nat, b: Bundle, i: nat, currentBlock: nat)
    requires IsAccepted(env, level, b, currentBlock) && i < |b.body| && !IsBundleAt(b, i)
    ensures At(env, level, b, i + 1, currentBlock).hashes ==
            At(env, level, b, i, currentBlock).hashes + HashesOf(env, ElementTrees(env, b.body[i]))
  {
    hide Validate, BodyUpTo, TreeOf;
    StepAt(env, level, b, i, currentBlock);
    var el := b.body[i];
    if el.hash.Some? {
      HashesOfOne(env, Given(el.hash.value));
    } else if el.tx.Some? {
      HashesOfOne(env, Leaf(env.decode(el.tx.value).value));
    }
  }

  lemma {:induction false} ElementHashes(env: Env, level: nat, b: Bundle, i: nat, currentBlock: nat)
    requires IsAccepted(env, level, b, currentBlock) && i < |b.body|
    ensures At(env, level, b, i + 1, currentBlock).hashes ==
            At(env, level, b, i, currentBlock).hashes + HashesOf(env, ElementTrees(env, b.body[i]))
    decreases b, i, 0
  {
    hide Validate, BodyUpTo, ElementStep, TreeOf, HashesOf, HashOf;
    if IsBundleAt(b, i) {
      InnerAccepted(env, level, b, i, currentBlock);
      HashIsTreeHash(env, level + 1, InnerAt(b, i), currentBlock);
      HashesOfOne(env, TreeOf(env, InnerAt(b, i)));
    } else {
      PlainHashes(env, level, b, i, currentBlock);
    }
  }

  /** Validation hashes the body tree. */
  lemma {:induction false} HashesUpTo(env: Env, level: nat, b: Bundle, n: nat, currentBlock: nat)
    requires IsAccepted(env, level, b, currentBlock) && n <= |b.body|
    ensures At(env, level, b, n, currentBlock).hashes == HashesOf(env, TreesUpTo(env, b, n))
    decreases b, n
  {
    hide Validate, BodyUpTo, TreeOf, HashesOf;
    if n == 0 {
      NoHashes(env, level, b, currentBlock);
    } else {
      HashesUpTo(env, level, b, n - 1, currentBlock);
      ElementHashes(env, level, b, n - 1, currentBlock);
      HashesOfConcat(env, TreesUpTo(env, b, n - 1), ElementTrees(env, b.body[n - 1]));
    }
  }

  lemma NoHashes(env: Env, level: nat, b: Bundle, currentBlock: nat)
    requires IsAccepted(env, level, b, currentBlock)
    ensures At(env, level, b, 0, currentBlock).hashes == HashesOf(env, TreesUpTo(env, b, 0)) == []
  {
    AcceptedFacts(env, level, b, currentBlock);
  }

  lemma {:induction false} HashIsTreeHash(env: Env, level: nat, b: Bundle, currentBlock: nat)
    requires IsAccepted(env, level, b, currentBlock)
    ensures Validate(env, level, b, currentBlock).value.hash == HashOf(env, TreeOf(env, b))
    decreases b, |b.body| + 1
  {
    AcceptedFacts(env, level, b, currentBlock);
    hide Validate, BodyUpTo, ElementStep;
    HashesUpTo(env, level, b, |b.body|, currentBlock);
    HashOfCollapsed(env, TreesUpTo(env, b, |b.body|));
  }

  // Hashes identify trees

  /** Keccak and the transaction hash have no collisions, and neither produces a hash of the other. */
  ghost predicate CollisionFree(env: Env) {
    && (forall xs, ys :: env.keccak(xs) == env.keccak(ys) ==> xs == ys)
    && (forall t, u :: env.txHash(t) == env.txHash(u) ==> t == u)
    && (forall t, xs :: env.txHash(t) != env.keccak(xs))
  }

  /** Made of decoded transactions only. */
  ghost predicate FullyMatched(t: Tree)
    decreases t
  {
    match t
    case Leaf(_) => true
    case Given(_) => false
    case Node(children) => forall i :: 0 <= i < |children| ==> FullyMatched(children[i])
  }

  lemma {:induction false} HashIdentifiesTree(env: Env, t: Tree, u: Tree)
    requires CollisionFree(env) && FullyMatched(t) && FullyMatched(u)
    requires HashOf(env, t) == HashOf(env, u)
    ensures t == u
    decreases t, 1
  {
    if t.Node? && u.Node? {
      HashesIdentifyTrees(env, t.children, u.children);
    }
  }

  lemma {:induction false} HashesIdentifyTrees(env: Env, ts: seq<Tree>, us: seq<Tree>)
    requires CollisionFree(env) && HashesOf(env, ts) == HashesOf(env, us)
    requires forall i :: 0 <= i < |ts| ==> FullyMatched(ts[i])
    requires forall i :: 0 <= i < |us| ==> FullyMatched(us[i])
    ensures ts == us
    decreases ts, 0
  {
    if ts != [] {
      var n := |ts| - 1;
      var hs := HashesOf(env, ts);
      assert hs == HashesOf(env, ts[..n]) + [HashOf(env, ts[n])];
      assert hs == HashesOf(env, us[..n]) + [HashOf(env, us[n])];
      assert hs[..n] == HashesOf(env, ts[..n]) && hs[..n] == HashesOf(env, us[..n]);
      HashIdentifiesTree(env, ts[n], us[n]);
      HashesIdentifyTrees(env, ts[..n], us[..n]);
      assert ts == ts[..n] + [ts[n]] && us == us[..n] + [us[n]];
    }
  }

  lemma {:induction false} UnmatchedOnlyByHash(env: Env, level: nat, b: Bundle, n: nat, currentBlock: nat)
    requires IsAccepted(env, level, b, currentBlock) && n <= |b.body|
    requires !At(env, level, b, n, currentBlock).unmatched
    ensures forall i :: 0 <= i < |TreesUpTo(env, b, n)| ==> FullyMatched(TreesUpTo(env, b, n)[i])
    decreases b, n
  {
    hide Validate, BodyUpTo;
    if n > 0 {
      StepAt(env, level, b, n - 1, currentBlock);
      UnmatchedOnlyByHash(env, level, b, n - 1, currentBlock);
      if IsBundleAt(b, n - 1) {
        InnerAccepted(env, level, b, n - 1, currentBlock);
        MatchedTree(env, level + 1, InnerAt(b, n - 1), currentBlock);
      }
    }
  }

  lemma {:induction false} MatchedTree(env: Env, level: nat, b: Bundle, currentBlock: nat)
    requires IsAccepted(env, level, b, currentBlock) && !Validate(env, level, b, currentBlock).value.unmatched
    ensures FullyMatched(TreeOf(env, b))
    decreases b, |b.body| + 1
  {
    AcceptedFacts(env, level, b, currentBlock);
    hide Validate, BodyUpTo, ElementStep;
    UnmatchedOnlyByHash(env, level, b, |b.body|, currentBlock);
  }

  /**
   Two accepted, fully matched bundles have the same hash exactly when they have the same body tree.
   Windows, privacy, refunds and revert modes are not part of the tree.
   */
  lemma SameHashIffSameTree(env: Env, b: Bundle, c: Bundle, blockB: nat, blockC: nat)
    requires CollisionFree(env)
    requires IsAccepted(env, 0, b, blockB) && !ValidateBundle(env, b, blockB).value.unmatched
    requires IsAccepted(env, 0, c, blockC) && !ValidateBundle(env, c, blockC).value.unmatched
    ensures ValidateBundle(env, b, blockB).value.hash == ValidateBundle(env, c, blockC).value.hash <==>
            TreeOf(env, b) == TreeOf(env, c)
  {
    hide Validate;
    HashIsTreeHash(env, 0, b, blockB);
    HashIsTreeHash(env, 0, c, blockC);
    MatchedTree(env, 0, b, blockB);
    MatchedTree(env, 0, c, blockC);
    if HashOf(env, TreeOf(env, b)) == HashOf(env, TreeOf(env, c)) {
      HashIdentifiesTree(env, TreeOf(env, b), TreeOf(env, c));
    }
  }
}
