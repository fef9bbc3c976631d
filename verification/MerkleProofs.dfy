/** What the sibling lists of `ComputeMerkleProof` prove, for any hash function. */
module MerkleProofs {
  import opened MerkleSpec
  import opened L1InfoTrees

  /** The verifier's side: fold a leaf with its siblings, bottom up, along the bits of the index. */
  function Fold<D>(H: Hasher<D>, leaf: D, siblings: seq<D>, index: nat): D
    decreases |siblings|, 1
  {
    if siblings == [] then
      leaf
    else
      var (l, r) := TopPair(H, leaf, siblings, index);
      H.hash(l, r)
  }

  /** The two hash inputs of the topmost node of a non-empty fold. */
  function TopPair<D>(H: Hasher<D>, leaf: D, siblings: seq<D>, index: nat): (D, D)
    requires siblings != []
    decreases |siblings|, 0
  {
    var top := |siblings| - 1;
    var below := Fold(H, leaf, siblings[..top], index);
    if Shift(index, top) % 2 == 1 then (siblings[top], below) else (below, siblings[top])
  }

  /** Completeness at every position, absent ones (which hold the zero leaf) included. */
  lemma {:induction false} ProofFolds<D>(H: Hasher<D>, leaves: seq<D>, index: nat, siblings: seq<D>)
    requires IsProof(H, leaves, index, siblings)
    ensures Fold(H, NodeAt(H, leaves, 0, index), siblings, index)
         == NodeAt(H, leaves, |siblings|, Shift(index, |siblings|))
  {
    if siblings != [] {
      var lower := siblings[..|siblings| - 1];
      assert IsProof(H, leaves, index, lower) by {
        assert forall h :: 0 <= h < |lower| ==> lower[h] == siblings[h];
      }
      ProofFolds(H, leaves, index, lower);
    }
  }

  lemma ProofReachesRoot<D>(H: Hasher<D>, leaves: seq<D>, index: nat, siblings: seq<D>)
    requires IsProof(H, leaves, index, siblings) && index < Pow2(|siblings|)
    ensures Fold(H, if index < |leaves| then leaves[index] else H.zero, siblings, index)
         == Root(H, |siblings|, leaves)
  {
    ProofFolds(H, leaves, index, siblings);
    ShiftIsZero(index, |siblings|);
  }

  /** Two different inputs with one hash. */
  ghost predicate IsCollision<D>(H: Hasher<D>, p: (D, D), q: (D, D)) {
    p != q && H.hash(p.0, p.1) == H.hash(q.0, q.1)
  }

  /** Walks two folds from the top until their hash inputs differ. */
  function FindCollision<D(==)>(H: Hasher<D>, leaf: D, siblings: seq<D>, leaf': D, siblings': seq<D>, index: nat)
    : ((D, D), (D, D))
    requires |siblings| == |siblings'| > 0
  {
    var p, q := TopPair(H, leaf, siblings, index), TopPair(H, leaf', siblings', index);
    var top := |siblings| - 1;
    if p != q || top == 0 then (p, q)
    else FindCollision(H, leaf, siblings[..top], leaf', siblings'[..top], index)
  }

  /** Two openings of one root at one index are the same opening, or they hand us a hash collision. */
  lemma {:induction false} FoldIsBinding<D>(
    H: Hasher<D>, leaf: D, siblings: seq<D>, leaf': D, siblings': seq<D>, index: nat)
    requires |siblings| == |siblings'|
    requires Fold(H, leaf, siblings, index) == Fold(H, leaf', siblings', index)
    requires leaf != leaf' || siblings != siblings'
    ensures |siblings| > 0
    ensures var (p, q) := FindCollision(H, leaf, siblings, leaf', siblings', index); IsCollision(H, p, q)
  {
    if siblings != [] {
      var top := |siblings| - 1;
      var p, q := TopPair(H, leaf, siblings, index), TopPair(H, leaf', siblings', index);
      if p == q {
        assert siblings == siblings[..top] + [siblings[top]];
        assert siblings' == siblings'[..top] + [siblings'[top]];
        FoldIsBinding(H, leaf, siblings[..top], leaf', siblings'[..top], index);
      }
    }
  }

  /**
   Whoever opens a root that this tree computed, at any index, with anything other than the stored leaf
   (or the zero leaf past the end) and the siblings `ComputeMerkleProof` returns, holds a collision.
   */
  lemma ProofIsBinding<D>(
    H: Hasher<D>, leaves: seq<D>, index: nat, siblings: seq<D>, leaf': D, siblings': seq<D>)
    requires IsProof(H, leaves, index, siblings) && index < Pow2(|siblings|)
    requires |siblings'| == |siblings|
    requires Fold(H, leaf', siblings', index) == Root(H, |siblings|, leaves)
    ensures var leaf := if index < |leaves| then leaves[index] else H.zero;
            (leaf' == leaf && siblings' == siblings) ||
            (|siblings| > 0 &&
             var (p, q) := FindCollision(H, leaf, siblings, leaf', siblings', index); IsCollision(H, p, q))
  {
    var leaf := if index < |leaves| then leaves[index] else H.zero;
    ProofReachesRoot(H, leaves, index, siblings);
    if leaf' != leaf || siblings' != siblings {
      FoldIsBinding(H, leaf, siblings, leaf', siblings', index);
    }
  }
}
