/**
 The zero-padded binary Merkle tree that every computation in `l1infotree` is measured against.

 A node is addressed by its level `h` (0 is the leaf level) and its position `i` within that level.
 Leaf `i` is the `i`-th stored leaf, or the zero hash when there is none; every other node is the
 hash of its two children. The hash function is a parameter, so nothing here depends on Keccak.
 */
module MerkleSpec {

  datatype Hasher<!D> = Hasher(zero: D, hash: (D, D) -> D)

  /** The hash of a level-`h` subtree that holds no leaf. */
  function ZeroHash<D>(H: Hasher<D>, h: nat): D {
    if h == 0 then H.zero else H.hash(ZeroHash(H, h - 1), ZeroHash(H, h - 1))
  }

  function NodeAt<D>(H: Hasher<D>, leaves: seq<D>, h: nat, i: nat): D {
    if h == 0 then
      if i < |leaves| then leaves[i] else H.zero
    else
      H.hash(NodeAt(H, leaves, h - 1, 2 * i), NodeAt(H, leaves, h - 1, 2 * i + 1))
  }

  function Root<D>(H: Hasher<D>, height: nat, leaves: seq<D>): D {
    NodeAt(H, leaves, height, 0)
  }

  /** `n >> h`: the position, at level `h`, of the node above leaf `n`. */
  function Shift(n: nat, h: nat): nat {
    if h == 0 then n else Shift(n, h - 1) / 2
  }

  /** How many level-`h` nodes are needed to cover `n` leaves. */
  function CeilShift(n: nat, h: nat): nat {
    if h == 0 then n else (CeilShift(n, h - 1) + 1) / 2
  }

  function Pow2(h: nat): (p: nat)
    ensures p >= 1
  {
    if h == 0 then 1 else 2 * Pow2(h - 1)
  }

  /** The position of the other child of the same parent. */
  function Sibling(i: nat): nat {
    if i % 2 == 1 then i - 1 else i + 1
  }

  lemma {:induction false} ShiftFromBelow(n: nat, h: nat)
    requires h > 0
    ensures Shift(n, h) == Shift(n / 2, h - 1)
    ensures CeilShift(n, h) == CeilShift((n + 1) / 2, h - 1)
  {
    if h > 1 {
      ShiftFromBelow(n, h - 1);
    }
  }

  lemma {:induction false} ShiftIsZero(n: nat, h: nat)
    ensures Shift(n, h) == 0 <==> n < Pow2(h)
    ensures CeilShift(n, h) <= 1 <==> n <= Pow2(h)
    ensures n > 0 ==> CeilShift(n, h) > 0
  {
    if h > 0 {
      ShiftFromBelow(n, h);
      ShiftIsZero(n / 2, h - 1);
      ShiftIsZero((n + 1) / 2, h - 1);
    }
  }

  lemma {:induction false} CeilOfSuccessor(n: nat, h: nat)
    ensures CeilShift(n + 1, h) == Shift(n, h) + 1
  {
    if h > 0 {
      CeilOfSuccessor(n, h - 1);
    }
  }

  /** A node past the last leaf is the zero hash of its level. */
  lemma {:induction false} AbsentNode<D>(H: Hasher<D>, leaves: seq<D>, h: nat, i: nat)
    requires i >= CeilShift(|leaves|, h)
    ensures NodeAt(H, leaves, h, i) == ZeroHash(H, h)
  {
    if h > 0 {
      AbsentNode(H, leaves, h - 1, 2 * i);
      AbsentNode(H, leaves, h - 1, 2 * i + 1);
    }
  }

  /** A node all of whose leaves are stored does not change when leaves are appended. */
  lemma {:induction false} CompleteNode<D>(H: Hasher<D>, leaves: seq<D>, more: seq<D>, h: nat, i: nat)
    requires i < Shift(|leaves|, h)
    ensures NodeAt(H, leaves + more, h, i) == NodeAt(H, leaves, h, i)
  {
    if h > 0 {
      CompleteNode(H, leaves, more, h - 1, 2 * i);
      CompleteNode(H, leaves, more, h - 1, 2 * i + 1);
    }
  }
}
