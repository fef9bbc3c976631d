/** The append-only L1 info tree (l1infotree/tree.go, l1infotree/hash.go). */
module L1InfoTrees {
  import opened Wrappers
  import opened MerkleSpec

  /** The width of `count` and `index`. */
  const TWO_32: nat := 0x1_0000_0000

  /** One zero hash per level, the root level included. */
  method GenerateZeroHashes<D>(H: Hasher<D>, height: nat) returns (zeroHashes: seq<D>)
    ensures |zeroHashes| == height + 1
    ensures forall h :: 0 <= h <= height ==> zeroHashes[h] == ZeroHash(H, h)
  {
    zeroHashes := [H.zero];
    for i := 1 to height + 1
      invariant |zeroHashes| == i
      invariant forall h :: 0 <= h < i ==> zeroHashes[h] == ZeroHash(H, h)
    {
      zeroHashes := zeroHashes + [H.hash(zeroHashes[i - 1], zeroHashes[i - 1])];
    }
  }

  /** Hashes neighbouring nodes of one level into the nodes of the next. */
  method BuildIntermediate<D>(H: Hasher<D>, nodes: seq<D>) returns (hashes: seq<D>)
    requires |nodes| % 2 == 0
    ensures 2 * |hashes| == |nodes|
    ensures forall i :: 0 <= i < |hashes| ==> hashes[i] == H.hash(nodes[2 * i], nodes[2 * i + 1])
  {
    hashes := [];
    var i := 0;
    while i < |nodes|
      invariant 0 <= i <= |nodes| && i == 2 * |hashes|
      invariant forall k :: 0 <= k < |hashes| ==> hashes[k] == H.hash(nodes[2 * k], nodes[2 * k + 1])
    {
      hashes := hashes + [H.hash(nodes[i], nodes[i + 1])];
      i := i + 2;
    }
  }

  /** `nodes` is a prefix of level `h` that covers every stored leaf. */
  ghost predicate IsLevel<D>(H: Hasher<D>, leaves: seq<D>, h: nat, nodes: seq<D>) {
    && |nodes| >= CeilShift(|leaves|, h)
    && forall i :: 0 <= i < |nodes| ==> nodes[i] == NodeAt(H, leaves, h, i)
  }

  /** The number of nodes the rebuild keeps at level `h`; an empty list counts as one zero leaf. */
  function LevelSize(n: nat, h: nat): nat {
    CeilShift(if n == 0 then 1 else n, h)
  }

  lemma LevelSizeIsOne(n: nat, h: nat)
    ensures LevelSize(n, h) == 1 <==> n <= Pow2(h)
    ensures LevelSize(n, h) >= CeilShift(n, h)
  {
    ShiftIsZero(n, h);
    ShiftIsZero(1, h);
  }

  /** The first level of a rebuild. */
  lemma StartLevel<D>(H: Hasher<D>, leaves: seq<D>)
    ensures IsLevel(H, leaves, 0, if leaves == [] then [H.zero] else leaves)
  {
  }

  /** Padding an odd level with the zero hash of that level. */
  lemma PadLevel<D>(H: Hasher<D>, leaves: seq<D>, h: nat, nodes: seq<D>)
    requires IsLevel(H, leaves, h, nodes)
    ensures IsLevel(H, leaves, h, nodes + [ZeroHash(H, h)])
  {
    AbsentNode(H, leaves, h, |nodes|);
  }

  lemma NextLevel<D>(H: Hasher<D>, leaves: seq<D>, h: nat, nodes: seq<D>, hashes: seq<D>)
    requires IsLevel(H, leaves, h, nodes) && 2 * |hashes| == |nodes|
    requires forall i :: 0 <= i < |hashes| ==> hashes[i] == H.hash(nodes[2 * i], nodes[2 * i + 1])
    ensures IsLevel(H, leaves, h + 1, hashes)
  {
  }

  /** One round of a rebuild: a level, padded to even size, hashed into the next. */
  lemma LevelStep<D>(H: Hasher<D>, leaves: seq<D>, h: nat, nodes: seq<D>, padded: seq<D>, hashes: seq<D>)
    requires IsLevel(H, leaves, h, nodes) && |nodes| == LevelSize(|leaves|, h)
    requires padded == if |nodes| % 2 == 1 then nodes + [ZeroHash(H, h)] else nodes
    requires 2 * |hashes| == |padded|
    requires forall i :: 0 <= i < |hashes| ==> hashes[i] == H.hash(padded[2 * i], padded[2 * i + 1])
    ensures IsLevel(H, leaves, h, padded) && IsLevel(H, leaves, h + 1, hashes)
    ensures |hashes| == LevelSize(|leaves|, h + 1)
  {
    PadLevel(H, leaves, h, nodes);
    NextLevel(H, leaves, h, padded, hashes);
  }

  /** Every level's sibling of the path above leaf `index`. */
  ghost predicate IsProof<D>(H: Hasher<D>, leaves: seq<D>, index: nat, siblings: seq<D>) {
    forall h :: 0 <= h < |siblings| ==> siblings[h] == NodeAt(H, leaves, h, Sibling(Shift(index, h)))
  }

  /** The size of level `h` once it is padded to an even number. */
  function PaddedSize(n: nat, h: nat): nat {
    var size := LevelSize(n, h);
    if size % 2 == 1 then size + 1 else size
  }

  /**
   What the rebuild stores beside the path. It compares the position with the level's size cut to 32 bits, so
   a level of 2^32 nodes passes for empty.
   */
  ghost predicate IsStoredProof<D>(H: Hasher<D>, leaves: seq<D>, index: nat, siblings: seq<D>) {
    forall h :: 0 <= h < |siblings| ==> siblings[h] == StoredSibling(H, leaves, index, h)
  }

  ghost function StoredSibling<D>(H: Hasher<D>, leaves: seq<D>, index: nat, h: nat): D {
    if Shift(index, h) < PaddedSize(|leaves|, h) % TWO_32 then NodeAt(H, leaves, h, Sibling(Shift(index, h)))
    else ZeroHash(H, h)
  }

  lemma {:induction false} PaddedSizeShrinks(n: nat, h: nat)
    ensures 2 <= PaddedSize(n, h) <= PaddedSize(n, 0)
    ensures n + n % 2 < TWO_32 ==> PaddedSize(n, h) < TWO_32
  {
    ShiftIsZero(if n == 0 then 1 else n, h);
    if h > 0 {
      PaddedSizeShrinks(n, h - 1);
    }
  }

  /** A position past the padded level has its sibling past it too. */
  lemma SiblingPastLevel<D>(H: Hasher<D>, leaves: seq<D>, h: nat, i: nat)
    requires i >= PaddedSize(|leaves|, h)
    ensures NodeAt(H, leaves, h, Sibling(i)) == ZeroHash(H, h)
  {
    LevelSizeIsOne(|leaves|, h);
    AbsentNode(H, leaves, h, Sibling(i));
  }

  /** At a level of fewer than 2^32 nodes the cut does nothing. */
  lemma StoredIsSibling<D>(H: Hasher<D>, leaves: seq<D>, index: nat, h: nat)
    requires PaddedSize(|leaves|, h) < TWO_32
    ensures StoredSibling(H, leaves, index, h) == NodeAt(H, leaves, h, Sibling(Shift(index, h)))
  {
    if Shift(index, h) >= PaddedSize(|leaves|, h) {
      SiblingPastLevel(H, leaves, h, Shift(index, h));
    }
  }

  lemma ShortLeavesProof<D>(H: Hasher<D>, leaves: seq<D>, index: nat, siblings: seq<D>)
    requires |leaves| <= TWO_32 - 2
    ensures IsStoredProof(H, leaves, index, siblings) <==> IsProof(H, leaves, index, siblings)
  {
    forall h | 0 <= h < |siblings|
      ensures StoredSibling(H, leaves, index, h) == NodeAt(H, leaves, h, Sibling(Shift(index, h)))
    {
      PaddedSizeShrinks(|leaves|, h);
      StoredIsSibling(H, leaves, index, h);
    }
  }

  /** Of too many leaves, the proof of the first position that the cut hides stores a zero for a real leaf. */
  lemma LongLeavesFail<D>(H: Hasher<D>, leaves: seq<D>, siblings: seq<D>)
    requires |leaves| > TWO_32 - 2 && siblings != [] && H.zero !in leaves
    ensures var index := PaddedSize(|leaves|, 0) % TWO_32;
            index < TWO_32 && (IsStoredProof(H, leaves, index, siblings) ==> !IsProof(H, leaves, index, siblings))
  {
    var index := PaddedSize(|leaves|, 0) % TWO_32;
    assert Shift(index, 0) == index && Sibling(index) == index + 1 < |leaves|;
    assert StoredSibling(H, leaves, index, 0) == H.zero;
    assert NodeAt(H, leaves, 0, index + 1) == leaves[index + 1] != H.zero;
  }

  /** Every stored proof for `n` leaves is the reference proof. */
  ghost predicate ProofsOf<D(!new)>(H: Hasher<D>, n: nat, height: nat) {
    forall leaves: seq<D>, index: nat, siblings: seq<D> ::
      |leaves| == n && index < TWO_32 && |siblings| == height && IsStoredProof(H, leaves, index, siblings) ==>
        IsProof(H, leaves, index, siblings)
  }

  /** The lengths for which the stored siblings are the reference tree's: all up to 2^32 - 2 and no other. */
  lemma ProofLengthsExact<D(!new)>(H: Hasher<D>, n: nat, height: nat, d: D)
    requires height >= 1 && d != H.zero
    ensures ProofsOf(H, n, height) <==> n <= TWO_32 - 2
  {
    if n <= TWO_32 - 2 {
      forall leaves: seq<D>, index: nat, siblings: seq<D> |
        |leaves| == n && index < TWO_32 && |siblings| == height && IsStoredProof(H, leaves, index, siblings)
        ensures IsProof(H, leaves, index, siblings)
      {
        ShortLeavesProof(H, leaves, index, siblings);
      }
    } else {
      var leaves := seq(n, _ => d);
      var index := PaddedSize(n, 0) % TWO_32;
      var siblings := seq(height, h requires 0 <= h => StoredSibling(H, leaves, index, h));
      LongLeavesFail(H, leaves, siblings);
      assert IsStoredProof(H, leaves, index, siblings);
    }
  }

  /** The sibling that the rebuild picks from a padded level. */
  lemma PickedSibling<D>(H: Hasher<D>, leaves: seq<D>, index: nat, h: nat, nodes: seq<D>)
    requires IsLevel(H, leaves, h, nodes) && |nodes| == PaddedSize(|leaves|, h)
    ensures var i := Shift(index, h);
            && (i < |nodes| % TWO_32 ==> Sibling(i) < |nodes|)
            && StoredSibling(H, leaves, index, h) ==
               if i < |nodes| % TWO_32 then nodes[Sibling(i)] else ZeroHash(H, h)
  {
  }

  lemma ExtendProof<D>(H: Hasher<D>, leaves: seq<D>, index: nat, siblings: seq<D>, d: D)
    requires IsStoredProof(H, leaves, index, siblings)
    requires d == StoredSibling(H, leaves, index, |siblings|)
    ensures IsStoredProof(H, leaves, index, siblings + [d])
  {
  }

  /** The proof of the first absent position is a frontier, except that the cut may lose the last of 2^32 - 1 leaves. */
  lemma ProofIsFrontier<D>(H: Hasher<D>, leaves: seq<D>, siblings: seq<D>, h: nat)
    requires |leaves| < TWO_32 && IsStoredProof(H, leaves, |leaves|, siblings) && h < |siblings|
    ensures FrontierAt(H, leaves, h, siblings[h]) <==>
            |leaves| <= TWO_32 - 2 || h > 0 || leaves[|leaves| - 1] == H.zero
  {
    var n := |leaves|;
    if n <= TWO_32 - 2 {
      ShortLeavesProof(H, leaves, n, siblings);
    } else if h > 0 {
      PaddedSizeHalves(n, h);
      StoredIsSibling(H, leaves, n, h);
    } else {
      assert PaddedSize(n, 0) % TWO_32 == 0 && siblings[0] == H.zero;
    }
  }

  lemma {:induction false} PaddedSizeHalves(n: nat, h: nat)
    requires h > 0 && n <= TWO_32
    ensures PaddedSize(n, h) <= TWO_32 / 2
  {
    assert LevelSize(n, h) == (LevelSize(n, h - 1) + 1) / 2;
    if h > 1 {
      PaddedSizeHalves(n, h - 1);
    } else {
      assert LevelSize(n, 0) <= TWO_32;
    }
  }

  /** Every leaf is accounted for in what a restarted tree stores. */
  predicate NoLeafLost<D(==)>(H: Hasher<D>, leaves: seq<D>) {
    |leaves| <= TWO_32 - 2 || (|leaves| == TWO_32 - 1 && leaves[TWO_32 - 2] == H.zero)
  }

  lemma ShortStart<D>(H: Hasher<D>, leaves: seq<D>, siblings: seq<D>)
    requires |leaves| < TWO_32 && IsStoredProof(H, leaves, |leaves|, siblings) && siblings != []
    ensures NoLeafLost(H, leaves) <==> forall h :: 0 <= h < |siblings| ==> FrontierAt(H, leaves, h, siblings[h])
  {
    forall h | 0 <= h < |siblings|
      ensures FrontierAt(H, leaves, h, siblings[h]) <==> h > 0 || NoLeafLost(H, leaves)
    {
      ProofIsFrontier(H, leaves, siblings, h);
    }
    assert FrontierAt(H, leaves, 0, siblings[0]) <==> NoLeafLost(H, leaves);
  }

  /** The stored proof of the position of the counter, or, of a multiple of 2^32 leaves, that of an empty tree. */
  ghost predicate IsStartProof<D>(H: Hasher<D>, leaves: seq<D>, count: nat, siblings: seq<D>) {
    IsStoredProof(H, if count == 0 then [] else leaves, count, siblings)
  }

  /** What a restarted tree stores is a counter and frontier of its leaves exactly when none is lost. */
  lemma StartsFrontier<D>(H: Hasher<D>, leaves: seq<D>, count: nat, siblings: seq<D>)
    requires count == |leaves| % TWO_32 && IsStartProof(H, leaves, count, siblings) && siblings != []
    ensures NoLeafLost(H, leaves) <==>
            count == |leaves| && forall h :: 0 <= h < |siblings| ==> FrontierAt(H, leaves, h, siblings[h])
  {
    if |leaves| < TWO_32 {
      assert count == |leaves|;
      ShortStart(H, leaves, siblings);
    }
  }

  /** The node above new leaf `n`, from the node below it and the stored or empty sibling. */
  lemma ClimbFromNewLeaf<D>(H: Hasher<D>, leaves: seq<D>, leaf: D, h: nat)
    ensures var n, grown := |leaves|, leaves + [leaf];
            NodeAt(H, grown, h + 1, Shift(n, h + 1)) ==
            if Shift(n, h) % 2 == 1 then
              H.hash(NodeAt(H, leaves, h, Shift(n, h) - 1), NodeAt(H, grown, h, Shift(n, h)))
            else
              H.hash(NodeAt(H, grown, h, Shift(n, h)), ZeroHash(H, h))
  {
    var n, grown := |leaves|, leaves + [leaf];
    if Shift(n, h) % 2 == 1 {
      CompleteNode(H, leaves, [leaf], h, Shift(n, h) - 1);
    } else {
      CeilOfSuccessor(n, h);
      AbsentNode(H, grown, h, Shift(n, h) + 1);
    }
  }

  /** What the frontier must hold at level `h` once there are `|leaves|` leaves. */
  ghost predicate FrontierAt<D>(H: Hasher<D>, leaves: seq<D>, h: nat, sibling: D) {
    Shift(|leaves|, h) % 2 == 1 ==> sibling == NodeAt(H, leaves, h, Shift(|leaves|, h) - 1)
  }

  /** Whatever is stored is a frontier of no leaves. */
  lemma EmptyFrontier<D>(H: Hasher<D>, siblings: seq<D>)
    ensures forall h :: 0 <= h < |siblings| ==> FrontierAt(H, [], h, siblings[h])
  {
    forall h | 0 <= h < |siblings|
      ensures Shift(0, h) == 0
    {
      ShiftIsZero(0, h);
    }
  }

  /**
   One level of the frontier when leaf `|leaves|` is added. `filled` says whether all lower bits of the
   old count are ones, so that the carry of the increment reaches this level.
   */
  lemma FrontierStep<D>(H: Hasher<D>, leaves: seq<D>, leaf: D, h: nat, sibling: D, filled: bool)
    requires FrontierAt(H, leaves, h, sibling)
    requires Shift(|leaves| + 1, h) == Shift(|leaves|, h) + if filled then 1 else 0
    ensures var n, grown := |leaves|, leaves + [leaf];
            var stored := filled && Shift(n, h) % 2 == 0;
            && FrontierAt(H, grown, h, if stored then NodeAt(H, grown, h, Shift(n, h)) else sibling)
            && Shift(n + 1, h + 1) == Shift(n, h + 1) + if filled && !stored then 1 else 0
  {
    var n := |leaves|;
    if !filled && Shift(n, h) % 2 == 1 {
      CompleteNode(H, leaves, [leaf], h, Shift(n, h) - 1);
    }
  }

  class L1InfoTree<D> {
    const H: Hasher<D>
    const height: nat
    const zeroHashes: seq<D>
    var count: nat
    var siblings: array<D>
    var currentRoot: D

    /** A tree whose frontier and root are still to be filled in. */
    constructor Make(H: Hasher<D>, height: nat, zeroHashes: seq<D>, count: nat)
      requires |zeroHashes| == height + 1
      ensures this.H == H && this.height == height && this.zeroHashes == zeroHashes
      ensures this.count == count && siblings.Length == height && fresh(siblings)
    {
      this.H, this.height, this.zeroHashes := H, height, zeroHashes;
      this.count, currentRoot := count, zeroHashes[height];
      siblings := new D[height](h requires 0 <= h < |zeroHashes| => zeroHashes[h]);
    }

    ghost predicate Valid()
      reads this, siblings
    {
      && |zeroHashes| == height + 1
      && (forall h :: 0 <= h <= height ==> zeroHashes[h] == ZeroHash(H, h))
      && siblings.Length == height
      && count < TWO_32
    }

    /** The left subtree that a set bit `h` of the leaf count stands for is stored at level `h`. */
    ghost predicate IsFrontier(leaves: seq<D>)
      reads this, siblings
    {
      forall h :: 0 <= h < siblings.Length ==> FrontierAt(H, leaves, h, siblings[h])
    }

    /** The tree stands for `leaves`: all that later calls depend on. Siblings at zero bits are free. */
    ghost predicate Represents(leaves: seq<D>)
      reads this, siblings
    {
      Valid() && count == |leaves| && IsFrontier(leaves)
    }

    method BuildL1InfoRoot(initialLeaves: seq<D>) returns (r: Result<D>)
      requires Valid()
      ensures r.Ok? <==> 1 <= height && |initialLeaves| <= Pow2(height)
      ensures r.Ok? ==> r.value == Root(H, height, initialLeaves)
    {
      var leaves := initialLeaves;
      if |leaves| == 0 {
        leaves := leaves + [zeroHashes[0]];
      }
      StartLevel(H, initialLeaves);
      var ns: seq<D> := [];
      for h := 0 to height
        invariant IsLevel(H, initialLeaves, h, leaves)
        invariant |leaves| == LevelSize(|initialLeaves|, h)
        invariant ns == if h == 0 then [] else leaves
      {
        ghost var level := leaves;
        if |leaves| % 2 == 1 {
          leaves := leaves + [zeroHashes[h]];
        }
        ns := BuildIntermediate(H, leaves);
        LevelStep(H, initialLeaves, h, level, leaves, ns);
        leaves := ns;
      }
      LevelSizeIsOne(|initialLeaves|, height);
      if |ns| != 1 {
        return Err;
      }
      return Ok(ns[0]);
    }

    method ComputeMerkleProof(gerIndex: nat, initialLeaves: seq<D>) returns (r: Result<(seq<D>, D)>)
      requires Valid() && gerIndex < TWO_32
      ensures r.Ok? <==> 1 <= height && |initialLeaves| <= Pow2(height)
      ensures r.Ok? ==> |r.value.0| == height && IsStoredProof(H, initialLeaves, gerIndex, r.value.0)
      ensures r.Ok? && |initialLeaves| <= TWO_32 - 2 ==> IsProof(H, initialLeaves, gerIndex, r.value.0)
      ensures r.Ok? ==> r.value.1 == Root(H, height, initialLeaves)
    {
      var leaves := initialLeaves;
      if |leaves| == 0 {
        leaves := leaves + [zeroHashes[0]];
      }
      StartLevel(H, initialLeaves);
      var ns: seq<D>, sibs: seq<D> := [], [];
      var index := gerIndex;
      for h := 0 to height
        invariant IsLevel(H, initialLeaves, h, leaves)
        invariant |leaves| == LevelSize(|initialLeaves|, h)
        invariant ns == if h == 0 then [] else leaves
        invariant index == Shift(gerIndex, h)
        invariant |sibs| == h && IsStoredProof(H, initialLeaves, gerIndex, sibs)
      {
        ghost var level := leaves;
        if |leaves| % 2 == 1 {
          leaves := leaves + [zeroHashes[h]];
        }
        ns := BuildIntermediate(H, leaves);
        LevelStep(H, initialLeaves, h, level, leaves, ns);
        PickedSibling(H, initialLeaves, gerIndex, h, leaves);
        var sibling := if index < |leaves| % TWO_32 then leaves[Sibling(index)] else zeroHashes[h];
        ExtendProof(H, initialLeaves, gerIndex, sibs, sibling);
        sibs := sibs + [sibling];
        index := index / 2;
        leaves := ns;
      }
      LevelSizeIsOne(|initialLeaves|, height);
      if |ns| != 1 {
        return Err;
      }
      if |initialLeaves| <= TWO_32 - 2 {
        ShortLeavesProof(H, initialLeaves, gerIndex, sibs);
      }
      return Ok((sibs, ns[0]));
    }

    /** Grows the tree by one leaf, touching one node per level. The counter wraps, and the tree is empty again. */
    method AddLeaf(index: nat, leaf: D, ghost leaves: seq<D>) returns (r: Result<D>)
      requires Represents(leaves)
      modifies this`count, this`currentRoot, siblings
      ensures r.Ok? <==> index == old(count)
      ensures r.Err? ==> unchanged(this) && unchanged(siblings)
      ensures siblings == old(siblings)
      ensures r.Ok? ==> r.value == currentRoot
      ensures r.Ok? ==> currentRoot == NodeAt(H, leaves + [leaf], height, Shift(|leaves|, height))
      ensures r.Ok? && |leaves| < Pow2(height) ==> currentRoot == Root(H, height, leaves + [leaf])
      ensures r.Ok? ==> Represents(if |leaves| + 1 < TWO_32 then leaves + [leaf] else [])
    {
      if index != count {
        return Err;
      }
      var cur, isFilledSubTree := leaf, true;
      ghost var grown := leaves + [leaf];
      for h := 0 to height
        invariant Valid() && count == index == |leaves|
        invariant siblings == old(siblings)
        invariant cur == NodeAt(H, grown, h, Shift(index, h))
        invariant Shift(index + 1, h) == Shift(index, h) + if isFilledSubTree then 1 else 0
        invariant forall k :: h <= k < height ==> FrontierAt(H, leaves, k, siblings[k])
        invariant forall k :: 0 <= k < h ==> FrontierAt(H, grown, k, siblings[k])
      {
        ClimbFromNewLeaf(H, leaves, leaf, h);
        FrontierStep(H, leaves, leaf, h, siblings[h], isFilledSubTree);
        if Shift(index, h) % 2 == 1 {
          cur := H.hash(siblings[h], cur);
        } else {
          if isFilledSubTree {
            siblings[h] := cur;
            isFilledSubTree := false;
          }
          cur := H.hash(cur, zeroHashes[h]);
        }
      }
      ShiftIsZero(index, height);
      EmptyFrontier(H, siblings[..]);
      currentRoot := cur;
      count := (count + 1) % TWO_32;
      return Ok(cur);
    }

    /** The frontier and root to start from: the proof of the first absent position. */
    method InitSiblings(initialLeaves: seq<D>) returns (r: Result<(seq<D>, D)>)
      requires Valid()
      ensures r.Ok? <==> count == |initialLeaves| % TWO_32 && 1 <= height && |initialLeaves| <= Pow2(height)
      ensures r.Ok? ==> |r.value.0| == height && r.value.1 == Root(H, height, initialLeaves)
      ensures r.Ok? ==> IsStartProof(H, initialLeaves, count, r.value.0)
    {
      if count != |initialLeaves| % TWO_32 {
        return Err;
      }
      if count == 0 {
        var sibs := zeroHashes[..height];
        forall h | 0 <= h < height
          ensures sibs[h] == StoredSibling(H, [], 0, h)
        {
          ShiftIsZero(0, h);
          AbsentNode(H, [], h, Sibling(Shift(0, h)));
        }
        var root := BuildL1InfoRoot(initialLeaves);
        match root {
          case Err => return Err;
          case Ok(d) => return Ok((sibs, d));
        }
      }
      r := ComputeMerkleProof(count, initialLeaves);
    }
  }

  /**
   Starts a tree from stored leaves. Of 2^32 - 1 leaves the last one is lost unless it is zero, and of more the
   counter forgets whole multiples of 2^32; the root is right in any case.
   */
  method NewL1InfoTree<D>(H: Hasher<D>, height: nat, initialLeaves: seq<D>) returns (r: Result<L1InfoTree<D>>)
    ensures r.Ok? <==> 1 <= height && |initialLeaves| <= Pow2(height)
    ensures r.Ok? ==> fresh(r.value) && fresh(r.value.siblings)
    ensures r.Ok? ==> r.value.H == H && r.value.height == height
    ensures r.Ok? ==> (r.value.Represents(initialLeaves) <==> NoLeafLost(H, initialLeaves))
    ensures r.Ok? ==> r.value.currentRoot == Root(H, height, initialLeaves)
  {
    var zeroHashes := GenerateZeroHashes(H, height);
    var tree := new L1InfoTree<D>.Make(H, height, zeroHashes, |initialLeaves| % TWO_32);
    var init := tree.InitSiblings(initialLeaves);
    if init.Err? {
      return Err;
    }
    var (sibs, root) := init.value;
    tree.siblings := new D[height](h requires 0 <= h < |sibs| => sibs[h]);
    tree.currentRoot := root;
    StartsFrontier(H, initialLeaves, tree.count, sibs);
    assert forall h :: 0 <= h < height ==> tree.siblings[h] == sibs[h];
    assert tree.Valid();
    return Ok(tree);
  }

  /**
   Starts a tree on `stored` and appends `more` one leaf at a time, rebuilding the root from scratch
   after every step. Both agree with the specification, whatever the split into stored and appended.
   */
  method GrowFrom<D>(H: Hasher<D>, height: nat, stored: seq<D>, more: seq<D>)
    returns (grown: seq<D>, rebuilt: seq<Result<D>>)
    requires 1 <= height && |stored| + |more| <= Pow2(height) && |stored| + |more| < TWO_32
    ensures |grown| == |rebuilt| == |more|
    ensures forall i :: 0 <= i < |more| ==> grown[i] == Root(H, height, stored + more[..i + 1])
    ensures forall i :: 0 <= i < |more| ==> rebuilt[i] == Ok(grown[i])
  {
    grown, rebuilt := [], [];
    if more == [] {
      return;
    }
    var start := NewL1InfoTree(H, height, stored);
    var tree := start.value;
    assert stored + more[..0] == stored;
    for i := 0 to |more|
      invariant tree.Represents(stored + more[..i]) && tree.H == H && tree.height == height
      invariant fresh(tree) && fresh(tree.siblings)
      invariant |grown| == |rebuilt| == i
      invariant forall k :: 0 <= k < i ==> grown[k] == Root(H, height, stored + more[..k + 1])
      invariant forall k :: 0 <= k < i ==> rebuilt[k] == Ok(grown[k])
    {
      assert stored + more[..i] + [more[i]] == stored + more[..i + 1];
      var root := tree.AddLeaf(|stored| + i, more[i], stored + more[..i]);
      var fromScratch := tree.BuildL1InfoRoot(stored + more[..i + 1]);
      grown, rebuilt := grown + [root.value], rebuilt + [fromScratch];
    }
  }

  /** A tree restarted from its stored leaves gives the roots of one that was never interrupted. */
  method Restart<D>(H: Hasher<D>, height: nat, stored: seq<D>, future: seq<D>)
    returns (uninterrupted: seq<D>, restarted: seq<D>)
    requires 1 <= height && |stored| + |future| <= Pow2(height) && |stored| + |future| < TWO_32
    ensures |restarted| == |future| && |uninterrupted| == |stored| + |future|
    ensures uninterrupted[|stored|..] == restarted
  {
    var rebuilt;
    uninterrupted, rebuilt := GrowFrom(H, height, [], stored + future);
    restarted, rebuilt := GrowFrom(H, height, stored, future);
    forall i | 0 <= i < |future|
      ensures uninterrupted[|stored| + i] == restarted[i]
    {
      assert [] + (stored + future)[..|stored| + i + 1] == stored + future[..i + 1];
    }
  }
}
