/** The recursive L1 info tree, whose leaves are its own past roots (l1infotree/tree_recursive.go). */
module L1InfoTreesRecursive {
  import opened Wrappers
  import opened MerkleSpec
  import opened L1InfoTrees
  import opened MerkleProofs

  /** The level at which the hard-coded empty root is the zero hash. */
  const EMPTY_ROOT_LEVEL: nat := 32

  /** The root of a recursive tree whose historic root and current leaf are given. */
  function Combine<D(==)>(H: Hasher<D>, historicRoot: D, currentLeaf: D): D {
    if historicRoot == ZeroHash(H, EMPTY_ROOT_LEVEL) && currentLeaf == H.zero then H.zero
    else H.hash(historicRoot, currentLeaf)
  }

  function LastLeaf<D>(H: Hasher<D>, history: seq<D>): D {
    if history == [] then H.zero else history[|history| - 1]
  }

  /** The past roots since the 32-bit counter of the historic tree was last zero. */
  function Recent<D>(roots: seq<D>): seq<D>
    decreases |roots|, 1
  {
    if roots == [] then []
    else
      var round := LastRound(roots);
      if |round| < TWO_32 then round else []
  }

  /** The past roots that the current historic root is about. */
  function LastRound<D>(roots: seq<D>): seq<D>
    requires roots != []
    decreases |roots|, 0
  {
    Recent(roots[..|roots| - 1]) + [roots[|roots| - 1]]
  }

  lemma RecentGrows<D>(roots: seq<D>, root: D)
    ensures LastRound(roots + [root]) == Recent(roots) + [root]
    ensures Recent(roots + [root]) == if |Recent(roots)| + 1 < TWO_32 then Recent(roots) + [root] else []
  {
    assert (roots + [root])[..|roots|] == roots;
  }

  /** The counter. */
  lemma {:induction false} RecentCount<D>(roots: seq<D>)
    ensures |Recent(roots)| == |roots| % TWO_32
  {
    if roots != [] {
      RecentCount(roots[..|roots| - 1]);
    }
  }

  lemma {:induction false} AllRecent<D>(roots: seq<D>)
    requires |roots| < TWO_32
    ensures Recent(roots) == roots
  {
    if roots != [] {
      AllRecent(roots[..|roots| - 1]);
    }
  }

  /**
   The root of the historic tree: that of the past roots while there is room, else that of the block of
   2^height past roots which holds the latest.
   */
  function HistoricRoot<D>(H: Hasher<D>, height: nat, roots: seq<D>): D {
    if roots == [] then Root(H, height, roots)
    else var round := LastRound(roots); NodeAt(H, round, height, Shift(|round| - 1, height))
  }

  lemma HistoricIsRoot<D>(H: Hasher<D>, height: nat, roots: seq<D>)
    requires |roots| <= Pow2(height) && |roots| <= TWO_32
    ensures HistoricRoot(H, height, roots) == Root(H, height, roots)
  {
    if roots != [] {
      var n := |roots| - 1;
      AllRecent(roots[..n]);
      assert LastRound(roots) == roots;
      ShiftIsZero(n, height);
    }
  }

  lemma FourLevels(h: nat)
    ensures Pow2(h + 4) == 16 * Pow2(h)
  {
    assert Pow2(h + 2) == 4 * Pow2(h);
  }

  lemma RoomFor32Bits()
    ensures Pow2(32) == TWO_32
  {
    FourLevels(0);
    FourLevels(4);
    FourLevels(8);
    FourLevels(12);
    FourLevels(16);
    FourLevels(20);
    FourLevels(24);
    FourLevels(28);
  }

  /** The root after the leaves of `history` were added in order. */
  function RecursiveRoot<D(==)>(H: Hasher<D>, height: nat, history: seq<D>): D
    decreases |history|, 1
  {
    Combine(H, HistoricRoot(H, height, PastRoots(H, height, history)), LastLeaf(H, history))
  }

  /** The roots before each of those additions, in order. */
  function PastRoots<D(==)>(H: Hasher<D>, height: nat, history: seq<D>): (roots: seq<D>)
    ensures |roots| == |history|
    decreases |history|, 0
  {
    if history == [] then []
    else
      var before := history[..|history| - 1];
      PastRoots(H, height, before) + [RecursiveRoot(H, height, before)]
  }

  /** Entry `i` of the historic tree is the root after the first `i` leaves. */
  lemma {:induction false} PastRootAt<D>(H: Hasher<D>, height: nat, history: seq<D>, i: nat)
    requires i < |history|
    ensures PastRoots(H, height, history)[i] == RecursiveRoot(H, height, history[..i])
  {
    var n := |history| - 1;
    if i < n {
      PastRootAt(H, height, history[..n], i);
      assert history[..n][..i] == history[..i];
    }
  }

  class L1InfoTreeRecursive<D(==)> {
    const historic: L1InfoTree<D>
    var currentLeaf: D

    constructor Make(historic: L1InfoTree<D>, leaf: D)
      ensures this.historic == historic && currentLeaf == leaf
    {
      this.historic, currentLeaf := historic, leaf;
    }

    ghost predicate Represents(history: seq<D>)
      reads this, historic, historic.siblings
    {
      var roots := PastRoots(historic.H, historic.height, history);
      && historic.Represents(Recent(roots))
      && historic.currentRoot == HistoricRoot(historic.H, historic.height, roots)
      && currentLeaf == LastLeaf(historic.H, history)
    }

    function GetRoot(): (root: D)
      reads this, historic
    {
      Combine(historic.H, historic.currentRoot, currentLeaf)
    }

    method AddLeaf(index: nat, leaf: D, ghost history: seq<D>) returns (r: Result<D>)
      requires Represents(history)
      modifies this, historic, historic.siblings
      ensures historic.siblings == old(historic.siblings)
      ensures r.Ok? <==> index == |history| % TWO_32
      ensures r.Err? ==> Represents(history)
      ensures r.Ok? ==> Represents(history + [leaf])
      ensures r.Ok? ==> r.value == RecursiveRoot(historic.H, historic.height, history + [leaf])
    {
      ghost var roots, root := PastRoots(historic.H, historic.height, history), GetRoot();
      RecentGrows(roots, root);
      RecentCount(roots);
      var added := historic.AddLeaf(index, GetRoot(), Recent(roots));
      if added.Err? {
        return Err;
      }
      currentLeaf := leaf;
      assert (history + [leaf])[..|history|] == history;
      assert PastRoots(historic.H, historic.height, history + [leaf]) == roots + [root];
      return Ok(GetRoot());
    }

    /** One round of the loop that replays stored leaves. */
    method ReplayLeaf(index: nat, leaf: D, ghost history: seq<D>)
      requires Represents(history) && index == |history| % TWO_32
      modifies this, historic, historic.siblings
      ensures historic.siblings == old(historic.siblings)
      ensures Represents(history + [leaf])
    {
      var added := AddLeaf(index, leaf, history);
      currentLeaf := leaf;
    }
  }

  method NewL1InfoTreeRecursive<D(==)>(H: Hasher<D>, height: nat) returns (r: Result<L1InfoTreeRecursive<D>>)
    ensures r.Ok? <==> 1 <= height
    ensures r.Ok? ==> fresh(r.value) && fresh(r.value.historic) && fresh(r.value.historic.siblings)
    ensures r.Ok? ==> r.value.historic.H == H && r.value.historic.height == height
    ensures r.Ok? ==> r.value.Represents([])
  {
    var historic := NewL1InfoTree<D>(H, height, []);
    if historic.Err? {
      return Err;
    }
    var tree := new L1InfoTreeRecursive<D>.Make(historic.value, H.zero);
    return Ok(tree);
  }

  /** After any number of additions the tree stands for exactly the leaves added so far. */
  method NewL1InfoTreeRecursiveFromLeaves<D(==)>(H: Hasher<D>, height: nat, leaves: seq<D>)
    returns (r: Result<L1InfoTreeRecursive<D>>)
    ensures r.Ok? <==> 1 <= height
    ensures r.Ok? ==> r.value.historic.H == H && r.value.historic.height == height
    ensures r.Ok? ==> r.value.Represents(leaves)
    ensures r.Ok? ==> r.value.GetRoot() == RecursiveRoot(H, height, leaves)
  {
    var start := NewL1InfoTreeRecursive<D>(H, height);
    if start.Err? {
      return Err;
    }
    var tree := start.value;
    for i := 0 to |leaves|
      invariant tree.Represents(leaves[..i]) && tree.historic.H == H && tree.historic.height == height
      invariant fresh(tree) && fresh(tree.historic) && fresh(tree.historic.siblings)
    {
      assert leaves[..i] + [leaves[i]] == leaves[..i + 1];
      tree.ReplayLeaf(i % TWO_32, leaves[i], leaves[..i]);
    }
    assert leaves[..|leaves|] == leaves;
    return Ok(tree);
  }

  // ----- What the root commits to -----

  /** Nothing but zero roots and a zero leaf, for which the root is zero instead of a hash. */
  ghost predicate IsBlank<D>(H: Hasher<D>, height: nat, history: seq<D>) {
    HistoricRoot(H, height, PastRoots(H, height, history)) == ZeroHash(H, EMPTY_ROOT_LEVEL)
    && LastLeaf(H, history) == H.zero
  }

  /**
   Every past root opens the current one: with its historic siblings, and the current leaf as the topmost one, it
   folds to it. The historic root is thus on the left and the current leaf on the right.
   */
  lemma PastRootOpens<D>(H: Hasher<D>, height: nat, history: seq<D>, i: nat, siblings: seq<D>)
    requires |history| <= Pow2(height) && |history| <= TWO_32 && i < Pow2(height) && !IsBlank(H, height, history)
    requires |siblings| == height && IsProof(H, PastRoots(H, height, history), i, siblings)
    ensures var root := if i < |history| then RecursiveRoot(H, height, history[..i]) else H.zero;
            Fold(H, root, siblings + [LastLeaf(H, history)], i) == RecursiveRoot(H, height, history)
  {
    var roots := PastRoots(H, height, history);
    if i < |history| {
      PastRootAt(H, height, history, i);
    }
    ProofReachesRoot(H, roots, i, siblings);
    HistoricIsRoot(H, height, roots);
    ShiftIsZero(i, height);
    var all := siblings + [LastLeaf(H, history)];
    assert all[..height] == siblings && all[height] == LastLeaf(H, history);
  }

  /** The current leaf opens it too, on the other side. */
  lemma CurrentLeafOpens<D>(H: Hasher<D>, height: nat, history: seq<D>)
    requires |history| <= Pow2(height) && |history| <= TWO_32 && !IsBlank(H, height, history)
    ensures Fold(H, LastLeaf(H, history), [Root(H, height, PastRoots(H, height, history))], 1) ==
            RecursiveRoot(H, height, history)
  {
    HistoricIsRoot(H, height, PastRoots(H, height, history));
    var siblings := [Root(H, height, PastRoots(H, height, history))];
    assert siblings[..0] == [] && Shift(1, 0) == 1;
    assert TopPair(H, LastLeaf(H, history), siblings, 1) == (siblings[0], LastLeaf(H, history));
  }

  // ----- When two histories have one root -----

  /** No two hash inputs collide and no input hashes to the zero hash. */
  ghost predicate IsFree<D(!new)>(H: Hasher<D>) {
    && (forall a, b, c, d :: H.hash(a, b) == H.hash(c, d) ==> a == c && b == d)
    && (forall a, b :: H.hash(a, b) != H.zero)
  }

  /** The term algebra of digests; its hasher is free. */
  datatype Digest = Zero | Leaf(id: nat) | Node(left: Digest, right: Digest)

  function TermHasher(): (H: Hasher<Digest>)
    ensures IsFree(H)
  {
    Hasher(Zero, (l, r) => Node(l, r))
  }

  ghost predicate AllZero<D>(H: Hasher<D>, s: seq<D>) {
    forall i :: 0 <= i < |s| ==> s[i] == H.zero
  }

  /** Nothing but zero leaves, except possibly the last. */
  ghost predicate ZeroUntilLast<D>(H: Hasher<D>, s: seq<D>) {
    s != [] ==> AllZero(H, s[..|s| - 1])
  }

  function LeafAt<D>(H: Hasher<D>, leaves: seq<D>, i: nat): D {
    if i < |leaves| then leaves[i] else H.zero
  }

  /** Equal nodes cover equal leaves. */
  lemma {:induction false} NodeDeterminesLeaf<D(!new)>(H: Hasher<D>, s: seq<D>, t: seq<D>, h: nat, j: nat)
    requires IsFree(H) && NodeAt(H, s, h, Shift(j, h)) == NodeAt(H, t, h, Shift(j, h))
    ensures LeafAt(H, s, j) == LeafAt(H, t, j)
  {
    if h > 0 {
      var i, k := Shift(j, h), Shift(j, h - 1);
      assert k == 2 * i || k == 2 * i + 1;
      NodeDeterminesLeaf(H, s, t, h - 1, j);
    }
  }

  lemma RootDeterminesLeaf<D(!new)>(H: Hasher<D>, height: nat, s: seq<D>, t: seq<D>, j: nat)
    requires IsFree(H) && Root(H, height, s) == Root(H, height, t) && j < Pow2(height)
    ensures LeafAt(H, s, j) == LeafAt(H, t, j)
  {
    ShiftIsZero(j, height);
    NodeDeterminesLeaf(H, s, t, height, j);
  }

  /** Zero leaves leave no trace in a node. */
  lemma {:induction false} ZeroLeavesNode<D>(H: Hasher<D>, s: seq<D>, h: nat, i: nat)
    requires AllZero(H, s)
    ensures NodeAt(H, s, h, i) == ZeroHash(H, h)
  {
    if h > 0 {
      ZeroLeavesNode(H, s, h - 1, 2 * i);
      ZeroLeavesNode(H, s, h - 1, 2 * i + 1);
    }
  }

  lemma EmptyRootMeansZeroLeaves<D(!new)>(H: Hasher<D>, height: nat, s: seq<D>)
    requires IsFree(H) && |s| <= Pow2(height)
    ensures Root(H, height, s) == ZeroHash(H, height) <==> AllZero(H, s)
  {
    ZeroLeavesNode(H, [], height, 0);
    if AllZero(H, s) {
      ZeroLeavesNode(H, s, height, 0);
    }
    if Root(H, height, s) == ZeroHash(H, height) {
      forall i | 0 <= i < |s|
        ensures s[i] == H.zero
      {
        RootDeterminesLeaf(H, height, s, [], i);
      }
    }
  }

  lemma HistoricAt32<D>(H: Hasher<D>, roots: seq<D>)
    requires |roots| <= Pow2(32)
    ensures HistoricRoot(H, 32, roots) == Root(H, 32, roots)
  {
    RoomFor32Bits();
    HistoricIsRoot(H, 32, roots);
  }

  lemma AllZeroSnoc<D>(H: Hasher<D>, s: seq<D>, d: D)
    ensures AllZero(H, s + [d]) <==> AllZero(H, s) && d == H.zero
  {
    var t := s + [d];
    assert t[|s|] == d && forall i :: 0 <= i < |s| ==> t[i] == s[i];
  }

  lemma ZeroParts<D(!new)>(H: Hasher<D>, history: seq<D>)
    requires IsFree(H) && |history| <= Pow2(32)
    ensures RecursiveRoot(H, 32, history) == H.zero <==>
            AllZero(H, PastRoots(H, 32, history)) && LastLeaf(H, history) == H.zero
  {
    HistoricAt32(H, PastRoots(H, 32, history));
    EmptyRootMeansZeroLeaves(H, 32, PastRoots(H, 32, history));
  }

  /** The root is the zero hash exactly while only zero leaves were added. */
  lemma {:induction false} ZeroRoot<D(!new)>(H: Hasher<D>, history: seq<D>)
    requires IsFree(H) && |history| <= Pow2(32)
    ensures RecursiveRoot(H, 32, history) == H.zero <==> AllZero(H, history)
    ensures AllZero(H, PastRoots(H, 32, history)) <==> ZeroUntilLast(H, history)
  {
    ZeroParts(H, history);
    if history != [] {
      var before, leaf := history[..|history| - 1], LastLeaf(H, history);
      ZeroRoot(H, before);
      assert history == before + [leaf];
      AllZeroSnoc(H, before, leaf);
      AllZeroSnoc(H, PastRoots(H, 32, before), RecursiveRoot(H, 32, before));
    }
  }

  ghost predicate SameRecursiveTree<D>(H: Hasher<D>, a: seq<D>, b: seq<D>) {
    a == b || (ZeroUntilLast(H, a) && ZeroUntilLast(H, b) && LastLeaf(H, a) == LastLeaf(H, b))
  }

  lemma SameTreeSameRoot<D(!new)>(H: Hasher<D>, a: seq<D>, b: seq<D>)
    requires IsFree(H) && |a| <= Pow2(32) && |b| <= Pow2(32) && SameRecursiveTree(H, a, b)
    ensures RecursiveRoot(H, 32, a) == RecursiveRoot(H, 32, b)
  {
    if a != b {
      ZeroRoot(H, a);
      ZeroRoot(H, b);
      EmptyRootMeansZeroLeaves(H, 32, PastRoots(H, 32, a));
      EmptyRootMeansZeroLeaves(H, 32, PastRoots(H, 32, b));
      HistoricAt32(H, PastRoots(H, 32, a));
      HistoricAt32(H, PastRoots(H, 32, b));
    }
  }

  /** A longer history with the same past roots added only zero roots since, so only zero leaves before its last. */
  lemma LongerIsZero<D(!new)>(H: Hasher<D>, a: seq<D>, b: seq<D>)
    requires IsFree(H) && |a| < |b| <= Pow2(32)
    requires Root(H, 32, PastRoots(H, 32, a)) == Root(H, 32, PastRoots(H, 32, b))
    ensures ZeroUntilLast(H, b)
  {
    var m := |b| - 1;
    RootDeterminesLeaf(H, 32, PastRoots(H, 32, a), PastRoots(H, 32, b), m);
    PastRootAt(H, 32, b, m);
    ZeroRoot(H, b[..m]);
  }

  lemma LongerHistory<D(!new)>(H: Hasher<D>, a: seq<D>, b: seq<D>)
    requires IsFree(H) && |a| < |b| <= Pow2(32)
    requires Root(H, 32, PastRoots(H, 32, a)) == Root(H, 32, PastRoots(H, 32, b))
    ensures ZeroUntilLast(H, a) && ZeroUntilLast(H, b)
  {
    LongerIsZero(H, a, b);
    ZeroRoot(H, a);
    ZeroRoot(H, b);
    EmptyRootMeansZeroLeaves(H, 32, PastRoots(H, 32, a));
    EmptyRootMeansZeroLeaves(H, 32, PastRoots(H, 32, b));
  }

  /** Histories of one length with the same past roots also agreed one leaf earlier. */
  lemma PreviousRoots<D(!new)>(H: Hasher<D>, a: seq<D>, b: seq<D>)
    requires IsFree(H) && 0 < |a| == |b| <= Pow2(32)
    requires Root(H, 32, PastRoots(H, 32, a)) == Root(H, 32, PastRoots(H, 32, b))
    ensures RecursiveRoot(H, 32, a[..|a| - 1]) == RecursiveRoot(H, 32, b[..|b| - 1])
  {
    var n := |a| - 1;
    RootDeterminesLeaf(H, 32, PastRoots(H, 32, a), PastRoots(H, 32, b), n);
    PastRootAt(H, 32, a, n);
    PastRootAt(H, 32, b, n);
  }

  /** Equal roots other than the zero hash come from equal past roots and equal last leaves. */
  lemma SameParts<D(!new)>(H: Hasher<D>, a: seq<D>, b: seq<D>)
    requires IsFree(H) && |a| <= Pow2(32) && |b| <= Pow2(32)
    requires RecursiveRoot(H, 32, a) == RecursiveRoot(H, 32, b) != H.zero
    ensures Root(H, 32, PastRoots(H, 32, a)) == Root(H, 32, PastRoots(H, 32, b))
    ensures LastLeaf(H, a) == LastLeaf(H, b)
  {
    HistoricAt32(H, PastRoots(H, 32, a));
    HistoricAt32(H, PastRoots(H, 32, b));
  }

  lemma {:induction false} SameRootSameTree<D(!new)>(H: Hasher<D>, a: seq<D>, b: seq<D>)
    requires IsFree(H) && |a| <= |b| <= Pow2(32)
    requires RecursiveRoot(H, 32, a) == RecursiveRoot(H, 32, b)
    ensures SameRecursiveTree(H, a, b)
    decreases |b|, 1
  {
    ZeroRoot(H, a);
    ZeroRoot(H, b);
    if RecursiveRoot(H, 32, a) == H.zero {
      assert ZeroUntilLast(H, a) && ZeroUntilLast(H, b);
    } else {
      SameParts(H, a, b);
      if |a| < |b| {
        LongerHistory(H, a, b);
      } else {
        SameLengthSameRoot(H, a, b);
      }
    }
  }

  lemma {:induction false} SameLengthSameRoot<D(!new)>(H: Hasher<D>, a: seq<D>, b: seq<D>)
    requires IsFree(H) && |a| == |b| <= Pow2(32) && LastLeaf(H, a) == LastLeaf(H, b)
    requires Root(H, 32, PastRoots(H, 32, a)) == Root(H, 32, PastRoots(H, 32, b))
    ensures a == b
    decreases |b|, 0
  {
    if a != [] {
      var n := |a| - 1;
      PreviousRoots(H, a, b);
      SameRootSameTree(H, a[..n], b[..n]);
      SameLengthSameTree(H, a[..n], b[..n]);
      assert a == a[..n] + [a[n]] && b == b[..n] + [b[n]];
    }
  }

  lemma SameLengthSameTree<D>(H: Hasher<D>, a: seq<D>, b: seq<D>)
    requires |a| == |b| && SameRecursiveTree(H, a, b)
    ensures a == b
  {
    if a != [] && ZeroUntilLast(H, a) && ZeroUntilLast(H, b) {
      var n := |a| - 1;
      assert a == a[..n] + [a[n]] && b == b[..n] + [b[n]];
      assert forall i :: 0 <= i < n ==> a[..n][i] == b[..n][i];
    }
  }

  /**
   Two histories of the height-32 tree, of any lengths, have one root exactly when they are the same
   history or both are a (possibly empty) run of zero leaves before one common last leaf.
   */
  lemma RootIdentifiesHistory<D(!new)>(H: Hasher<D>, a: seq<D>, b: seq<D>)
    requires IsFree(H) && |a| <= Pow2(32) && |b| <= Pow2(32)
    ensures RecursiveRoot(H, 32, a) == RecursiveRoot(H, 32, b) <==> SameRecursiveTree(H, a, b)
  {
    if RecursiveRoot(H, 32, a) == RecursiveRoot(H, 32, b) {
      if |a| <= |b| {
        SameRootSameTree(H, a, b);
      } else {
        SameRootSameTree(H, b, a);
      }
    }
    if SameRecursiveTree(H, a, b) {
      SameTreeSameRoot(H, a, b);
    }
  }

  lemma ZeroUntilLastHoldsZero<D>(H: Hasher<D>, s: seq<D>)
    requires ZeroUntilLast(H, s)
    ensures |s| <= 1 || H.zero in s
  {
    if |s| > 1 {
      assert s[..|s| - 1][0] == s[0];
    }
  }

  /** With non-zero leaves the root identifies the history. */
  lemma NonZeroHistories<D(!new)>(H: Hasher<D>, a: seq<D>, b: seq<D>)
    requires IsFree(H) && |a| <= Pow2(32) && |b| <= Pow2(32)
    requires H.zero !in a && H.zero !in b
    ensures RecursiveRoot(H, 32, a) == RecursiveRoot(H, 32, b) <==> a == b
  {
    RootIdentifiesHistory(H, a, b);
    if ZeroUntilLast(H, a) && ZeroUntilLast(H, b) {
      ZeroUntilLastHoldsZero(H, a);
      ZeroUntilLastHoldsZero(H, b);
    }
  }
}
