/**
 The fixed-depth Merkle core: zero hashes, witness folding, multi-hop path
 verification and the frontier-only incremental tree.

 The pair hash is a parameter `h` of everything here. Leaves are hashed with
 the same function as inner nodes: a leaf is `h(sourceTrustRoot, blockHash)`.
 */
module Merkle {
  import opened Base

  type PairHash = (Word, Word) -> Word

  const MAX_TREE_DEPTH := 32

  datatype ProofError =
    | InvalidTreeDepth
    | InvalidSiblingCount
    | LeafIndexOutOfRange
    | EmptyPath
    | PathLengthMismatch
    | FinalRootMismatch
    | TreeFull

  datatype Witness = Witness(leafIndex: uint32, siblings: seq<Word>)

  predicate ValidDepth(depth: nat) {
    1 <= depth <= MAX_TREE_DEPTH
  }

  function Pow2(n: nat): (p: nat)
    ensures 1 <= p
  {
    if n == 0 then 1 else 2 * Pow2(n - 1)
  }

  // ---------------------------------------------------------------------
  // Reference: the full tree, zero-padded on the right
  // ---------------------------------------------------------------------

  /** The root of a subtree of height `level` holding only empty leaves. */
  ghost function ZeroHash(h: PairHash, level: nat): Word {
    if level == 0 then 0 else h(ZeroHash(h, level - 1), ZeroHash(h, level - 1))
  }

  /** The node at `position` (counted from the left) of row `level` in the
      infinite tree whose leaves are `leaves` followed by zero words. */
  ghost function Node(h: PairHash, leaves: seq<Word>, level: nat, position: nat): Word {
    if level == 0 then
      if position < |leaves| then leaves[position] else 0
    else
      h(Node(h, leaves, level - 1, 2 * position), Node(h, leaves, level - 1, 2 * position + 1))
  }

  ghost function FullRoot(h: PairHash, leaves: seq<Word>, depth: nat): Word {
    Node(h, leaves, depth, 0)
  }

  /** The position, in row `level`, of the ancestor of leaf `index`. */
  function Ancestor(index: nat, level: nat): nat {
    if level == 0 then index else Ancestor(index, level - 1) / 2
  }

  lemma AncestorStep(index: nat, level: nat)
    ensures Ancestor(index, level + 1) == Ancestor(index, level) / 2
  {
  }

  lemma {:induction false} AncestorOfParent(index: nat, level: nat)
    ensures Ancestor(index / 2, level) == Ancestor(index, level + 1)
  {
    if level == 0 {
      assert Ancestor(index, 1) == Ancestor(index, 0) / 2;
    } else {
      AncestorOfParent(index, level - 1);
    }
  }

  lemma {:induction false} AncestorAtRoot(index: nat, depth: nat)
    requires index < Pow2(depth)
    ensures Ancestor(index, depth) == 0
  {
    if depth > 0 {
      AncestorAtRoot(index / 2, depth - 1);
      AncestorOfParent(index, depth - 1);
    }
  }

  lemma {:induction false} AncestorOfNext(index: nat, level: nat)
    ensures Ancestor(index, level) <= Ancestor(index + 1, level) <= Ancestor(index, level) + 1
  {
    if level > 0 {
      AncestorOfNext(index, level - 1);
    }
  }

  lemma ParentNode(h: PairHash, leaves: seq<Word>, level: nat, position: nat)
    ensures Node(h, leaves, level + 1, position / 2)
         == if position % 2 == 0
            then h(Node(h, leaves, level, position), Node(h, leaves, level, position + 1))
            else h(Node(h, leaves, level, position - 1), Node(h, leaves, level, position))
  {
    assert 2 * (position / 2) == position - position % 2;
  }

  /** Appending a leaf changes only the nodes above it. */
  lemma {:induction false} NodeUnchanged(h: PairHash, leaves: seq<Word>, leaf: Word, level: nat, position: nat)
    requires position != Ancestor(|leaves|, level)
    ensures Node(h, leaves + [leaf], level, position) == Node(h, leaves, level, position)
  {
    if level > 0 {
      NodeUnchanged(h, leaves, leaf, level - 1, 2 * position);
      NodeUnchanged(h, leaves, leaf, level - 1, 2 * position + 1);
    }
  }

  /** Everything to the right of the last leaf's ancestors is empty. */
  lemma {:induction false} NodeEmpty(h: PairHash, leaves: seq<Word>, level: nat, position: nat)
    requires leaves == [] || position > Ancestor(|leaves| - 1, level)
    ensures Node(h, leaves, level, position) == ZeroHash(h, level)
  {
    if level > 0 {
      NodeEmpty(h, leaves, level - 1, 2 * position);
      NodeEmpty(h, leaves, level - 1, 2 * position + 1);
    }
  }

  // ---------------------------------------------------------------------
  // Witness folding
  // ---------------------------------------------------------------------

  /** One folding step: the low bit of the index says which side is the sibling's. */
  function Join(h: PairHash, node: Word, index: nat, sibling: Word): Word {
    if index % 2 == 0 then h(node, sibling) else h(sibling, node)
  }

  ghost function Fold(h: PairHash, leaf: Word, index: nat, siblings: seq<Word>): Word
    decreases |siblings|
  {
    if siblings == [] then leaf
    else Fold(h, Join(h, leaf, index, siblings[0]), index / 2, siblings[1..])
  }

  lemma FoldNil(h: PairHash, leaf: Word, index: nat)
    ensures Fold(h, leaf, index, []) == leaf
  {
  }

  lemma FoldCons(h: PairHash, leaf: Word, index: nat, sibling: Word, rest: seq<Word>)
    ensures Fold(h, leaf, index, [sibling] + rest) == Fold(h, Join(h, leaf, index, sibling), index / 2, rest)
  {
    assert ([sibling] + rest)[1..] == rest;
  }

  /** The bottom-up siblings of leaf `index`, from row `level` up to row `depth`. */
  ghost function SiblingsFrom(h: PairHash, leaves: seq<Word>, index: nat, level: nat, depth: nat): seq<Word>
    requires level <= depth
    decreases depth - level
  {
    if level == depth then []
    else
      var at := Ancestor(index, level);
      [Node(h, leaves, level, if at % 2 == 0 then at + 1 else at - 1)]
      + SiblingsFrom(h, leaves, index, level + 1, depth)
  }

  lemma {:induction false} FoldSiblings(h: PairHash, leaves: seq<Word>, index: nat, level: nat, depth: nat)
    requires level <= depth
    ensures |SiblingsFrom(h, leaves, index, level, depth)| == depth - level
    ensures Fold(h, Node(h, leaves, level, Ancestor(index, level)), Ancestor(index, level),
                 SiblingsFrom(h, leaves, index, level, depth))
         == Node(h, leaves, depth, Ancestor(index, depth))
    decreases depth - level
  {
    hide Node, Fold, Ancestor;
    if level == depth {
      FoldNil(h, Node(h, leaves, level, Ancestor(index, level)), Ancestor(index, level));
    } else {
      FoldSiblings(h, leaves, index, level + 1, depth);
      AncestorStep(index, level);
      var at := Ancestor(index, level);
      var sibling := Node(h, leaves, level, if at % 2 == 0 then at + 1 else at - 1);
      ParentNode(h, leaves, level, at);
      FoldCons(h, Node(h, leaves, level, at), at, sibling, SiblingsFrom(h, leaves, index, level + 1, depth));
    }
  }

  /** Completeness: every position of every padded tree has a witness that folds to its root. */
  lemma WitnessComplete(h: PairHash, leaves: seq<Word>, index: nat, depth: nat)
    requires index < Pow2(depth)
    ensures |SiblingsFrom(h, leaves, index, 0, depth)| == depth
    ensures Fold(h, if index < |leaves| then leaves[index] else 0, index, SiblingsFrom(h, leaves, index, 0, depth))
         == FullRoot(h, leaves, depth)
  {
    FoldSiblings(h, leaves, index, 0, depth);
    AncestorAtRoot(index, depth);
  }

  /** When folding is defined: the checks made before the first hash. */
  function WitnessCheck(index: uint32, siblings: seq<Word>, depth: nat): Option<ProofError> {
    if !ValidDepth(depth) then Some(InvalidTreeDepth)
    else if |siblings| != depth then Some(InvalidSiblingCount)
    else if index >= Pow2(depth) then Some(LeafIndexOutOfRange)
    else None
  }

  method RootFromWitness(h: PairHash, leaf: Word, leafIndex: uint32, siblings: seq<Word>, expectedDepth: nat)
    returns (r: Result<Word, ProofError>)
    ensures r == match WitnessCheck(leafIndex, siblings, expectedDepth)
                 case Some(error) => Err(error)
                 case None => Ok(Fold(h, leaf, leafIndex, siblings))
  {
    if !ValidDepth(expectedDepth) {
      return Err(InvalidTreeDepth);
    }
    if |siblings| != expectedDepth {
      return Err(InvalidSiblingCount);
    }
    var capacity := Pow2(expectedDepth);
    if leafIndex >= capacity {
      return Err(LeafIndexOutOfRange);
    }
    var root := leaf;
    var index: nat := leafIndex;
    var i := 0;
    while i < |siblings|
      invariant 0 <= i <= |siblings|
      invariant Fold(h, root, index, siblings[i..]) == Fold(h, leaf, leafIndex, siblings)
    {
      assert siblings[i..][1..] == siblings[i + 1..];
      root := Join(h, root, index, siblings[i]);
      index := index / 2;
      i := i + 1;
    }
    return Ok(root);
  }

  // ---------------------------------------------------------------------
  // Multi-hop paths
  // ---------------------------------------------------------------------

  /** The home root a path reconstructs: each hop's root is bound into the next hop's leaf. */
  ghost function PathRoot(h: PairHash, base: Word, hashes: seq<Word>, witnesses: seq<Witness>): Word
    requires |hashes| == |witnesses|
    decreases |hashes|
  {
    if hashes == [] then base
    else PathRoot(h, Fold(h, h(base, hashes[0]), witnesses[0].leafIndex, witnesses[0].siblings),
                  hashes[1..], witnesses[1..])
  }

  ghost predicate WitnessesFit(witnesses: seq<Witness>, depth: nat) {
    forall w :: w in witnesses ==> WitnessCheck(w.leafIndex, w.siblings, depth).None?
  }

  ghost predicate AcceptsPath(h: PairHash, base: Word, hashes: seq<Word>, witnesses: seq<Witness>, home: Word, depth: nat) {
    && ValidDepth(depth)
    && hashes != []
    && |hashes| == |witnesses|
    && WitnessesFit(witnesses, depth)
    && PathRoot(h, base, hashes, witnesses) == home
  }

  method VerifyPath(h: PairHash, baseTrustRoot: Word, blockHashes: seq<Word>, witnesses: seq<Witness>,
                    expectedHomeRoot: Word, expectedDepth: nat)
    returns (r: Result<(), ProofError>)
    ensures r.Ok? <==> AcceptsPath(h, baseTrustRoot, blockHashes, witnesses, expectedHomeRoot, expectedDepth)
    ensures r == Err(FinalRootMismatch) <==>
            && ValidDepth(expectedDepth) && blockHashes != [] && |blockHashes| == |witnesses|
            && WitnessesFit(witnesses, expectedDepth)
            && PathRoot(h, baseTrustRoot, blockHashes, witnesses) != expectedHomeRoot
  {
    if !ValidDepth(expectedDepth) {
      return Err(InvalidTreeDepth);
    }
    if |blockHashes| == 0 {
      return Err(EmptyPath);
    }
    if |blockHashes| != |witnesses| {
      return Err(PathLengthMismatch);
    }
    var root := baseTrustRoot;
    for i := 0 to |blockHashes|
      invariant forall k :: 0 <= k < i ==> WitnessCheck(witnesses[k].leafIndex, witnesses[k].siblings, expectedDepth).None?
      invariant PathRoot(h, root, blockHashes[i..], witnesses[i..]) == PathRoot(h, baseTrustRoot, blockHashes, witnesses)
    {
      assert blockHashes[i..][1..] == blockHashes[i + 1..] && witnesses[i..][1..] == witnesses[i + 1..];
      var folded := RootFromWitness(h, h(root, blockHashes[i]), witnesses[i].leafIndex, witnesses[i].siblings, expectedDepth);
      match folded
      case Err(error) =>
        assert witnesses[i] in witnesses;
        return Err(error);
      case Ok(value) =>
        root := value;
    }
    if root != expectedHomeRoot {
      return Err(FinalRootMismatch);
    }
    return Ok(());
  }

  // ---------------------------------------------------------------------
  // Binding
  // ---------------------------------------------------------------------

  /** The pairs fed to the hash while folding a witness, and along a path. */
  ghost function FoldPairs(h: PairHash, leaf: Word, index: nat, siblings: seq<Word>): set<(Word, Word)>
    decreases |siblings|
  {
    if siblings == [] then {}
    else {if index % 2 == 0 then (leaf, siblings[0]) else (siblings[0], leaf)}
         + FoldPairs(h, Join(h, leaf, index, siblings[0]), index / 2, siblings[1..])
  }

  ghost function PathPairs(h: PairHash, base: Word, hashes: seq<Word>, witnesses: seq<Witness>): set<(Word, Word)>
    requires |hashes| == |witnesses|
    decreases |hashes|
  {
    if hashes == [] then {}
    else
      var leaf := h(base, hashes[0]);
      {(base, hashes[0])}
      + FoldPairs(h, leaf, witnesses[0].leafIndex, witnesses[0].siblings)
      + PathPairs(h, Fold(h, leaf, witnesses[0].leafIndex, witnesses[0].siblings), hashes[1..], witnesses[1..])
  }

  ghost predicate CollisionFree(h: PairHash, pairs: set<(Word, Word)>) {
    forall p, q :: p in pairs && q in pairs && h(p.0, p.1) == h(q.0, q.1) ==> p == q
  }

  lemma {:induction false} FoldBinding(h: PairHash, leaf1: Word, leaf2: Word, index: nat, siblings1: seq<Word>, siblings2: seq<Word>, pairs: set<(Word, Word)>)
    requires |siblings1| == |siblings2|
    requires FoldPairs(h, leaf1, index, siblings1) <= pairs
    requires FoldPairs(h, leaf2, index, siblings2) <= pairs
    requires CollisionFree(h, pairs)
    requires Fold(h, leaf1, index, siblings1) == Fold(h, leaf2, index, siblings2)
    ensures leaf1 == leaf2 && siblings1 == siblings2
    decreases |siblings1|
  {
    if siblings1 != [] {
      FoldBinding(h, Join(h, leaf1, index, siblings1[0]), Join(h, leaf2, index, siblings2[0]), index / 2,
                  siblings1[1..], siblings2[1..], pairs);
      assert (if index % 2 == 0 then (leaf1, siblings1[0]) else (siblings1[0], leaf1)) in FoldPairs(h, leaf1, index, siblings1);
      assert (if index % 2 == 0 then (leaf2, siblings2[0]) else (siblings2[0], leaf2)) in FoldPairs(h, leaf2, index, siblings2);
      assert siblings1 == [siblings1[0]] + siblings1[1..];
      assert siblings2 == [siblings2[0]] + siblings2[1..];
    }
  }

  /** Two paths of the same shape (lengths and leaf indices) reaching the same
      home root are the same path, unless the hash collides on a pair that one
      of the two verifications actually hashes. */
  lemma {:induction false} PathBinding(h: PairHash, base1: Word, base2: Word, hashes1: seq<Word>, hashes2: seq<Word>,
                                       witnesses1: seq<Witness>, witnesses2: seq<Witness>, pairs: set<(Word, Word)>)
    requires |hashes1| == |hashes2| == |witnesses1| == |witnesses2|
    requires forall i :: 0 <= i < |witnesses1| ==>
               && witnesses1[i].leafIndex == witnesses2[i].leafIndex
               && |witnesses1[i].siblings| == |witnesses2[i].siblings|
    requires PathPairs(h, base1, hashes1, witnesses1) <= pairs
    requires PathPairs(h, base2, hashes2, witnesses2) <= pairs
    requires CollisionFree(h, pairs)
    requires PathRoot(h, base1, hashes1, witnesses1) == PathRoot(h, base2, hashes2, witnesses2)
    ensures base1 == base2 && hashes1 == hashes2 && witnesses1 == witnesses2
    decreases |hashes1|
  {
    if hashes1 != [] {
      var leaf1, leaf2 := h(base1, hashes1[0]), h(base2, hashes2[0]);
      var w1, w2 := witnesses1[0], witnesses2[0];
      PathBinding(h, Fold(h, leaf1, w1.leafIndex, w1.siblings), Fold(h, leaf2, w2.leafIndex, w2.siblings),
                  hashes1[1..], hashes2[1..], witnesses1[1..], witnesses2[1..], pairs);
      FoldBinding(h, leaf1, leaf2, w1.leafIndex, w1.siblings, w2.siblings, pairs);
      assert (base1, hashes1[0]) in PathPairs(h, base1, hashes1, witnesses1);
      assert (base2, hashes2[0]) in PathPairs(h, base2, hashes2, witnesses2);
      assert hashes1 == [hashes1[0]] + hashes1[1..] && hashes2 == [hashes2[0]] + hashes2[1..];
      assert witnesses1 == [w1] + witnesses1[1..] && witnesses2 == [w2] + witnesses2[1..];
    }
  }

  // ---------------------------------------------------------------------
  // Incremental tree
  // ---------------------------------------------------------------------

  method ZeroHashes(h: PairHash, depth: nat) returns (r: Result<seq<Word>, ProofError>)
    ensures !ValidDepth(depth) ==> r == Err(InvalidTreeDepth)
    ensures ValidDepth(depth) ==> r.Ok? && |r.value| == depth + 1
    ensures r.Ok? ==> forall level :: 0 <= level < |r.value| ==> r.value[level] == ZeroHash(h, level)
  {
    if !ValidDepth(depth) {
      return Err(InvalidTreeDepth);
    }
    var zeros: seq<Word> := [0];
    for level := 1 to depth + 1
      invariant |zeros| == level
      invariant forall k :: 0 <= k < level ==> zeros[k] == ZeroHash(h, k)
    {
      zeros := zeros + [h(zeros[level - 1], zeros[level - 1])];
    }
    return Ok(zeros);
  }

  /** What a frontier must hold after `leaves`: at each row where the next
      leaf's path turns right, the finished left sibling. Other entries are
      stale and unconstrained. */
  ghost predicate FrontierHolds(h: PairHash, leaves: seq<Word>, frontier: seq<Word>) {
    forall level :: 0 <= level < |frontier| && Ancestor(|leaves|, level) % 2 == 1 ==>
      frontier[level] == Node(h, leaves, level, Ancestor(|leaves|, level) - 1)
  }

  /** The nodes above the leaf being appended, from the leaf to the root. */
  ghost function AppendPath(h: PairHash, leaves: seq<Word>, leaf: Word, depth: nat): (path: seq<Word>)
    ensures |path| == depth + 1
  {
    seq(depth + 1, level requires level >= 0 => Node(h, leaves + [leaf], level, Ancestor(|leaves|, level)))
  }

  lemma AppendPathEnds(h: PairHash, leaves: seq<Word>, leaf: Word, depth: nat)
    requires |leaves| < Pow2(depth)
    ensures Ancestor(|leaves|, 0) == |leaves|
    ensures AppendPath(h, leaves, leaf, depth)[0] == leaf
    ensures AppendPath(h, leaves, leaf, depth)[depth] == FullRoot(h, leaves + [leaf], depth)
  {
    AncestorAtRoot(|leaves|, depth);
  }

  /** One row of an append: a left turn joins the empty subtree, a right turn
      the sibling the frontier kept. */
  ghost predicate PathClimbs(h: PairHash, index: nat, path: seq<Word>, frontier: seq<Word>, zeros: seq<Word>) {
    && |path| == |frontier| + 1 == |zeros|
    && forall level :: 0 <= level < |frontier| ==>
         path[level + 1] == if Ancestor(index, level) % 2 == 0 then h(path[level], zeros[level])
                            else h(frontier[level], path[level])
  }

  lemma AppendPathClimbs(h: PairHash, leaves: seq<Word>, leaf: Word, frontier: seq<Word>, zeros: seq<Word>)
    requires FrontierHolds(h, leaves, frontier)
    requires |zeros| == |frontier| + 1
    requires forall level :: 0 <= level < |zeros| ==> zeros[level] == ZeroHash(h, level)
    ensures PathClimbs(h, |leaves|, AppendPath(h, leaves, leaf, |frontier|), frontier, zeros)
  {
    hide Node;
    hide Ancestor;
    hide ZeroHash;
    var path, grown := AppendPath(h, leaves, leaf, |frontier|), leaves + [leaf];
    forall level | 0 <= level < |frontier|
      ensures path[level + 1] == if Ancestor(|leaves|, level) % 2 == 0 then h(path[level], zeros[level])
                                 else h(frontier[level], path[level])
    {
      var at := Ancestor(|leaves|, level);
      AncestorStep(|leaves|, level);
      ParentNode(h, grown, level, at);
      if at % 2 == 0 {
        NodeEmpty(h, grown, level, at + 1);
      } else {
        NodeUnchanged(h, leaves, leaf, level, at - 1);
      }
    }
  }

  /** The rows below `below` of the frontier during an append: a row where the
      path turns left is overwritten with the path's node, others are kept. */
  ghost predicate FrontierUpdated(index: nat, path: seq<Word>, before: seq<Word>, after: seq<Word>, below: nat) {
    && |path| == |before| + 1 == |after| + 1
    && forall level :: 0 <= level < |after| ==>
         after[level] == if level < below && Ancestor(index, level) % 2 == 0 then path[level] else before[level]
  }

  lemma FrontierKept(h: PairHash, leaves: seq<Word>, leaf: Word, before: seq<Word>, after: seq<Word>)
    requires FrontierHolds(h, leaves, before)
    requires FrontierUpdated(|leaves|, AppendPath(h, leaves, leaf, |before|), before, after, |before|)
    ensures FrontierHolds(h, leaves + [leaf], after)
  {
    hide Node;
    hide Ancestor;
    var n := |leaves|;
    forall level | 0 <= level < |after| && Ancestor(n + 1, level) % 2 == 1
      ensures after[level] == Node(h, leaves + [leaf], level, Ancestor(n + 1, level) - 1)
    {
      AncestorOfNext(n, level);
      if Ancestor(n + 1, level) == Ancestor(n, level) {
        NodeUnchanged(h, leaves, leaf, level, Ancestor(n, level) - 1);
      }
    }
  }

  class IncrementalTree {
    const h: PairHash
    const depth: nat
    const capacity: nat
    const zeros: seq<Word>
    var nextIndex: nat
    var frontier: seq<Word>
    var root: Word
    ghost var leaves: seq<Word>

    ghost predicate Valid()
      reads this
    {
      && ValidDepth(depth)
      && capacity == Pow2(depth)
      && |zeros| == depth + 1
      && (forall level :: 0 <= level <= depth ==> zeros[level] == ZeroHash(h, level))
      && nextIndex == |leaves| <= capacity
      && |frontier| == depth
      && FrontierHolds(h, leaves, frontier)
      && root == FullRoot(h, leaves, depth)
    }

    /** An empty tree; `zeros` are the zero hashes the caller computed with `ZeroHashes`. */
    constructor (h: PairHash, depth: nat, zeros: seq<Word>)
      requires ValidDepth(depth) && |zeros| == depth + 1
      requires forall level :: 0 <= level <= depth ==> zeros[level] == ZeroHash(h, level)
      ensures Valid() && leaves == []
      ensures this.h == h && this.depth == depth
    {
      this.h, this.depth, this.capacity, this.zeros := h, depth, Pow2(depth), zeros;
      nextIndex, frontier, root, leaves := 0, seq(depth, _ => 0), zeros[depth], [];
      new;
      forall level: nat ensures Ancestor(0, level) == 0 {
        ZeroAncestor(level);
      }
      NodeEmpty(h, [], depth, 0);
    }

    method Append(leaf: Word) returns (r: Result<(), ProofError>)
      requires Valid()
      modifies this
      ensures Valid()
      ensures r.Ok? <==> |old(leaves)| < Pow2(depth)
      ensures r.Err? ==> r.error == TreeFull
      ensures leaves == if r.Ok? then old(leaves) + [leaf] else old(leaves)
      ensures root == FullRoot(h, leaves, depth)
    {
      hide Ancestor, Node, ZeroHash, Pow2, AppendPath, FullRoot, FrontierHolds;
      if nextIndex >= capacity {
        return Err(TreeFull);
      }
      var index := nextIndex;
      var node := leaf;
      ghost var path := AppendPath(h, leaves, leaf, depth);
      AppendPathEnds(h, leaves, leaf, depth);
      AppendPathClimbs(h, leaves, leaf, frontier, zeros);
      var level := 0;
      while level < depth
        invariant 0 <= level <= depth
        invariant index == Ancestor(old(nextIndex), level)
        invariant node == path[level]
        invariant FrontierUpdated(old(nextIndex), path, old(frontier), frontier, level)
        invariant nextIndex == old(nextIndex) && leaves == old(leaves) && root == old(root)
      {
        if index % 2 == 0 {
          frontier := frontier[level := node];
          node := h(node, zeros[level]);
        } else {
          node := h(frontier[level], node);
        }
        AncestorStep(old(nextIndex), level);
        index := index / 2;
        level := level + 1;
      }
      FrontierKept(h, leaves, leaf, old(frontier), frontier);
      root := node;
      nextIndex := nextIndex + 1;
      leaves := leaves + [leaf];
      return Ok(());
    }
  }

  /** A new tree for a valid depth, of no leaves. */
  method NewIncrementalTree(h: PairHash, depth: nat) returns (r: Result<IncrementalTree, ProofError>)
    ensures !ValidDepth(depth) ==> r == Err(InvalidTreeDepth)
    ensures ValidDepth(depth) ==> r.Ok? && fresh(r.value)
    ensures r.Ok? ==> r.value.Valid() && r.value.leaves == [] && r.value.h == h && r.value.depth == depth
  {
    hide FrontierHolds, FullRoot, Pow2;
    var zeros := ZeroHashes(h, depth);
    if zeros.Err? {
      return Err(zeros.error);
    }
    var tree := new IncrementalTree(h, depth, zeros.value);
    return Ok(tree);
  }

  lemma {:induction false} ZeroAncestor(level: nat)
    ensures Ancestor(0, level) == 0
  {
    if level > 0 {
      ZeroAncestor(level - 1);
    }
  }

  // ---------------------------------------------------------------------
  // The receipt validators' witness
  // ---------------------------------------------------------------------

  /** Anchor leaf first, zero hashes above. */
  ghost function DependencySiblings(h: PairHash, anchorLeaf: Word, depth: nat): seq<Word>
    requires 1 <= depth
  {
    [anchorLeaf] + seq(depth - 1, level requires level >= 0 => ZeroHash(h, level + 1))
  }

  lemma {:induction false} SecondLeafSiblings(h: PairHash, leaves: seq<Word>, level: nat, depth: nat)
    requires |leaves| == 2 && 1 <= level <= depth
    ensures SiblingsFrom(h, leaves, 1, level, depth)
         == seq(depth - level, k requires k >= 0 => ZeroHash(h, level + k))
    decreases depth - level
  {
    if level < depth {
      SecondLeafSiblings(h, leaves, level + 1, depth);
      AncestorOfParent(1, level - 1);
      ZeroAncestor(level - 1);
      NodeEmpty(h, leaves, level, 1);
    }
  }

  lemma TwoLeavesFit(depth: nat)
    requires 1 <= depth
    ensures 2 <= Pow2(depth)
  {
    assert Pow2(depth) == 2 * Pow2(depth - 1);
  }

  /** The witness a receipt validator rebuilds always folds to the root of the two-leaf tree. */
  lemma DependencyWitnessCloses(h: PairHash, anchorLeaf: Word, dependencyLeaf: Word, depth: nat)
    requires ValidDepth(depth)
    ensures WitnessCheck(1, DependencySiblings(h, anchorLeaf, depth), depth).None?
    ensures Fold(h, dependencyLeaf, 1, DependencySiblings(h, anchorLeaf, depth))
         == FullRoot(h, [anchorLeaf, dependencyLeaf], depth)
  {
    var leaves := [anchorLeaf, dependencyLeaf];
    TwoLeavesFit(depth);
    WitnessComplete(h, leaves, 1, depth);
    SecondLeafSiblings(h, leaves, 1, depth);
    assert SiblingsFrom(h, leaves, 1, 0, depth) == DependencySiblings(h, anchorLeaf, depth);
  }

  /** The siblings of the second leaf, from the zero hashes. */
  method SecondSiblings(h: PairHash, anchorLeaf: Word, depth: nat, zeros: seq<Word>) returns (siblings: seq<Word>)
    requires 1 <= depth && |zeros| == depth + 1 && forall level :: 0 <= level <= depth ==> zeros[level] == ZeroHash(h, level)
    ensures siblings == DependencySiblings(h, anchorLeaf, depth)
  {
    hide ZeroHash;
    siblings := [anchorLeaf];
    for level := 1 to depth
      invariant |siblings| == level && siblings[0] == anchorLeaf
      invariant forall k :: 1 <= k < level ==> siblings[k] == ZeroHash(h, k)
    {
      siblings := siblings + [zeros[level]];
    }
  }

  datatype ReceiptError = AnchorRootMismatch | DependencyRootMismatch

  /** The tail of receipt validation: replay both appends, then rebuild the
      dependency's membership witness. Only a root mismatch can fail it: the
      rebuilt witness never fails to close. */
  method RebuildDependencyWitness(h: PairHash, depth: nat, anchorLeaf: Word, dependencyLeaf: Word, anchorRoot: Word, homeRoot: Word)
    returns (r: Result<Witness, ReceiptError>)
    requires ValidDepth(depth)
    ensures r.Ok? <==> anchorRoot == FullRoot(h, [anchorLeaf], depth)
                       && homeRoot == FullRoot(h, [anchorLeaf, dependencyLeaf], depth)
    ensures r.Ok? ==> r.value == Witness(1, DependencySiblings(h, anchorLeaf, depth))
    ensures r.Ok? ==> Fold(h, dependencyLeaf, 1, r.value.siblings) == homeRoot
  {
    hide Ancestor, Node, ZeroHash, Pow2, Fold, FullRoot, FrontierHolds, DependencySiblings;
    TwoLeavesFit(depth);
    var created := NewIncrementalTree(h, depth);
    var tree := created.value;
    var first := tree.Append(anchorLeaf);
    assert tree.leaves == [anchorLeaf];
    if tree.root != anchorRoot {
      return Err(AnchorRootMismatch);
    }
    var second := tree.Append(dependencyLeaf);
    assert tree.leaves == [anchorLeaf, dependencyLeaf];
    if tree.root != homeRoot {
      return Err(DependencyRootMismatch);
    }
    var siblings := SecondSiblings(h, anchorLeaf, depth, tree.zeros);
    DependencyWitnessCloses(h, anchorLeaf, dependencyLeaf, depth);
    var closed := RootFromWitness(h, dependencyLeaf, 1, siblings, depth);
    assert closed == Ok(homeRoot);
    return Ok(Witness(1, siblings));
  }
}
