/** The height indexes of all chains: one heap tree each, sharing nothing. */
module HeightIndexes {
  import opened Base
  import opened HeightIndex
  import opened TrustView
  import Treap

  /** The index stands for the tree. */
  ghost predicate Holds(index: OrderedHeightIndex, tree: Treap.Tree)
    reads index, index.root, index.Nodes()
    ensures Holds(index, tree) && index.root != null ==> index.root in index.Nodes()
  {
    index.mix == MixHeight && index.Valid() && index.Value() == tree
  }

  /** All nodes of the index are accounted for. */
  ghost predicate Within(index: OrderedHeightIndex, owned: set<HeightNode>)
    reads index, owned
  {
    (index.root != null ==> index.root in owned) && index.Nodes() <= owned
  }

  /** Two indexes that share neither the object nor a node. */
  ghost predicate Apart(a: OrderedHeightIndex, b: OrderedHeightIndex)
    reads a, a.root, b, b.root
  {
    a != b && a.Nodes() !! b.Nodes()
  }

  /** Every chain has an index of its own, which holds its tree; no two share a node. */
  ghost predicate Indexes(heights: map<string, OrderedHeightIndex>, trees: map<string, Treap.Tree>, owned: set<HeightNode>)
    reads heights.Values, owned
  {
    && trees.Keys <= heights.Keys
    && (forall c :: c in heights ==> Within(heights[c], owned) && Holds(heights[c], IndexOf(trees, c)))
    && (forall c, d :: c in heights && d in heights && c != d ==> Apart(heights[c], heights[d]))
  }

  lemma IndexHolds(heights: map<string, OrderedHeightIndex>, trees: map<string, Treap.Tree>, owned: set<HeightNode>, chain: string)
    requires Indexes(heights, trees, owned) && chain in heights
    ensures heights[chain].Valid() && heights[chain].Value() == IndexOf(trees, chain) && heights[chain].mix == MixHeight
  {
    assert Holds(heights[chain], IndexOf(trees, chain));
  }

  /** Apart from one chain's index and its nodes, the rest stands on its own. */
  lemma SplitIndexes(heights: map<string, OrderedHeightIndex>, trees: map<string, Treap.Tree>, owned: set<HeightNode>, chain: string)
    requires Indexes(heights, trees, owned) && chain in heights
    ensures Indexes(heights - {chain}, trees - {chain}, owned - heights[chain].Nodes())
    ensures heights[chain] !in (heights - {chain}).Values && Within(heights[chain], owned)
  {
    hide Holds;
    var rest, kept := heights - {chain}, owned - heights[chain].Nodes();
    forall c | c in rest ensures heights[c] != heights[chain] && Within(rest[c], kept) && Holds(rest[c], IndexOf(trees - {chain}, c)) {
      assert Within(heights[c], owned) && Holds(heights[c], IndexOf(trees, c)) && Apart(heights[c], heights[chain]);
    }
  }

  /** An index that meets none of the others can join them. */
  lemma JoinIndexes(heights: map<string, OrderedHeightIndex>, trees: map<string, Treap.Tree>, owned: set<HeightNode>,
                    chain: string, index: OrderedHeightIndex, tree: Treap.Tree)
    requires Indexes(heights, trees, owned) && chain !in heights
    requires index !in heights.Values && Holds(index, tree) && index.Nodes() !! owned
    ensures Indexes(heights[chain := index], trees[chain := tree], owned + index.Nodes())
  {
    hide Holds;
    var all, every := heights[chain := index], owned + index.Nodes();
    forall c | c in heights ensures Within(all[c], every) && Holds(all[c], IndexOf(trees[chain := tree], c)) && Apart(all[c], index) {
      assert Within(heights[c], owned) && Holds(heights[c], IndexOf(trees, c)) && heights[c] in heights.Values;
    }
  }

  lemma HoldsNow(index: OrderedHeightIndex)
    requires index.Valid() && index.mix == MixHeight
    ensures Holds(index, index.Value())
  {
  }

  /** A new chain starts with an empty index, which changes no tree. */
  lemma EmptyIndexJoins(heights: map<string, OrderedHeightIndex>, trees: map<string, Treap.Tree>, owned: set<HeightNode>,
                        chain: string, index: OrderedHeightIndex)
    requires Indexes(heights, trees, owned) && chain !in heights
    requires index !in heights.Values && index.Valid() && index.root == null && index.mix == MixHeight
    ensures Indexes(heights[chain := index], trees, owned)
  {
    hide Holds;
    assert Holds(index, Treap.Nil) by { HoldsNow(index); }
    var all := heights[chain := index];
    forall c | c in heights ensures all[c] == heights[c] && Apart(all[c], index) {
      assert heights[c] in heights.Values;
    }
  }

  /** Inserting into one chain's index leaves every other index as it was. */
  method InsertHeight(heights: map<string, OrderedHeightIndex>, ghost trees: map<string, Treap.Tree>, ghost owned: set<HeightNode>,
                      index: OrderedHeightIndex, chain: string, height: uint64)
    returns (ghost trees': map<string, Treap.Tree>, ghost owned': set<HeightNode>)
    requires Indexes(heights, trees, owned) && chain in heights && index == heights[chain]
    modifies index, owned
    ensures trees' == trees[chain := Treap.Insert(IndexOf(trees, chain), height, MixHeight(height))]
    ensures Indexes(heights, trees', owned') && fresh(owned' - owned)
  {
    hide Treap.Insert, MixHeight, Holds, Indexes, Apart, Treap.Valid, Treap.Keys, IndexOf;
    hide HeightNode.Valid, HeightNode.Value, OrderedHeightIndex.Valid, OrderedHeightIndex.Value, OrderedHeightIndex.Heights;
    IndexHolds(heights, trees, owned, chain);
    SplitIndexes(heights, trees, owned, chain);
    ghost var others, rest, kept := heights - {chain}, trees - {chain}, owned - index.Nodes();
    index.Insert(height);
    HoldsNow(index);
    JoinIndexes(others, rest, kept, chain, index, index.Value());
    trees', owned' := trees[chain := index.Value()], kept + index.Nodes();
    assert others[chain := index] == heights && rest[chain := index.Value()] == trees';
  }
}
