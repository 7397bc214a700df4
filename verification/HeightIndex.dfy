/** The height index as the code keeps it: heap nodes, rotated in place. */
module HeightIndex {
  import opened Base
  import opened Treap

  /** The stable 64-bit mix that gives every height its priority. */
  function MixHeight(height: uint64): uint64 {
    var v0 := (height as bv64) + 0x9e3779b97f4a7c15;
    var v1 := (v0 ^ (v0 >> 30)) * 0xbf58476d1ce4e5b9;
    var v2 := (v1 ^ (v1 >> 27)) * 0x94d049bb133111eb;
    (v2 ^ (v2 >> 31)) as int
  }

  class HeightNode {
    var key: uint64
    var priority: uint64
    var left: HeightNode?
    var right: HeightNode?
    ghost var repr: set<HeightNode>

    ghost predicate Valid()
      reads this, repr
      ensures Valid() ==> this in repr
      decreases repr
    {
      && this in repr
      && (left != null ==> left in repr && left.repr <= repr - {this} && left.Valid())
      && (right != null ==> right in repr && right.repr <= repr - {this} && right.Valid())
      && (left != null && right != null ==> left.repr !! right.repr)
    }

    ghost function Value(): (t: Tree)
      requires Valid()
      reads this, repr
      ensures t.Node? && t.key == key && t.priority == priority
      decreases repr
    {
      Node(key, priority,
           if left == null then Nil else left.Value(),
           if right == null then Nil else right.Value())
    }

    constructor (key: uint64, priority: uint64)
      ensures Valid() && repr == {this}
      ensures Value() == Node(key, priority, Nil, Nil)
      ensures this.key == key && this.priority == priority && Detached(this)
    {
      this.key, this.priority, left, right, repr := key, priority, null, null, {this};
    }
  }

  ghost predicate ValidRoot(root: HeightNode?)
    reads root, if root == null then {} else root.repr
  {
    root != null ==> root.Valid()
  }

  ghost function RootValue(root: HeightNode?): Tree
    requires ValidRoot(root)
    reads root, if root == null then {} else root.repr
  {
    if root == null then Nil else root.Value()
  }

  method RotateHeightRight(root: HeightNode) returns (next: HeightNode)
    requires root.Valid() && root.left != null
    modifies root, root.left
    ensures next == old(root.left) && next.Valid() && next.repr == old(root.repr)
    ensures next.Value() == RotateRight(old(root.Value()))
  {
    next := root.left;
    assert next.Valid();
    ghost var all := root.repr;
    root.left := next.right;
    root.repr := {root} + (if root.left == null then {} else root.left.repr) + (if root.right == null then {} else root.right.repr);
    next.right := root;
    next.repr := all;
  }

  method RotateHeightLeft(root: HeightNode) returns (next: HeightNode)
    requires root.Valid() && root.right != null
    modifies root, root.right
    ensures next == old(root.right) && next.Valid() && next.repr == old(root.repr)
    ensures next.Value() == RotateLeft(old(root.Value()))
  {
    next := root.right;
    assert next.Valid();
    ghost var all := root.repr;
    root.right := next.left;
    root.repr := {root} + (if root.left == null then {} else root.left.repr) + (if root.right == null then {} else root.right.repr);
    next.left := root;
    next.repr := all;
  }

  ghost predicate Detached(node: HeightNode)
    reads node
  {
    node.left == null && node.right == null && node.repr == {node}
  }

  /** Recursive insertion; the returned node is the new root of the subtree. */
  method InsertHeightNode(root: HeightNode?, inserted: HeightNode) returns (r: HeightNode)
    requires ValidRoot(root) && Detached(inserted)
    requires root != null ==> inserted !in root.repr
    modifies if root == null then {} else root.repr, inserted
    ensures r.Valid() && r.repr <= (if root == null then {} else old(root.repr)) + {inserted}
    ensures r.Value() == Insert(old(RootValue(root)), old(inserted.key), old(inserted.priority))
    decreases if root == null then {} else root.repr, 1
  {
    if root == null {
      r := inserted;
    } else if inserted.key < root.key {
      r := InsertLeft(root, inserted);
    } else if inserted.key > root.key {
      r := InsertRight(root, inserted);
    } else {
      r := root;
    }
  }

  /** Hang a subtree below a node whose other subtree it does not meet. */
  method SetLeft(root: HeightNode, child: HeightNode)
    requires child.Valid() && root !in child.repr && ValidRoot(root.right)
    requires root.right != null ==> root !in root.right.repr && root.right.repr !! child.repr
    modifies root
    ensures root.Valid() && root.repr == {root} + child.repr + (if root.right == null then {} else root.right.repr)
    ensures root.left == child && root.right == old(root.right) && root.key == old(root.key) && root.priority == old(root.priority)
    ensures child.Valid() && child.Value() == old(child.Value()) && child.key == old(child.key) && child.priority == old(child.priority)
    ensures root.Value() == Node(root.key, root.priority, child.Value(), old(RootValue(root.right)))
  {
    root.left := child;
    root.repr := {root} + child.repr + (if root.right == null then {} else root.right.repr);
  }

  /** Insertion into the left subtree: the child that outranks the root is rotated above it. */
  method InsertLeft(root: HeightNode, inserted: HeightNode) returns (r: HeightNode)
    requires root.Valid() && Detached(inserted) && inserted !in root.repr
    requires inserted.key < root.key
    modifies root.repr, inserted
    ensures r.Valid() && r.repr <= old(root.repr) + {inserted}
    ensures r.Value() == Insert(old(root.Value()), old(inserted.key), old(inserted.priority))
    decreases root.repr, 0
  {
    ghost var before := root.Value();
    var child := InsertHeightNode(root.left, inserted);
    SetLeft(root, child);
    assert root.Value() == before.(left := child.Value());
    if child.priority < root.priority || (child.priority == root.priority && child.key < root.key) {
      r := RotateHeightRight(root);
    } else {
      r := root;
    }
  }

  /** Hang a subtree below a node whose other subtree it does not meet. */
  method SetRight(root: HeightNode, child: HeightNode)
    requires child.Valid() && root !in child.repr && ValidRoot(root.left)
    requires root.left != null ==> root !in root.left.repr && root.left.repr !! child.repr
    modifies root
    ensures root.Valid() && root.repr == {root} + child.repr + (if root.left == null then {} else root.left.repr)
    ensures root.right == child && root.left == old(root.left) && root.key == old(root.key) && root.priority == old(root.priority)
    ensures child.Valid() && child.Value() == old(child.Value()) && child.key == old(child.key) && child.priority == old(child.priority)
    ensures root.Value() == Node(root.key, root.priority, old(RootValue(root.left)), child.Value())
  {
    root.right := child;
    root.repr := {root} + child.repr + (if root.left == null then {} else root.left.repr);
  }

  /** Insertion into the right subtree: the child that outranks the root is rotated above it. */
  method InsertRight(root: HeightNode, inserted: HeightNode) returns (r: HeightNode)
    requires root.Valid() && Detached(inserted) && inserted !in root.repr
    requires inserted.key > root.key
    modifies root.repr, inserted
    ensures r.Valid() && r.repr <= old(root.repr) + {inserted}
    ensures r.Value() == Insert(old(root.Value()), old(inserted.key), old(inserted.priority))
    decreases root.repr, 0
  {
    ghost var before := root.Value();
    var child := InsertHeightNode(root.right, inserted);
    SetRight(root, child);
    assert root.Value() == before.(right := child.Value());
    if child.priority < root.priority || (child.priority == root.priority && child.key < root.key) {
      r := RotateHeightLeft(root);
    } else {
      r := root;
    }
  }

  class OrderedHeightIndex {
    const mix: Mix
    var root: HeightNode?

    /** The nodes of the tree. */
    ghost function Nodes(): set<HeightNode>
      reads this, root
    {
      if root == null then {} else root.repr
    }

    ghost predicate Valid()
      reads this, root, Nodes()
      ensures Valid() && root != null ==> root in Nodes()
    {
      ValidRoot(root) && Treap.Valid(mix, RootValue(root))
    }

    ghost function Value(): Tree
      requires Valid()
      reads this, root, Nodes()
    {
      RootValue(root)
    }

    /** The heights indexed so far. */
    ghost function Heights(): set<uint64>
      requires Valid()
      reads this, root, Nodes()
    {
      Keys(Value())
    }

    constructor (mix: Mix)
      ensures Valid() && Value() == Nil && this.mix == mix && root == null
    {
      this.mix, root := mix, null;
    }

    method Contains(key: uint64) returns (found: bool)
      requires Valid()
      ensures found <==> key in Heights()
      ensures found == Treap.Contains(Value(), key)
    {
      ValidSearchOrder(mix, Value());
      ContainsIsMembership(Value(), key);
      var node := root;
      while node != null
        invariant ValidRoot(node)
        invariant Treap.Contains(RootValue(node), key) == Treap.Contains(Value(), key)
        decreases if node == null then {} else node.repr
      {
        if key < node.key {
          node := node.left;
        } else if key > node.key {
          node := node.right;
        } else {
          return true;
        }
      }
      return false;
    }

    method Neighbours(key: uint64) returns (predecessor: Option<uint64>, successor: Option<uint64>)
      requires Valid()
      ensures (predecessor, successor) == NeighboursFrom(Value(), key, None, None)
      ensures key !in Heights() ==> IsPredecessor(Heights(), key, predecessor) && IsSuccessor(Heights(), key, successor)
    {
      ValidSearchOrder(mix, Value());
      if key !in Heights() {
        NeighboursExact(Value(), key);
      }
      var node := root;
      predecessor, successor := None, None;
      while node != null
        invariant ValidRoot(node)
        invariant NeighboursFrom(RootValue(node), key, predecessor, successor) == NeighboursFrom(Value(), key, None, None)
        decreases if node == null then {} else node.repr
      {
        if key < node.key {
          successor := Some(node.key);
          node := node.left;
        } else if key > node.key {
          predecessor := Some(node.key);
          node := node.right;
        } else {
          return;
        }
      }
    }

    method Insert(key: uint64)
      requires Valid()
      modifies this, Nodes()
      ensures Valid() && fresh(Nodes() - old(Nodes()))
      ensures Value() == Treap.Insert(old(Value()), key, mix(key))
      ensures Heights() == old(Heights()) + {key}
    {
      hide HeightNode.Valid, HeightNode.Value, Treap.Valid, Treap.Insert, Keys;
      InsertValid(mix, Value(), key);
      var inserted := new HeightNode(key, mix(key));
      var r := InsertHeightNode(root, inserted);
      root := r;
    }
  }
}
