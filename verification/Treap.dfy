/**
 The value of the deterministic height index: a treap whose priorities are a
 fixed mix of the height. Nothing below depends on the mixing function: `mix`
 is any function. Module HeightIndex rotates the nodes in place and is proved
 against the functions here.
 */
module Treap {
  import opened Base

  type Mix = uint64 -> uint64

  datatype Tree = Nil | Node(key: uint64, priority: uint64, left: Tree, right: Tree)

  function Keys(t: Tree): set<uint64> {
    match t
    case Nil => {}
    case Node(key, _, left, right) => Keys(left) + {key} + Keys(right)
  }

  /** The strict heap order: smaller priority first, smaller key on a tie. */
  predicate Before(mix: Mix, x: uint64, y: uint64) {
    mix(x) < mix(y) || (mix(x) == mix(y) && x < y)
  }

  /** Search order and strict heap order at every node. */
  ghost predicate Valid(mix: Mix, t: Tree) {
    match t
    case Nil => true
    case Node(key, priority, left, right) =>
      && priority == mix(key)
      && (forall k :: k in Keys(left) ==> k < key && Before(mix, key, k))
      && (forall k :: k in Keys(right) ==> key < k && Before(mix, key, k))
      && Valid(mix, left)
      && Valid(mix, right)
  }

  // ---------------------------------------------------------------------
  // Insertion
  // ---------------------------------------------------------------------

  function RotateRight(t: Tree): Tree
    requires t.Node? && t.left.Node?
  {
    var next := t.left;
    next.(right := t.(left := next.right))
  }

  function RotateLeft(t: Tree): Tree
    requires t.Node? && t.right.Node?
  {
    var next := t.right;
    next.(left := t.(right := next.left))
  }

  predicate PriorityLess(x: Tree, y: Tree)
    requires x.Node? && y.Node?
  {
    x.priority < y.priority || (x.priority == y.priority && x.key < y.key)
  }

  function Insert(t: Tree, key: uint64, priority: uint64): (r: Tree)
    ensures r.Node?
  {
    match t
    case Nil => Node(key, priority, Nil, Nil)
    case Node(_, _, left, right) =>
      if key < t.key then
        var grown := t.(left := Insert(left, key, priority));
        if PriorityLess(grown.left, grown) then RotateRight(grown) else grown
      else if key > t.key then
        var grown := t.(right := Insert(right, key, priority));
        if PriorityLess(grown.right, grown) then RotateLeft(grown) else grown
      else t
  }

  /** Rotations keep the invariant and add exactly the new key. */
  lemma {:induction false} InsertValid(mix: Mix, t: Tree, key: uint64)
    requires Valid(mix, t)
    ensures Keys(Insert(t, key, mix(key))) == Keys(t) + {key}
    ensures Valid(mix, Insert(t, key, mix(key)))
  {
    if t.Node? {
      if key < t.key {
        InsertValid(mix, t.left, key);
        InsertLeftValid(mix, t, key, Insert(t.left, key, mix(key)));
      } else if key > t.key {
        InsertValid(mix, t.right, key);
        InsertRightValid(mix, t, key, Insert(t.right, key, mix(key)));
      }
    }
  }

  /** If the new left child outranks the root it is the new key itself, so one rotation suffices. */
  lemma InsertLeftValid(mix: Mix, t: Tree, key: uint64, left: Tree)
    requires t.Node? && Valid(mix, t) && key < t.key
    requires left.Node? && Valid(mix, left) && Keys(left) == Keys(t.left) + {key}
    ensures var grown := t.(left := left);
            var r := if PriorityLess(left, grown) then RotateRight(grown) else grown;
            Valid(mix, r) && Keys(r) == Keys(t) + {key}
  {
    assert left.key in Keys(left);
    if PriorityLess(left, t.(left := left)) {
      assert left.key == key;
      RotatedRightValid(mix, t, left);
    }
  }

  lemma RotatedRightValid(mix: Mix, t: Tree, left: Tree)
    requires t.Node? && Valid(mix, t) && left.Node? && Valid(mix, left)
    requires left.key < t.key && Before(mix, left.key, t.key)
    requires Keys(left) == Keys(t.left) + {left.key}
    ensures Valid(mix, RotateRight(t.(left := left)))
    ensures Keys(RotateRight(t.(left := left))) == Keys(t) + {left.key}
  {
    var lower := t.(left := left.right);
    assert forall k :: k in Keys(left.right) ==> k in Keys(left);
    assert Valid(mix, lower);
    assert Keys(lower) == Keys(left.right) + {t.key} + Keys(t.right);
    assert RotateRight(t.(left := left)) == left.(right := lower);
  }

  lemma InsertRightValid(mix: Mix, t: Tree, key: uint64, right: Tree)
    requires t.Node? && Valid(mix, t) && key > t.key
    requires right.Node? && Valid(mix, right) && Keys(right) == Keys(t.right) + {key}
    ensures var grown := t.(right := right);
            var r := if PriorityLess(right, grown) then RotateLeft(grown) else grown;
            Valid(mix, r) && Keys(r) == Keys(t) + {key}
  {
    assert right.key in Keys(right);
    if PriorityLess(right, t.(right := right)) {
      assert right.key == key;
      RotatedLeftValid(mix, t, right);
    }
  }

  lemma RotatedLeftValid(mix: Mix, t: Tree, right: Tree)
    requires t.Node? && Valid(mix, t) && right.Node? && Valid(mix, right)
    requires right.key > t.key && Before(mix, right.key, t.key)
    requires Keys(right) == Keys(t.right) + {right.key}
    ensures Valid(mix, RotateLeft(t.(right := right)))
    ensures Keys(RotateLeft(t.(right := right))) == Keys(t) + {right.key}
  {
    var lower := t.(right := right.left);
    assert forall k :: k in Keys(right.left) ==> k in Keys(right);
    assert Valid(mix, lower);
    assert Keys(lower) == Keys(t.left) + {t.key} + Keys(right.left);
    assert RotateLeft(t.(right := right)) == right.(left := lower);
  }

  // ---------------------------------------------------------------------
  // Canonicity
  // ---------------------------------------------------------------------

  /** The tree is a function of its key set. */
  lemma {:induction false} Canonical(mix: Mix, s: Tree, t: Tree)
    requires Valid(mix, s) && Valid(mix, t)
    requires Keys(s) == Keys(t)
    ensures s == t
    decreases s
  {
    assert s.Node? ==> s.key in Keys(t);
    assert t.Node? ==> t.key in Keys(s);
    if s.Node? {
      assert s.key == t.key;
      assert Keys(s.left) == set k | k in Keys(s) && k < s.key;
      assert Keys(t.left) == set k | k in Keys(t) && k < t.key;
      assert Keys(s.right) == set k | k in Keys(s) && k > s.key;
      assert Keys(t.right) == set k | k in Keys(t) && k > t.key;
      Canonical(mix, s.left, t.left);
      Canonical(mix, s.right, t.right);
    }
  }

  function InsertAll(mix: Mix, keys: seq<uint64>): Tree {
    if keys == [] then Nil
    else
      var last := keys[|keys| - 1];
      Insert(InsertAll(mix, keys[..|keys| - 1]), last, mix(last))
  }

  lemma {:induction false} InsertAllValid(mix: Mix, keys: seq<uint64>)
    ensures Valid(mix, InsertAll(mix, keys))
    ensures Keys(InsertAll(mix, keys)) == set k | k in keys
  {
    if keys != [] {
      var rest, last := keys[..|keys| - 1], keys[|keys| - 1];
      InsertAllValid(mix, rest);
      InsertValid(mix, InsertAll(mix, rest), last);
      assert keys == rest + [last];
    }
  }

  /** For any two insertion orders, with any repetitions, equal key sets give equal trees. */
  lemma InsertionOrderIrrelevant(mix: Mix, keys1: seq<uint64>, keys2: seq<uint64>)
    requires (set k | k in keys1) == (set k | k in keys2)
    ensures InsertAll(mix, keys1) == InsertAll(mix, keys2)
  {
    InsertAllValid(mix, keys1);
    InsertAllValid(mix, keys2);
    Canonical(mix, InsertAll(mix, keys1), InsertAll(mix, keys2));
  }

  // ---------------------------------------------------------------------
  // Queries
  // ---------------------------------------------------------------------

  ghost predicate SearchOrder(t: Tree) {
    t.Node? ==>
      && (forall k :: k in Keys(t.left) ==> k < t.key)
      && (forall k :: k in Keys(t.right) ==> t.key < k)
      && SearchOrder(t.left) && SearchOrder(t.right)
  }

  lemma ValidSearchOrder(mix: Mix, t: Tree)
    requires Valid(mix, t)
    ensures SearchOrder(t)
  {
  }

  predicate Contains(t: Tree, key: uint64) {
    match t
    case Nil => false
    case Node(k, _, left, right) =>
      if key < k then Contains(left, key) else if key > k then Contains(right, key) else true
  }

  lemma {:induction false} ContainsIsMembership(t: Tree, key: uint64)
    requires SearchOrder(t)
    ensures Contains(t, key) <==> key in Keys(t)
  {
    if t.Node? {
      if key < t.key {
        ContainsIsMembership(t.left, key);
      } else if key > t.key {
        ContainsIsMembership(t.right, key);
      }
    }
  }

  /** `p` is the greatest member of `keys` below `key`, and None means there is no such member. */
  ghost predicate IsPredecessor(keys: set<uint64>, key: uint64, p: Option<uint64>) {
    match p
    case None => forall k :: k in keys ==> key <= k
    case Some(v) => v in keys && v < key && forall k :: k in keys && k < key ==> k <= v
  }

  ghost predicate IsSuccessor(keys: set<uint64>, key: uint64, s: Option<uint64>) {
    match s
    case None => forall k :: k in keys ==> k <= key
    case Some(v) => v in keys && key < v && forall k :: k in keys && key < k ==> v <= k
  }

  /** The bounds collected on the way down to `key`. */
  function NeighboursFrom(t: Tree, key: uint64, p: Option<uint64>, s: Option<uint64>): (r: (Option<uint64>, Option<uint64>))
    ensures (p.Some? ==> p.value < key) ==> r.0.Some? ==> r.0.value < key
    ensures (s.Some? ==> key < s.value) ==> r.1.Some? ==> key < r.1.value
  {
    match t
    case Nil => (p, s)
    case Node(k, _, left, right) =>
      if key < k then NeighboursFrom(left, key, p, Some(k))
      else if key > k then NeighboursFrom(right, key, Some(k), s)
      else (p, s)
  }

  lemma {:induction false} NeighboursFromExact(t: Tree, key: uint64, p: Option<uint64>, s: Option<uint64>, all: set<uint64>)
    requires SearchOrder(t) && key !in Keys(t) && Keys(t) <= all
    requires p.Some? ==> p.value in all && p.value < key && forall k :: k in Keys(t) ==> p.value < k
    requires s.Some? ==> s.value in all && key < s.value && forall k :: k in Keys(t) ==> k < s.value
    requires forall k :: k in all && k !in Keys(t) && k <= key ==> p.Some? && k <= p.value
    requires forall k :: k in all && k !in Keys(t) && k >= key ==> s.Some? && s.value <= k
    ensures IsPredecessor(all, key, NeighboursFrom(t, key, p, s).0)
    ensures IsSuccessor(all, key, NeighboursFrom(t, key, p, s).1)
  {
    if t.Node? {
      if key < t.key {
        NeighboursFromExact(t.left, key, p, Some(t.key), all);
      } else {
        NeighboursFromExact(t.right, key, Some(t.key), s, all);
      }
    }
  }

  /** The neighbours of an absent key are its exact predecessor and successor. */
  lemma NeighboursExact(t: Tree, key: uint64)
    requires SearchOrder(t) && key !in Keys(t)
    ensures IsPredecessor(Keys(t), key, NeighboursFrom(t, key, None, None).0)
    ensures IsSuccessor(Keys(t), key, NeighboursFrom(t, key, None, None).1)
  {
    NeighboursFromExact(t, key, None, None, Keys(t));
  }
}
