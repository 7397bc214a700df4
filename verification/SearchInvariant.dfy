/**
 The label-setting invariant of the bounded search and the steps that keep it:
 dropping a stale queue item, settling the least unsettled block, and relaxing
 one of its edges, in any order.
 */
module SearchInvariant {
  import opened Base
  import opened ReplayGraph
  import opened SearchSpec

  datatype Item = Item(key: BlockKey, cost: uint64)

  /** Tentative costs, predecessors, queued items and the blocks already settled. */
  datatype Labels = Labels(dist: map<BlockKey, uint64>, pred: map<BlockKey, BlockKey>, queue: set<Item>, settled: set<BlockKey>)

  function InitialLabels(q: Query): Labels {
    Labels(map[q.start := 0], map[], {Item(q.start, 0)}, {})
  }

  // ---------------------------------------------------------------------
  // The invariant
  // ---------------------------------------------------------------------

  ghost predicate Labelled(q: Query, s: Labels) {
    && q.start in s.dist && s.dist[q.start] == 0
    && s.pred.Keys == s.dist.Keys - {q.start}
    && s.settled <= s.dist.Keys && q.goal !in s.settled
    && (forall x :: x in s.settled ==> s.dist[x] <= q.cutoff)
    && (forall v :: v in s.pred ==>
          && NodeOK(q, v) && s.pred[v] in s.settled && NodeOK(q, s.pred[v]) && HasEdge(q.adj, s.pred[v], v)
          && s.dist[v] == s.dist[s.pred[v]] + EdgeOf(q.adj, s.pred[v], v).value.weight)
  }

  ghost predicate Queued(s: Labels) {
    && (forall v :: v in s.dist && v !in s.settled ==> Item(v, s.dist[v]) in s.queue)
    && (forall item :: item in s.queue ==>
          && item.key in s.dist && s.dist[item.key] <= item.cost
          && (item.key in s.settled ==> s.dist[item.key] < item.cost))
  }

  ghost predicate Ordered(s: Labels)
    requires s.settled <= s.dist.Keys
  {
    forall x, v :: x in s.settled && v in s.dist && v !in s.settled ==> Precedes(s.dist[x], x, s.dist[v], v)
  }

  /** The edge from `x` to `v` has been relaxed. Only edges from the block `u`
      under expansion to blocks in `remaining` are still waiting. */
  predicate Waiting(u: BlockKey, remaining: set<BlockKey>, x: BlockKey, v: BlockKey) {
    x == u && v in remaining
  }

  ghost predicate RelaxedEdge(q: Query, s: Labels, x: BlockKey, v: BlockKey)
    requires x in s.dist && HasEdge(q.adj, x, v)
  {
    var candidate := s.dist[x] + EdgeOf(q.adj, x, v).value.weight;
    && candidate <= MAX_UINT64
    && (candidate <= q.cutoff && NodeOK(q, v) ==> v in s.dist && s.dist[v] <= candidate)
  }

  ghost predicate Relaxed(q: Query, s: Labels, u: BlockKey, remaining: set<BlockKey>)
    requires s.settled <= s.dist.Keys
  {
    forall x, v :: x in s.settled && NodeOK(q, x) && HasEdge(q.adj, x, v) && !Waiting(u, remaining, x, v) ==> RelaxedEdge(q, s, x, v)
  }

  /** `x` is not an earlier tight predecessor of `v` than the recorded one. */
  ghost predicate NotEarlier(q: Query, s: Labels, x: BlockKey, v: BlockKey)
    requires x in s.dist && HasEdge(q.adj, x, v) && v in s.pred && v in s.dist && s.pred[v] in s.dist
  {
    s.dist[x] + EdgeOf(q.adj, x, v).value.weight == s.dist[v] <= q.cutoff ==>
      x == s.pred[v] || Precedes(s.dist[s.pred[v]], s.pred[v], s.dist[x], x)
  }

  ghost predicate LeastPredecessors(q: Query, s: Labels, u: BlockKey, remaining: set<BlockKey>)
    requires Labelled(q, s)
  {
    forall x, v :: x in s.settled && v in s.pred && HasEdge(q.adj, x, v) && !Waiting(u, remaining, x, v) ==> NotEarlier(q, s, x, v)
  }

  ghost predicate Invariant(q: Query, s: Labels, u: BlockKey, remaining: set<BlockKey>) {
    && Labelled(q, s) && Queued(s) && Ordered(s)
    && Relaxed(q, s, u, remaining) && LeastPredecessors(q, s, u, remaining)
  }

  /** `u` was settled last. */
  ghost predicate Latest(s: Labels, u: BlockKey)
    requires s.settled <= s.dist.Keys
  {
    u in s.settled && forall x :: x in s.settled ==> x == u || Precedes(s.dist[x], x, s.dist[u], u)
  }

  /** `item` may be popped: no queued item precedes it. */
  ghost predicate Least(queue: set<Item>, item: Item) {
    item in queue && forall other :: other in queue ==> !Precedes(other.cost, other.key, item.cost, item.key)
  }

  lemma InitialInvariant(q: Query, u: BlockKey)
    ensures Invariant(q, InitialLabels(q), u, {})
  {
  }

  // ---------------------------------------------------------------------
  // Pops
  // ---------------------------------------------------------------------

  /** An item whose cost is no longer the label is dropped. */
  lemma DropStale(q: Query, s: Labels, u: BlockKey, item: Item)
    requires Invariant(q, s, u, {}) && item in s.queue && s.dist[item.key] != item.cost
    ensures Invariant(q, s.(queue := s.queue - {item}), u, {})
  {
    hide Precedes, RelaxedEdge, NotEarlier, HasEdge, EdgeOf, NodeOK;
    var s' := s.(queue := s.queue - {item});
    assert Relaxed(q, s', u, {}) by {
      forall x, v | x in s'.settled && NodeOK(q, x) && HasEdge(q.adj, x, v) ensures RelaxedEdge(q, s', x, v) {
        assert RelaxedEdge(q, s, x, v) by { assert !Waiting(u, {}, x, v); }
        SameRelaxed(q, s, s', x, v);
      }
    }
    assert LeastPredecessors(q, s', u, {}) by {
      forall x, v | x in s'.settled && v in s'.pred && HasEdge(q.adj, x, v) ensures NotEarlier(q, s', x, v) {
        assert NotEarlier(q, s, x, v) by { assert !Waiting(u, {}, x, v); }
        SameNotEarlier(q, s, s', x, v);
      }
    }
  }

  lemma SameRelaxed(q: Query, s: Labels, s': Labels, x: BlockKey, v: BlockKey)
    requires s.dist == s'.dist && x in s.dist && HasEdge(q.adj, x, v) && RelaxedEdge(q, s, x, v)
    ensures RelaxedEdge(q, s', x, v)
  {
  }

  lemma SameNotEarlier(q: Query, s: Labels, s': Labels, x: BlockKey, v: BlockKey)
    requires s.dist == s'.dist && s.pred == s'.pred
    requires x in s.dist && HasEdge(q.adj, x, v) && v in s.pred && v in s.dist && s.pred[v] in s.dist && NotEarlier(q, s, x, v)
    ensures NotEarlier(q, s', x, v)
  {
  }

  /** The popped item of a current label belongs to the least unsettled block. */
  lemma PoppedIsLeast(q: Query, s: Labels, u: BlockKey, item: Item)
    requires Invariant(q, s, u, {}) && Least(s.queue, item) && s.dist[item.key] == item.cost
    ensures item.key !in s.settled
    ensures forall v :: v in s.dist && v !in s.settled ==> v == item.key || Precedes(item.cost, item.key, s.dist[v], v)
  {
    hide Precedes, RelaxedEdge, NotEarlier, HasEdge, EdgeOf, NodeOK;
    forall v | v in s.dist && v !in s.settled && v != item.key ensures Precedes(item.cost, item.key, s.dist[v], v) {
      assert Item(v, s.dist[v]) in s.queue;
      PrecedesTotal(s.dist[v], v, item.cost, item.key);
    }
  }

  function Settle(s: Labels, item: Item): Labels {
    s.(queue := s.queue - {item}, settled := s.settled + {item.key})
  }

  /** Settling the least block leaves all its edges waiting, or none if it fails the filter. */
  lemma SettleLeast(q: Query, s: Labels, u: BlockKey, item: Item, remaining: set<BlockKey>)
    requires PositiveWeights(q.adj)
    requires Invariant(q, s, u, {}) && Least(s.queue, item) && s.dist[item.key] == item.cost
    requires item.key != q.goal && item.cost <= q.cutoff
    requires if NodeOK(q, item.key) then forall v :: HasEdge(q.adj, item.key, v) ==> v in remaining else remaining == {} && item.key == q.start
    ensures Invariant(q, Settle(s, item), item.key, remaining)
    ensures Latest(Settle(s, item), item.key)
  {
    hide Precedes, RelaxedEdge, NotEarlier, EdgeOf, HasEdge, Relaxed, LeastPredecessors;
    PoppedIsLeast(q, s, u, item);
    SettleQueued(s, item);
    SettleRelaxed(q, s, u, item, remaining);
    SettleLeastPredecessors(q, s, u, item, remaining);
  }

  lemma SettleRelaxed(q: Query, s: Labels, u: BlockKey, item: Item, remaining: set<BlockKey>)
    requires s.settled <= s.dist.Keys && item.key in s.dist && Relaxed(q, s, u, {})
    requires NodeOK(q, item.key) ==> forall v :: HasEdge(q.adj, item.key, v) ==> v in remaining
    ensures Relaxed(q, Settle(s, item), item.key, remaining)
  {
    hide RelaxedEdge, EdgeOf, HasEdge, NodeOK;
    var s' := Settle(s, item);
    forall x, v | x in s'.settled && NodeOK(q, x) && HasEdge(q.adj, x, v) && !Waiting(item.key, remaining, x, v)
      ensures RelaxedEdge(q, s', x, v)
    {
      assert x in s.settled;
      assert RelaxedEdge(q, s, x, v) by { assert !Waiting(u, {}, x, v); }
      SameRelaxed(q, s, s', x, v);
    }
  }

  lemma SettleLeastPredecessors(q: Query, s: Labels, u: BlockKey, item: Item, remaining: set<BlockKey>)
    requires PositiveWeights(q.adj) && Labelled(q, s) && LeastPredecessors(q, s, u, {}) && item.key in s.dist
    requires Labelled(q, Settle(s, item))
    requires if NodeOK(q, item.key) then forall v :: HasEdge(q.adj, item.key, v) ==> v in remaining else item.key == q.start
    ensures LeastPredecessors(q, Settle(s, item), item.key, remaining)
  {
    hide Precedes, NotEarlier, EdgeOf, HasEdge, PositiveWeights, NodeOK;
    var s' := Settle(s, item);
    forall x, v | x in s'.settled && v in s'.pred && HasEdge(q.adj, x, v) && !Waiting(item.key, remaining, x, v)
      ensures NotEarlier(q, s', x, v)
    {
      if x == item.key {
        assert !NodeOK(q, q.start);
        NoPredecessors(q, s);
      } else {
        assert NotEarlier(q, s, x, v) by { assert !Waiting(u, {}, x, v); }
        SameNotEarlier(q, s, s', x, v);
      }
    }
  }

  lemma SettleQueued(s: Labels, item: Item)
    requires Queued(s) && item in s.queue && s.dist[item.key] == item.cost
    ensures Queued(Settle(s, item))
  {
  }

  /** If the start fails the filter nothing else is ever labelled. */
  lemma {:induction false} NoPredecessors(q: Query, s: Labels)
    requires PositiveWeights(q.adj) && Labelled(q, s) && !NodeOK(q, q.start)
    ensures s.pred == map[]
  {
    if s.pred != map[] {
      var v :| v in s.pred;
      ChainToStart(q, s, v);
    }
  }

  lemma {:induction false} ChainToStart(q: Query, s: Labels, v: BlockKey)
    requires PositiveWeights(q.adj) && Labelled(q, s) && v in s.pred
    ensures NodeOK(q, q.start)
    decreases s.dist[v]
  {
    if s.pred[v] != q.start {
      assert HasEdge(q.adj, s.pred[v], v);
      ChainToStart(q, s, s.pred[v]);
    }
  }

  // ---------------------------------------------------------------------
  // Relaxations
  // ---------------------------------------------------------------------

  function Candidate(q: Query, s: Labels, u: BlockKey, v: BlockKey): nat
    requires u in s.dist && HasEdge(q.adj, u, v)
  {
    s.dist[u] + EdgeOf(q.adj, u, v).value.weight
  }

  /** The relaxation test: the candidate is admissible and better than the label. */
  predicate Improves(q: Query, s: Labels, u: BlockKey, v: BlockKey)
    requires u in s.dist && HasEdge(q.adj, u, v)
  {
    var candidate := Candidate(q, s, u, v);
    candidate <= q.cutoff && NodeOK(q, v) && (v in s.dist ==> candidate < s.dist[v])
  }

  function Relabel(q: Query, s: Labels, u: BlockKey, v: BlockKey): Labels
    requires u in s.dist && HasEdge(q.adj, u, v) && Candidate(q, s, u, v) <= MAX_UINT64
  {
    var candidate := Candidate(q, s, u, v);
    Labels(s.dist[v := candidate], s.pred[v := u], s.queue + {Item(v, candidate)}, s.settled)
  }

  /** Skipping an edge that does not improve the label. */
  lemma SkipEdge(q: Query, s: Labels, u: BlockKey, remaining: set<BlockKey>, v: BlockKey)
    requires Invariant(q, s, u, remaining) && Latest(s, u) && NodeOK(q, u)
    requires HasEdge(q.adj, u, v) && Candidate(q, s, u, v) <= MAX_UINT64 && !Improves(q, s, u, v)
    ensures Invariant(q, s, u, remaining - {v})
  {
    assert RelaxedEdge(q, s, u, v);
    assert v in s.pred ==> NotEarlier(q, s, u, v);
    hide Precedes, RelaxedEdge, NotEarlier, EdgeOf, HasEdge;
    assert Relaxed(q, s, u, remaining - {v}) by {
      forall x, y | x in s.settled && NodeOK(q, x) && HasEdge(q.adj, x, y) && !Waiting(u, remaining - {v}, x, y)
        ensures RelaxedEdge(q, s, x, y)
      {
        assert !Waiting(u, remaining, x, y) || (x == u && y == v);
      }
    }
    assert LeastPredecessors(q, s, u, remaining - {v}) by {
      forall x, y | x in s.settled && y in s.pred && HasEdge(q.adj, x, y) && !Waiting(u, remaining - {v}, x, y)
        ensures NotEarlier(q, s, x, y)
      {
        assert !Waiting(u, remaining, x, y) || (x == u && y == v);
      }
    }
  }

  /** Only unsettled blocks other than the start are ever relabelled. */
  lemma ImprovedIsUnsettled(q: Query, s: Labels, u: BlockKey, remaining: set<BlockKey>, v: BlockKey)
    requires PositiveWeights(q.adj)
    requires Invariant(q, s, u, remaining) && Latest(s, u) && HasEdge(q.adj, u, v) && Improves(q, s, u, v)
    ensures v !in s.settled && v != q.start && v != u
    ensures forall x :: x in s.settled ==> s.dist[x] < Candidate(q, s, u, v)
  {
    assert EdgeOf(q.adj, u, v).value.weight > 0;
    forall x | x in s.settled ensures s.dist[x] <= s.dist[u] {
      assert x == u || Precedes(s.dist[x], x, s.dist[u], u);
    }
  }

  lemma RelabelKeepsLabels(q: Query, s: Labels, u: BlockKey, remaining: set<BlockKey>, v: BlockKey)
    requires PositiveWeights(q.adj)
    requires Invariant(q, s, u, remaining) && Latest(s, u) && NodeOK(q, u)
    requires HasEdge(q.adj, u, v) && Candidate(q, s, u, v) <= MAX_UINT64 && Improves(q, s, u, v)
    ensures Labelled(q, Relabel(q, s, u, v))
  {
    hide Relaxed, LeastPredecessors, Queued, Ordered, Precedes, PositiveWeights, HasEdge, EdgeOf;
    ImprovedIsUnsettled(q, s, u, remaining, v);
    LowerKeepsLabelled(q, s, u, v);
  }

  /** An admissible label through a settled block keeps the labels correct. */
  lemma LowerKeepsLabelled(q: Query, s: Labels, u: BlockKey, v: BlockKey)
    requires Labelled(q, s) && u in s.settled && NodeOK(q, u) && HasEdge(q.adj, u, v) && v !in s.settled && v != q.start
    requires Candidate(q, s, u, v) <= MAX_UINT64 && NodeOK(q, v)
    ensures Labelled(q, Relabel(q, s, u, v))
  {
    hide HasEdge, EdgeOf, NodeOK;
    var s' := Relabel(q, s, u, v);
    forall w | w in s'.pred && w != v ensures w in s.pred && s.pred[w] in s.settled && s'.pred[w] == s.pred[w] {
    }
  }

  /** A smaller label for an unsettled block keeps the queue's agreement with the labels. */
  lemma LowerKeepsQueued(s: Labels, s': Labels, v: BlockKey, candidate: uint64)
    requires Queued(s) && v !in s.settled && (v in s.dist ==> candidate < s.dist[v])
    requires s'.dist == s.dist[v := candidate] && s'.queue == s.queue + {Item(v, candidate)} && s'.settled == s.settled
    ensures Queued(s')
  {
  }

  /** A label above every settled one keeps settled blocks first. */
  lemma LowerKeepsOrdered(s: Labels, s': Labels, v: BlockKey, candidate: uint64)
    requires s.settled <= s.dist.Keys && Ordered(s) && v !in s.settled && forall x :: x in s.settled ==> s.dist[x] < candidate
    requires s'.dist == s.dist[v := candidate] && s'.settled == s.settled
    ensures s'.settled <= s'.dist.Keys && Ordered(s')
  {
    hide KeyLess;
  }

  lemma LowerKeepsLatest(s: Labels, s': Labels, u: BlockKey, v: BlockKey, candidate: uint64)
    requires s.settled <= s.dist.Keys && Latest(s, u) && v !in s.settled
    requires s'.dist == s.dist[v := candidate] && s'.settled == s.settled
    ensures s'.settled <= s'.dist.Keys && Latest(s', u)
  {
    hide Precedes;
  }

  lemma RelabelKeepsQueue(q: Query, s: Labels, u: BlockKey, remaining: set<BlockKey>, v: BlockKey)
    requires PositiveWeights(q.adj)
    requires Invariant(q, s, u, remaining) && Latest(s, u) && NodeOK(q, u)
    requires HasEdge(q.adj, u, v) && Candidate(q, s, u, v) <= MAX_UINT64 && Improves(q, s, u, v)
    requires Labelled(q, Relabel(q, s, u, v))
    ensures var s' := Relabel(q, s, u, v); Queued(s') && Ordered(s') && Latest(s', u)
  {
    hide Relaxed, LeastPredecessors, HasEdge, EdgeOf, Precedes, Queued, Ordered, PositiveWeights;
    ImprovedIsUnsettled(q, s, u, remaining, v);
    var s', candidate := Relabel(q, s, u, v), Candidate(q, s, u, v);
    LowerKeepsQueued(s, s', v, candidate);
    LowerKeepsOrdered(s, s', v, candidate);
    LowerKeepsLatest(s, s', u, v, candidate);
  }

  lemma RelabelKeepsRelaxed(q: Query, s: Labels, u: BlockKey, remaining: set<BlockKey>, v: BlockKey)
    requires PositiveWeights(q.adj)
    requires Invariant(q, s, u, remaining) && Latest(s, u) && NodeOK(q, u)
    requires HasEdge(q.adj, u, v) && Candidate(q, s, u, v) <= MAX_UINT64 && Improves(q, s, u, v)
    ensures var s' := Relabel(q, s, u, v); s'.settled <= s'.dist.Keys && Relaxed(q, s', u, remaining - {v})
  {
    ImprovedIsUnsettled(q, s, u, remaining, v);
    hide LeastPredecessors, Queued, Ordered, Precedes;
    var s' := Relabel(q, s, u, v);
    forall x, y | x in s'.settled && NodeOK(q, x) && HasEdge(q.adj, x, y) && !Waiting(u, remaining - {v}, x, y)
      ensures RelaxedEdge(q, s', x, y)
    {
      if x != u || y != v {
        assert !Waiting(u, remaining, x, y);
        assert RelaxedEdge(q, s, x, y);
      }
    }
  }

  lemma RelabelKeepsLeast(q: Query, s: Labels, u: BlockKey, remaining: set<BlockKey>, v: BlockKey)
    requires PositiveWeights(q.adj)
    requires Invariant(q, s, u, remaining) && Latest(s, u) && NodeOK(q, u)
    requires HasEdge(q.adj, u, v) && Candidate(q, s, u, v) <= MAX_UINT64 && Improves(q, s, u, v)
    requires Labelled(q, Relabel(q, s, u, v))
    ensures LeastPredecessors(q, Relabel(q, s, u, v), u, remaining - {v})
  {
    hide Queued, Ordered, Precedes, PositiveWeights, HasEdge, EdgeOf, NotEarlier;
    ImprovedIsUnsettled(q, s, u, remaining, v);
    var s' := Relabel(q, s, u, v);
    forall x, y | x in s'.settled && y in s'.pred && HasEdge(q.adj, x, y) && !Waiting(u, remaining - {v}, x, y)
      ensures NotEarlier(q, s', x, y)
    {
      if y != v {
        assert !Waiting(u, remaining, x, y);
        assert NotEarlier(q, s, x, y);
        OtherNotEarlier(q, s, u, v, x, y);
      } else {
        if x != u {
          assert !Waiting(u, remaining, x, y);
          SettledIsOK(q, s, x, u);
          assert RelaxedEdge(q, s, x, y);
        }
        ImprovedNotEarlier(q, s, u, v, x);
      }
    }
  }

  /** Other blocks' recorded predecessors stay least. */
  lemma OtherNotEarlier(q: Query, s: Labels, u: BlockKey, v: BlockKey, x: BlockKey, y: BlockKey)
    requires Labelled(q, s) && u in s.settled && HasEdge(q.adj, u, v) && v !in s.settled && Candidate(q, s, u, v) <= MAX_UINT64
    requires x in s.settled && y in s.pred && y != v && HasEdge(q.adj, x, y) && NotEarlier(q, s, x, y)
    ensures NotEarlier(q, Relabel(q, s, u, v), x, y)
  {
    hide HasEdge, EdgeOf, NodeOK, Precedes;
  }

  /** No other settled block reaches an improved label. */
  lemma ImprovedNotEarlier(q: Query, s: Labels, u: BlockKey, v: BlockKey, x: BlockKey)
    requires Labelled(q, s) && u in s.settled && HasEdge(q.adj, u, v) && v !in s.settled && Candidate(q, s, u, v) <= MAX_UINT64
    requires Improves(q, s, u, v) && x in s.settled && HasEdge(q.adj, x, v) && (x != u ==> RelaxedEdge(q, s, x, v))
    ensures NotEarlier(q, Relabel(q, s, u, v), x, v)
  {
    hide HasEdge, EdgeOf, Precedes;
  }

  /** Once some block that passes the filter is settled, so does every settled block. */
  lemma SettledIsOK(q: Query, s: Labels, x: BlockKey, u: BlockKey)
    requires PositiveWeights(q.adj) && Labelled(q, s) && x in s.settled && u in s.settled && NodeOK(q, u)
    ensures NodeOK(q, x)
  {
    if x == q.start && u != q.start {
      ChainToStart(q, s, u);
    }
  }

  /** Relabelling through an improving edge. */
  lemma RelabelEdge(q: Query, s: Labels, u: BlockKey, remaining: set<BlockKey>, v: BlockKey)
    requires PositiveWeights(q.adj)
    requires Invariant(q, s, u, remaining) && Latest(s, u) && NodeOK(q, u)
    requires HasEdge(q.adj, u, v) && Candidate(q, s, u, v) <= MAX_UINT64 && Improves(q, s, u, v)
    ensures Invariant(q, Relabel(q, s, u, v), u, remaining - {v})
    ensures Latest(Relabel(q, s, u, v), u)
    ensures Item(v, Candidate(q, s, u, v)) !in s.queue
  {
    RelabelKeepsLabels(q, s, u, remaining, v);
    RelabelKeepsQueue(q, s, u, remaining, v);
    RelabelKeepsRelaxed(q, s, u, remaining, v);
    RelabelKeepsLeast(q, s, u, remaining, v);
  }

  // ---------------------------------------------------------------------
  // What the labels mean
  // ---------------------------------------------------------------------

  /** Every label is the weight of a filtered walk. */
  lemma {:induction false} LabelWalk(q: Query, s: Labels, v: BlockKey) returns (w: seq<BlockKey>)
    requires PositiveWeights(q.adj) && Labelled(q, s) && v in s.dist && NodeOK(q, v)
    ensures Filtered(q, w, v) && Weight(q.adj, w) == s.dist[v]
    decreases s.dist[v]
  {
    if v == q.start {
      w := [v];
    } else {
      var u := s.pred[v];
      assert HasEdge(q.adj, u, v);
      var front := LabelWalk(q, s, u);
      WalkSnoc(q.adj, front, v);
      w := front + [v];
    }
  }

  /** `z` is an unsettled block whose label is below `weight`, or `x` itself at most `weight`. */
  ghost predicate Outstanding(s: Labels, z: BlockKey, x: BlockKey, weight: nat) {
    z in s.dist && z !in s.settled && (s.dist[z] < weight || (z == x && s.dist[z] <= weight))
  }

  /** An admissible walk ends in a settled block, or some unsettled label undercuts it. */
  lemma {:induction false} WalkCovered(q: Query, s: Labels, u: BlockKey, w: seq<BlockKey>, x: BlockKey)
    requires PositiveWeights(q.adj) && Invariant(q, s, u, {})
    requires Filtered(q, w, x) && Weight(q.adj, w) <= q.cutoff
    ensures || (x in s.settled && s.dist[x] <= Weight(q.adj, w))
            || exists z :: Outstanding(s, z, x, Weight(q.adj, w))
    decreases |w|
  {
    hide Precedes, LeastPredecessors, Queued, Ordered;
    if |w| == 1 {
      if q.start !in s.settled {
        assert Outstanding(s, q.start, x, 0);
      }
    } else {
      var front, y := w[..|w| - 1], w[|w| - 2];
      assert HasEdge(q.adj, w[|w| - 2], w[|w| - 1]);
      assert IsWalk(q.adj, front) && Filtered(q, front, y);
      WalkCovered(q, s, u, front, y);
      if z :| Outstanding(s, z, y, Weight(q.adj, front)) {
        assert Outstanding(s, z, x, Weight(q.adj, w));
      } else {
        assert !Waiting(u, {}, y, x);
        assert NodeOK(q, w[|w| - 2]) && NodeOK(q, w[|w| - 1]);
        assert RelaxedEdge(q, s, y, x);
        if x !in s.settled {
          assert Outstanding(s, x, x, Weight(q.adj, w));
        }
      }
    }
  }

  lemma SettledIsShortest(q: Query, s: Labels, u: BlockKey, x: BlockKey)
    requires PositiveWeights(q.adj) && Invariant(q, s, u, {}) && x in s.settled && NodeOK(q, x)
    ensures Shortest(q, x, s.dist[x])
  {
    var walk := LabelWalk(q, s, x);
    hide Relaxed, LeastPredecessors, Queued, Weight, Filtered;
    forall w | Filtered(q, w, x) ensures s.dist[x] <= Weight(q.adj, w) {
      if Weight(q.adj, w) <= q.cutoff {
        WalkCovered(q, s, u, w, x);
        if z :| Outstanding(s, z, x, Weight(q.adj, w)) {
          assert Precedes(s.dist[x], x, s.dist[z], z);
        }
      }
    }
  }

  /** The label of a least unsettled block is exact too, and it comes before the goal. */
  lemma PoppedIsShortest(q: Query, s: Labels, u: BlockKey, item: Item)
    requires PositiveWeights(q.adj) && Invariant(q, s, u, {})
    requires Least(s.queue, item) && s.dist[item.key] == item.cost <= q.cutoff && NodeOK(q, item.key)
    ensures Shortest(q, item.key, item.cost)
    ensures item.key != q.goal ==> forall dg :: Shortest(q, q.goal, dg) ==> Precedes(item.cost, item.key, dg, q.goal)
  {
    var walk := LabelWalk(q, s, item.key);
    PoppedIsLeast(q, s, u, item);
    hide Relaxed, LeastPredecessors, Queued, Weight, Filtered, Ordered;
    forall w | Filtered(q, w, item.key) ensures item.cost <= Weight(q.adj, w) {
      if Weight(q.adj, w) <= q.cutoff {
        WalkCovered(q, s, u, w, item.key);
        var z :| Outstanding(s, z, item.key, Weight(q.adj, w));
        assert z == item.key || Precedes(item.cost, item.key, s.dist[z], z);
      }
    }
    if item.key != q.goal {
      forall dg | Shortest(q, q.goal, dg) ensures Precedes(item.cost, item.key, dg, q.goal) {
        var w :| Filtered(q, w, q.goal) && Weight(q.adj, w) == dg;
        WalkCovered(q, s, u, w, q.goal);
        var z :| Outstanding(s, z, q.goal, dg);
        assert z == item.key || Precedes(item.cost, item.key, s.dist[z], z);
      }
    }
  }

  /** Anything with a shortest walk that no unsettled label undercuts is settled at its distance. */
  lemma SettledIfCheaper(q: Query, s: Labels, u: BlockKey, x: BlockKey, dx: nat)
    requires PositiveWeights(q.adj) && Invariant(q, s, u, {}) && Shortest(q, x, dx)
    requires forall z :: !Outstanding(s, z, x, dx)
    ensures x in s.settled && NodeOK(q, x) && s.dist[x] == dx
  {
    var w :| Filtered(q, w, x) && Weight(q.adj, w) == dx;
    WalkCovered(q, s, u, w, x);
    ShortestIsOK(q, x, dx);
    SettledIsShortest(q, s, u, x);
    ShortestUnique(q, x, dx, s.dist[x]);
  }

  /** Under the same condition, expanding it met no overflow. */
  lemma NoOverflowIfSettled(q: Query, s: Labels, u: BlockKey, x: BlockKey, v: BlockKey, dx: nat)
    requires PositiveWeights(q.adj) && Invariant(q, s, u, {})
    requires forall z :: !Outstanding(s, z, x, dx)
    ensures !OverflowMet(q, x, v, dx)
  {
    if OverflowMet(q, x, v, dx) {
      SettledIfCheaper(q, s, u, x, dx);
    }
  }

  // ---------------------------------------------------------------------
  // The three ways to end
  // ---------------------------------------------------------------------

  /** Nothing is left, or everything left is beyond the cutoff. */
  lemma NotFoundAnswers(q: Query, s: Labels, u: BlockKey)
    requires PositiveWeights(q.adj) && Invariant(q, s, u, {})
    requires forall z :: z in s.dist && z !in s.settled ==> s.dist[z] > q.cutoff
    ensures Answers(q, NotFound)
  {
    forall x, v, d: nat ensures !OverflowMet(q, x, v, d) {
      if d <= q.cutoff {
        NoOverflowIfSettled(q, s, u, x, v, d);
      }
    }
    forall w | Filtered(q, w, q.goal) ensures Weight(q.adj, w) > q.cutoff {
      if Weight(q.adj, w) <= q.cutoff {
        WalkCovered(q, s, u, w, q.goal);
      }
    }
  }

  /** The overflow is met at the block that was just popped. */
  lemma OverflowAnswers(q: Query, s: Labels, u: BlockKey, item: Item, v: BlockKey)
    requires PositiveWeights(q.adj) && Invariant(q, s, u, {})
    requires Least(s.queue, item) && s.dist[item.key] == item.cost <= q.cutoff && NodeOK(q, item.key) && item.key != q.goal
    requires HasEdge(q.adj, item.key, v) && item.cost + EdgeOf(q.adj, item.key, v).value.weight > MAX_UINT64
    ensures Answers(q, Overflow)
  {
    PoppedIsShortest(q, s, u, item);
    assert OverflowMet(q, item.key, v, item.cost);
  }

  /** The goal was popped. */
  ghost predicate AtGoal(q: Query, s: Labels, u: BlockKey, item: Item) {
    && PositiveWeights(q.adj) && Invariant(q, s, u, {})
    && Least(s.queue, item) && s.dist[item.key] == item.cost <= q.cutoff && NodeOK(q, item.key) && item.key == q.goal
  }

  lemma NothingUndercutsGoal(q: Query, s: Labels, u: BlockKey, item: Item, x: BlockKey, dx: nat)
    requires AtGoal(q, s, u, item) && x != q.goal
    requires dx < item.cost || Precedes(dx, x, item.cost, q.goal)
    ensures forall z :: !Outstanding(s, z, x, dx)
  {
    PoppedIsLeast(q, s, u, item);
    PrecedesTotal(dx, x, item.cost, q.goal);
  }

  lemma NoOverflowBeforeGoal(q: Query, s: Labels, u: BlockKey, item: Item)
    requires AtGoal(q, s, u, item)
    ensures forall x, v, d :: !OverflowMet(q, x, v, d)
  {
    PoppedIsShortest(q, s, u, item);
    forall x, v, d: nat ensures !OverflowMet(q, x, v, d) {
      if OverflowMet(q, x, v, d) {
        NothingUndercutsGoal(q, s, u, item, x, d);
        NoOverflowIfSettled(q, s, u, x, v, d);
      }
    }
  }

  /** The recorded predecessor of a settled block, or of the goal, is its least tight predecessor. */
  lemma RecordedIsLeastTight(q: Query, s: Labels, u: BlockKey, item: Item, v: BlockKey)
    requires AtGoal(q, s, u, item) && v in s.pred && (v in s.settled || v == q.goal)
    ensures LeastTight(q, s.pred[v], s.dist[s.pred[v]], v, s.dist[v])
  {
    var p := s.pred[v];
    SettledIsShortest(q, s, u, p);
    forall x, dx | Tight(q, x, dx, v, s.dist[v]) ensures x == p || Precedes(s.dist[p], p, dx, x) {
      TightIsSettled(q, s, u, item, v, x, dx);
      assert !Waiting(u, {}, x, v);
      assert NotEarlier(q, s, x, v);
    }
  }

  lemma TightIsSettled(q: Query, s: Labels, u: BlockKey, item: Item, v: BlockKey, x: BlockKey, dx: nat)
    requires AtGoal(q, s, u, item) && v in s.dist && (v in s.settled || v == q.goal)
    requires Tight(q, x, dx, v, s.dist[v])
    ensures x in s.settled && s.dist[x] == dx
  {
    PoppedIsLeast(q, s, u, item);
    assert dx < s.dist[v];
    forall z | z in s.dist && z !in s.settled ensures s.dist[v] <= s.dist[z] {
      if v in s.settled {
        assert Precedes(s.dist[v], v, s.dist[z], z);
      }
    }
    SettledIfCheaper(q, s, u, x, dx);
  }

  /** The walk that following the recorded predecessors back to the start yields. */
  ghost predicate PredecessorWalk(q: Query, s: Labels, nodes: seq<BlockKey>, v: BlockKey) {
    && nodes != [] && nodes[|nodes| - 1] == v && nodes[0] == q.start
    && forall i :: 0 < i < |nodes| ==> nodes[i] in s.pred && s.pred[nodes[i]] == nodes[i - 1]
  }

  lemma {:induction false} PredecessorWalkWeight(q: Query, s: Labels, nodes: seq<BlockKey>, v: BlockKey)
    requires Labelled(q, s) && PredecessorWalk(q, s, nodes, v)
    ensures WalkFromTo(q.adj, nodes, q.start, v) && v in s.dist && Weight(q.adj, nodes) == s.dist[v]
    decreases |nodes|
  {
    if |nodes| > 1 {
      var front, u := nodes[..|nodes| - 1], nodes[|nodes| - 2];
      PredecessorWalkWeight(q, s, front, u);
      assert nodes[|nodes| - 1] in s.pred;
      WalkSnoc(q.adj, front, v);
      assert nodes == front + [v];
    }
  }

  lemma PredecessorStepIsLeastTight(q: Query, s: Labels, u: BlockKey, item: Item, nodes: seq<BlockKey>, i: nat)
    requires AtGoal(q, s, u, item) && PredecessorWalk(q, s, nodes, q.goal) && 0 < i < |nodes| && IsWalk(q.adj, nodes)
    ensures nodes[i] != q.start && LeastTightAt(q, nodes, i)
  {
    hide Invariant, LeastTight, Weight;
    LabelsOf(q, s, u, item);
    assert nodes[i] in s.pred;
    if i + 1 < |nodes| {
      assert nodes[i + 1] in s.pred && s.pred[nodes[i + 1]] == nodes[i];
    }
    RecordedIsLeastTight(q, s, u, item, nodes[i]);
    PredecessorWalkWeight(q, s, nodes[..i], nodes[i - 1]);
    PredecessorWalkWeight(q, s, nodes[..i + 1], nodes[i]);
  }

  lemma PredecessorWalkIsCanonical(q: Query, s: Labels, u: BlockKey, item: Item, nodes: seq<BlockKey>)
    requires AtGoal(q, s, u, item) && PredecessorWalk(q, s, nodes, q.goal)
    ensures Canonical(q, nodes, q.goal, item.cost)
  {
    PoppedIsShortest(q, s, u, item);
    PredecessorWalkWeight(q, s, nodes, q.goal);
    hide Shortest, LeastTightAt, Weight, Invariant;
    forall i | 0 < i < |nodes| ensures nodes[i] != q.start && LeastTightAt(q, nodes, i) {
      PredecessorStepIsLeastTight(q, s, u, item, nodes, i);
    }
  }

  lemma LabelsOf(q: Query, s: Labels, u: BlockKey, item: Item)
    requires AtGoal(q, s, u, item)
    ensures Labelled(q, s)
  {
  }

  lemma FoundAnswers(q: Query, s: Labels, u: BlockKey, item: Item, path: Path)
    requires AtGoal(q, s, u, item) && PredecessorWalk(q, s, path.nodes, q.goal)
    requires path.cost == item.cost && SegmentsOf(q.adj, path.nodes, path.segments)
    ensures Answers(q, Found(path))
  {
    NoOverflowBeforeGoal(q, s, u, item);
    PredecessorWalkIsCanonical(q, s, u, item, path.nodes);
  }
}
