/**
 The live planner's two graph searches: breadth-first reachability, and label
 setting under the order (cost, hops, edge-ID sequence, node).
 */
module PlannerSearch {
  import opened Base
  import opened TrustGraph
  import opened PlannerSpec

  ghost function EdgeSet(edges: seq<TrustEdge>): set<TrustEdge> {
    set e | e in edges
  }

  type Adjacency = map<Word, seq<TrustEdge>>

  function OutEdges(adjacency: Adjacency, node: Word): seq<TrustEdge> {
    if node in adjacency then adjacency[node] else []
  }

  ghost predicate AdjacencyOf(edges: set<TrustEdge>, adjacency: Adjacency) {
    forall e: TrustEdge, node: Word :: e in OutEdges(adjacency, node) <==> e in edges && e.from == node
  }

  // ---------------------------------------------------------------------
  // Reachability
  // ---------------------------------------------------------------------

  ghost predicate Reaches(edges: set<TrustEdge>, start: Word, node: Word) {
    exists p :: Walk(edges, p, start, node)
  }

  lemma ReachesStep(edges: set<TrustEdge>, start: Word, e: TrustEdge)
    requires Reaches(edges, start, e.from) && e in edges
    ensures Reaches(edges, start, e.to)
  {
    hide Walk;
    var p :| Walk(edges, p, start, e.from);
    WalkSnoc(edges, p, start, e);
  }

  lemma ReachesStart(edges: set<TrustEdge>, start: Word)
    ensures Reaches(edges, start, start)
  {
    assert Walk(edges, [], start, start);
  }

  /** A set that contains the start and is closed under the edges contains every walk's end. */
  lemma {:induction false} ClosedContains(edges: set<TrustEdge>, start: Word, nodes: set<Word>, p: seq<TrustEdge>, node: Word)
    requires start in nodes && (forall e :: e in edges && e.from in nodes ==> e.to in nodes)
    requires Walk(edges, p, start, node)
    ensures node in nodes
    decreases |p|
  {
    hide Cost;
    if p != [] {
      WalkFront(edges, p, start, node);
      ClosedContains(edges, start, nodes, p[..|p| - 1], p[|p| - 1].from);
    }
  }

  ghost predicate SortedByID(edges: seq<TrustEdge>) {
    forall i, j :: 0 <= i < j < |edges| ==> edges[i].id <= edges[j].id
  }

  function InsertByID(sorted: seq<TrustEdge>, e: TrustEdge): (r: seq<TrustEdge>)
    ensures forall f :: f in r <==> f in sorted || f == e
  {
    if sorted == [] || e.id < sorted[0].id then [e] + sorted
    else
      assert forall f :: f in sorted <==> f == sorted[0] || f in sorted[1..];
      [sorted[0]] + InsertByID(sorted[1..], e)
  }

  lemma {:induction false} InsertKeepsSorted(sorted: seq<TrustEdge>, e: TrustEdge)
    requires SortedByID(sorted)
    ensures SortedByID(InsertByID(sorted, e))
  {
    if sorted != [] && sorted[0].id <= e.id {
      var rest := InsertByID(sorted[1..], e);
      InsertKeepsSorted(sorted[1..], e);
      forall j | 0 <= j < |rest| ensures sorted[0].id <= rest[j].id {
        assert rest[j] in rest;
      }
    }
  }

  /** The edges grouped by their origin, each group in ID order. */
  method BuildAdjacency(edges: seq<TrustEdge>) returns (adjacency: Adjacency)
    ensures AdjacencyOf(EdgeSet(edges), adjacency)
    ensures forall node :: node in adjacency ==> SortedByID(adjacency[node])
  {
    hide InsertByID;
    adjacency := map[];
    for i := 0 to |edges|
      invariant AdjacencyOf(EdgeSet(edges[..i]), adjacency)
      invariant forall node :: node in adjacency ==> SortedByID(adjacency[node])
    {
      var e := edges[i];
      InsertKeepsSorted(OutEdges(adjacency, e.from), e);
      assert EdgeSet(edges[..i + 1]) == EdgeSet(edges[..i]) + {e};
      var grown := adjacency[e.from := InsertByID(OutEdges(adjacency, e.from), e)];
      forall f: TrustEdge, node: Word ensures f in OutEdges(grown, node) <==> f in EdgeSet(edges[..i + 1]) && f.from == node {
        assert f in OutEdges(adjacency, node) <==> f in EdgeSet(edges[..i]) && f.from == node;
      }
      adjacency := grown;
    }
    assert edges[..|edges|] == edges;
  }

  /** Mark and queue the unseen ends of a node's edges. */
  method Discover(out: seq<TrustEdge>, seen: set<Word>, queue: seq<Word>) returns (seen': set<Word>, queue': seq<Word>)
    ensures seen <= seen' && (forall e :: e in out ==> e.to in seen')
    ensures forall node :: node in seen' ==> node in seen || exists e :: e in out && e.to == node
    ensures forall node :: node in queue' <==> node in queue || node in seen' - seen
    ensures seen' == seen ==> queue' == queue
  {
    seen', queue' := seen, queue;
    for i := 0 to |out|
      invariant seen <= seen' && (forall k :: 0 <= k < i ==> out[k].to in seen')
      invariant forall node :: node in seen' ==> node in seen || exists e :: e in out && e.to == node
      invariant forall node :: node in queue' <==> node in queue || node in seen' - seen
      invariant seen' == seen ==> queue' == queue
    {
      var e := out[i];
      if e.to !in seen' {
        assert e in out && e.to == e.to;
        seen' := seen' + {e.to};
        queue' := queue' + [e.to];
        assert e.to in seen' && e.to !in seen;
      }
    }
  }

  /** Breadth-first so far: everything seen is reachable, and the nodes no longer queued are expanded. */
  ghost predicate Explored(edges: set<TrustEdge>, start: Word, seen: set<Word>, queue: seq<Word>, done: set<Word>) {
    && start in seen
    && (forall node :: node in seen ==> Reaches(edges, start, node))
    && (forall node :: node in seen <==> node in done || node in queue)
    && (forall e :: e in edges && e.from in done ==> e.to in seen)
  }

  lemma ExploreStep(edges: set<TrustEdge>, start: Word, seen: set<Word>, queue: seq<Word>, done: set<Word>, out: seq<TrustEdge>,
                    seen': set<Word>, queue': seq<Word>)
    requires Explored(edges, start, seen, queue, done) && queue != []
    requires forall e :: e in out <==> e in edges && e.from == queue[0]
    requires seen <= seen' && forall e :: e in out ==> e.to in seen'
    requires forall node :: node in seen' ==> node in seen || exists e :: e in out && e.to == node
    requires forall node :: node in queue' <==> node in queue[1..] || node in seen' - seen
    ensures Explored(edges, start, seen', queue', done + {queue[0]})
  {
    hide Reaches;
    assert forall node :: node in queue <==> node == queue[0] || node in queue[1..];
    forall node | node in seen' ensures Reaches(edges, start, node) {
      if node !in seen {
        var e :| e in out && e.to == node;
        ReachesStep(edges, start, e);
      }
    }
    forall e | e in edges && e.from in done + {queue[0]} ensures e.to in seen' {
      if e.from == queue[0] {
        assert e in out;
      }
    }
  }

  method DirectedReachability(edges: seq<TrustEdge>, start: Word, target: Word) returns (adjacency: Adjacency, reachable: bool)
    ensures AdjacencyOf(EdgeSet(edges), adjacency)
    ensures reachable <==> Reaches(EdgeSet(edges), start, target)
  {
    hide Reaches, AdjacencyOf, Walk;
    adjacency := BuildAdjacency(edges);
    ghost var all := EdgeSet(edges);
    var seen, queue := {start}, [start];
    ghost var done: set<Word> := {};
    ghost var universe := {start} + set e | e in edges :: e.to;
    ReachesStart(all, start);
    while queue != []
      invariant Explored(all, start, seen, queue, done) && seen <= universe && target !in done
      decreases universe - seen, |queue|
    {
      var current := queue[0];
      if current == target {
        assert current in seen;
        reachable := true;
        return;
      }
      var out := OutEdges(adjacency, current);
      AdjacencyAt(all, adjacency, current);
      var seen', queue' := Discover(out, seen, queue[1..]);
      ExploreStep(all, start, seen, queue, done, out, seen', queue');
      assert seen' <= universe;
      done := done + {current};
      seen, queue := seen', queue';
    }
    NotReached(all, start, seen, target);
    reachable := false;
  }

  lemma AdjacencyAt(edges: set<TrustEdge>, adjacency: Adjacency, node: Word)
    requires AdjacencyOf(edges, adjacency)
    ensures forall e :: e in OutEdges(adjacency, node) <==> e in edges && e.from == node
  {
  }

  lemma NotReached(edges: set<TrustEdge>, start: Word, nodes: set<Word>, target: Word)
    requires start in nodes && (forall e :: e in edges && e.from in nodes ==> e.to in nodes) && target !in nodes
    ensures !Reaches(edges, start, target)
  {
    forall p | Walk(edges, p, start, target) ensures false {
      ClosedContains(edges, start, nodes, p, target);
    }
  }

  // ---------------------------------------------------------------------
  // Candidates
  // ---------------------------------------------------------------------

  datatype Candidate = Candidate(node: Word, cost: uint64, path: seq<TrustEdge>)

  /** A candidate describes a fitting walk to its node. */
  ghost predicate Sound(edges: set<TrustEdge>, start: Word, c: Candidate) {
    FittingWalk(edges, c.path, start, c.node) && c.cost == Cost(c.path)
  }

  /** The comparison of two candidates: negative, zero or positive. */
  method CompareCandidate(ghost edges: set<TrustEdge>, ghost start: Word, left: Candidate, right: Candidate) returns (r: int)
    requires UniqueIDs(edges) && Sound(edges, start, left) && Sound(edges, start, right)
    ensures r == 0 <==> left == right
    ensures r < 0 <==> PathLess(left.path, right.path)
    ensures r > 0 <==> PathLess(right.path, left.path)
  {
    hide Cost, Joined;
    if left.cost < right.cost {
      return -1;
    }
    if left.cost > right.cost {
      return 1;
    }
    if |left.path| < |right.path| {
      return -1;
    }
    if |left.path| > |right.path| {
      return 1;
    }
    for i := 0 to |left.path|
      invariant forall j :: 0 <= j < i ==> left.path[j].id == right.path[j].id
    {
      if left.path[i].id < right.path[i].id {
        assert DiffersAt(left.path, right.path, i);
        PathLessIrreflexive(left.path, right.path);
        return -1;
      }
      if left.path[i].id > right.path[i].id {
        assert DiffersAt(right.path, left.path, i);
        PathLessIrreflexive(right.path, left.path);
        return 1;
      }
    }
    SamePath(edges, start, left, right);
    return 0;
  }

  lemma SamePath(edges: set<TrustEdge>, start: Word, left: Candidate, right: Candidate)
    requires UniqueIDs(edges) && Sound(edges, start, left) && Sound(edges, start, right) && |left.path| == |right.path|
    requires forall j :: 0 <= j < |left.path| ==> left.path[j].id == right.path[j].id
    ensures left == right && !PathLess(left.path, right.path)
  {
    assert left.path == right.path;
    JoinedEnd(left.path, start, left.node, right.node);
    if PathLess(left.path, right.path) {
      PathLessIrreflexive(left.path, right.path);
    }
  }

  lemma JoinedEnd(p: seq<TrustEdge>, start: Word, m: Word, n: Word)
    requires Joined(p, start, m) && Joined(p, start, n)
    ensures m == n
  {
  }

  ghost function Items(queue: seq<Candidate>): set<Candidate> {
    set c | c in queue
  }

  ghost predicate NoDuplicates(queue: seq<Candidate>) {
    forall i, j :: 0 <= i < j < |queue| ==> queue[i] != queue[j]
  }

  /** The library heap's contract: remove a candidate that no other one precedes. */
  method PopLeast(ghost edges: set<TrustEdge>, ghost start: Word, queue: seq<Candidate>) returns (least: Candidate, rest: seq<Candidate>)
    requires queue != [] && UniqueIDs(edges) && forall c :: c in queue ==> Sound(edges, start, c)
    ensures least in queue && forall c :: c in queue ==> PathLeq(least.path, c.path)
    ensures |rest| == |queue| - 1
    ensures NoDuplicates(queue) ==> NoDuplicates(rest) && Items(rest) == Items(queue) - {least}
  {
    hide PathLess, Sound;
    var k := 0;
    for i := 1 to |queue|
      invariant 0 <= k < i
      invariant forall j :: 0 <= j < i ==> PathLeq(queue[k].path, queue[j].path)
    {
      assert queue[i] in queue && queue[k] in queue;
      var order := CompareCandidate(edges, start, queue[i], queue[k]);
      SoundTotal(edges, start, queue[i], queue[k]);
      if order < 0 {
        forall j | 0 <= j < i ensures PathLeq(queue[i].path, queue[j].path) {
          LeqTransitive(queue[i].path, queue[k].path, queue[j].path);
        }
        k := i;
      }
    }
    least, rest := queue[k], queue[..k] + queue[k + 1..];
    assert forall c :: c in queue <==> c in rest || c == least;
    assert NoDuplicates(queue) ==> least !in rest;
  }

  lemma SoundTotal(edges: set<TrustEdge>, start: Word, c: Candidate, d: Candidate)
    requires UniqueIDs(edges) && Sound(edges, start, c) && Sound(edges, start, d)
    ensures PathLeq(c.path, d.path) || PathLess(d.path, c.path)
    ensures c.path == d.path ==> c == d
  {
    hide Cost, PathLess;
    PathLessTotal(edges, c.path, d.path);
    if c.path == d.path {
      JoinedEnd(c.path, start, c.node, d.node);
    }
  }

  // ---------------------------------------------------------------------
  // The label-setting invariant
  // ---------------------------------------------------------------------

  /** Nothing can be gained over this edge any more. */
  ghost predicate Relaxed(best: map<Word, Candidate>, e: TrustEdge, overflowed: bool)
    requires e.from in best
  {
    if best[e.from].cost + e.pathStepCost > MAX_UINT64 then overflowed
    else e.to in best && PathLeq(best[e.to].path, best[e.from].path + [e])
  }

  /** The best candidates are sound, and a queued candidate is the best of its
      node exactly when the node is not settled yet. */
  ghost predicate Queued(edges: set<TrustEdge>, start: Word, items: set<Candidate>, best: map<Word, Candidate>, settled: set<Word>) {
    && start in best && best[start].path == [] && settled <= best.Keys
    && (forall n :: n in best ==> best[n].node == n && Sound(edges, start, best[n]))
    && (forall c :: c in items ==>
          && Sound(edges, start, c) && c.node in best
          && (c != best[c.node] ==> PathLess(best[c.node].path, c.path))
          && (c == best[c.node] ==> c.node !in settled))
    && (forall n :: n in best && n !in settled ==> best[n] in items)
  }

  /** Settled nodes hold their least walk, and their edges are relaxed except the pending ones. */
  ghost predicate Settled(edges: set<TrustEdge>, start: Word, best: map<Word, Candidate>, settled: set<Word>, pending: set<TrustEdge>, overflowed: bool) {
    && settled <= best.Keys
    && (forall n :: n in settled ==> LeastTo(edges, start, best[n].path, n))
    && (forall e :: e in edges && e.from in settled && e !in pending ==> Relaxed(best, e, overflowed))
  }

  /** Along any fitting walk to an unsettled node, some unsettled node's best candidate is no greater than the walk. */
  lemma {:induction false} FrontierBelow(edges: set<TrustEdge>, start: Word, items: set<Candidate>, best: map<Word, Candidate>, settled: set<Word>, overflowed: bool,
                                         q: seq<TrustEdge>, node: Word) returns (n: Word)
    requires UniqueIDs(edges) && Queued(edges, start, items, best, settled) && Settled(edges, start, best, settled, {}, overflowed)
    requires FittingWalk(edges, q, start, node) && node !in settled
    ensures n in best && n !in settled && PathLeq(best[n].path, q)
    decreases |q|
  {
    hide PathLess, UniqueIDs, Cost, Joined, LeastTo;
    if q == [] {
      WalkEmpty(edges, start, node);
      n := start;
    } else {
      var e, front := q[|q| - 1], q[..|q| - 1];
      WalkFront(edges, q, start, node);
      ExtensionIsGreater(front, e);
      if e.from in settled {
        LeastExtends(edges, start, best[e.from], front, e);
        assert Relaxed(best, e, overflowed);
        LeqTransitive(best[node].path, best[e.from].path + [e], q);
        n := node;
      } else {
        n := FrontierBelow(edges, start, items, best, settled, overflowed, front, e.from);
        LeqTransitive(best[n].path, front, q);
      }
    }
  }

  lemma WalkEmpty(edges: set<TrustEdge>, start: Word, node: Word)
    requires Walk(edges, [], start, node)
    ensures node == start
  {
  }

  lemma LeastExtends(edges: set<TrustEdge>, start: Word, c: Candidate, front: seq<TrustEdge>, e: TrustEdge)
    requires Sound(edges, start, c) && LeastTo(edges, start, c.path, e.from)
    requires FittingWalk(edges, front, start, e.from) && Cost(front) + e.pathStepCost <= MAX_UINT64
    ensures PathLeq(c.path + [e], front + [e]) && c.cost + e.pathStepCost <= MAX_UINT64
  {
    hide PathLess, Cost, Joined;
    LeqCost(c.path, front);
    ExtendLeq(c.path, front, e);
  }

  /** A popped candidate that no other one precedes is the least walk to its node. */
  lemma PoppedIsLeast(edges: set<TrustEdge>, start: Word, items: set<Candidate>, best: map<Word, Candidate>, settled: set<Word>, overflowed: bool, c: Candidate)
    requires UniqueIDs(edges) && Queued(edges, start, items, best, settled) && Settled(edges, start, best, settled, {}, overflowed)
    requires c in items && c == best[c.node] && forall d :: d in items ==> PathLeq(c.path, d.path)
    ensures c.node !in settled && LeastTo(edges, start, c.path, c.node)
  {
    hide PathLess, UniqueIDs, Settled;
    forall q | FittingWalk(edges, q, start, c.node) ensures PathLeq(c.path, q) {
      var n := FrontierBelow(edges, start, items, best, settled, overflowed, q, c.node);
      LeqTransitive(c.path, best[n].path, q);
    }
  }

  /** Settling a popped node makes its edges pending. */
  lemma Settle(edges: set<TrustEdge>, start: Word, items: set<Candidate>, best: map<Word, Candidate>, settled: set<Word>, overflowed: bool, c: Candidate,
               pending: set<TrustEdge>)
    requires UniqueIDs(edges) && Queued(edges, start, items, best, settled) && Settled(edges, start, best, settled, {}, overflowed)
    requires c in items && c == best[c.node] && forall d :: d in items ==> PathLeq(c.path, d.path)
    requires forall e :: e in edges && e.from == c.node ==> e in pending
    ensures Queued(edges, start, items - {c}, best, settled + {c.node})
    ensures Settled(edges, start, best, settled + {c.node}, pending, overflowed)
  {
    PoppedIsLeast(edges, start, items, best, settled, overflowed, c);
    hide PathLess, UniqueIDs, LeastTo, Relaxed, Sound;
  }

  lemma DropStale(edges: set<TrustEdge>, start: Word, items: set<Candidate>, best: map<Word, Candidate>, settled: set<Word>, c: Candidate)
    requires Queued(edges, start, items, best, settled) && c in items && c != best[c.node]
    ensures Queued(edges, start, items - {c}, best, settled)
  {
    hide Sound, PathLess;
    forall n | n in best && n !in settled ensures best[n] in items - {c} {
      assert best[n].node == n;
    }
  }

  /** An edge whose target is already reached by a path no greater. */
  lemma RelaxKeep(edges: set<TrustEdge>, start: Word, best: map<Word, Candidate>, settled: set<Word>, pending: set<TrustEdge>, overflowed: bool, e: TrustEdge, overflowed': bool)
    requires Settled(edges, start, best, settled, pending, overflowed) && e.from in best && (overflowed ==> overflowed')
    requires Relaxed(best, e, overflowed')
    ensures Settled(edges, start, best, settled, pending - {e}, overflowed')
  {
    hide LeastTo, PathLeq;
  }

  /** Replacing the best candidate of an unsettled node by a smaller one. */
  lemma RelaxImprove(edges: set<TrustEdge>, start: Word, items: set<Candidate>, best: map<Word, Candidate>, settled: set<Word>, next: Candidate)
    requires UniqueIDs(edges) && Queued(edges, start, items, best, settled) && Sound(edges, start, next)
    requires next.node in best ==> PathLess(next.path, best[next.node].path) && next.node !in settled
    ensures next !in items && next.node !in settled
    ensures Queued(edges, start, items + {next}, best[next.node := next], settled)
  {
    hide Sound, PathLess, UniqueIDs;
    var best' := best[next.node := next];
    forall c | c in items && c.node == next.node ensures PathLess(next.path, c.path) && c != next {
      if c != best[c.node] {
        PathLessTransitive(next.path, best[c.node].path, c.path);
      }
      PathLessIrreflexive(next.path, c.path);
    }
    if next.node == start {
      EmptyIsLeast(next.path);
      PathLessIrreflexive(next.path, []);
    }
  }

  lemma ImproveKeepsSettled(edges: set<TrustEdge>, start: Word, best: map<Word, Candidate>, settled: set<Word>, pending: set<TrustEdge>, overflowed: bool,
                            next: Candidate, e: TrustEdge)
    requires Settled(edges, start, best, settled, pending, overflowed) && next.node !in settled
    requires next.node in best ==> PathLess(next.path, best[next.node].path)
    requires e.from in settled && e.to == next.node && next.path == best[e.from].path + [e]
    requires best[e.from].cost + e.pathStepCost <= MAX_UINT64
    ensures Settled(edges, start, best[next.node := next], settled, pending - {e}, overflowed)
  {
    hide PathLess, LeastTo;
    var best' := best[next.node := next];
    forall f | f in edges && f.from in settled && f !in pending - {e} ensures Relaxed(best', f, overflowed) {
      if f != e {
        assert Relaxed(best, f, overflowed);
        if f.to == next.node && f.to in best {
          LeqTransitiveAbove(next.path, best[f.to].path, best[f.from].path + [f]);
        }
      }
    }
  }

  lemma LeqTransitiveAbove(p: seq<TrustEdge>, q: seq<TrustEdge>, r: seq<TrustEdge>)
    requires PathLess(p, q)
    ensures PathLeq(q, r) ==> PathLeq(p, r)
  {
    hide PathLess;
    if PathLess(q, r) {
      PathLessTransitive(p, q, r);
    }
  }

  /** With an empty queue every node with a fitting walk is settled; without an overflow, every reachable node. */
  lemma {:induction false} ExhaustedCovers(edges: set<TrustEdge>, start: Word, best: map<Word, Candidate>, settled: set<Word>, overflowed: bool, q: seq<TrustEdge>, node: Word)
    requires Queued(edges, start, {}, best, settled) && Settled(edges, start, best, settled, {}, overflowed)
    requires Walk(edges, q, start, node) && (overflowed ==> Cost(q) <= MAX_UINT64)
    ensures node in settled
    decreases |q|
  {
    hide PathLess, Cost, Joined, Sound;
    assert best.Keys == settled by { assert forall n :: n in best ==> n in settled; }
    if q == [] {
      WalkEmpty(edges, start, node);
    } else {
      var e, front := q[|q| - 1], q[..|q| - 1];
      WalkFront(edges, q, start, node);
      ExhaustedCovers(edges, start, best, settled, overflowed, front, e.from);
      assert Relaxed(best, e, overflowed);
      if overflowed {
        SoundCost(edges, start, best[e.from]);
        LeqCost(best[e.from].path, front);
      }
    }
  }

  lemma SoundCost(edges: set<TrustEdge>, start: Word, c: Candidate)
    requires Sound(edges, start, c)
    ensures c.cost == Cost(c.path)
  {
  }

  datatype SearchError = PathCostOverflow | Disappeared

  /** What the label-setting search returns. */
  ghost predicate SearchResult(edges: set<TrustEdge>, start: Word, target: Word, r: Result<seq<TrustEdge>, SearchError>) {
    match r
    case Ok(path) => LeastTo(edges, start, path, target)
    case Err(PathCostOverflow) => forall q :: !FittingWalk(edges, q, start, target)
    case Err(Disappeared) => forall q :: !Walk(edges, q, start, target)
  }

  lemma ExhaustedResult(edges: set<TrustEdge>, start: Word, target: Word, best: map<Word, Candidate>, settled: set<Word>, overflowed: bool)
    requires Queued(edges, start, {}, best, settled) && Settled(edges, start, best, settled, {}, overflowed) && target !in settled
    ensures SearchResult(edges, start, target, Err(if overflowed then PathCostOverflow else Disappeared))
  {
    hide Queued, Settled, Walk;
    forall q | Walk(edges, q, start, target) && (overflowed ==> Cost(q) <= MAX_UINT64) ensures false {
      ExhaustedCovers(edges, start, best, settled, overflowed, q, target);
    }
  }

  /** Relax the edges of a settled node. */
  method Expand(ghost edges: set<TrustEdge>, ghost start: Word, ghost settled: set<Word>, current: Candidate, out: seq<TrustEdge>,
                queue: seq<Candidate>, best: map<Word, Candidate>, overflowed: bool)
    returns (queue': seq<Candidate>, best': map<Word, Candidate>, overflowed': bool)
    requires UniqueIDs(edges) && NoDuplicates(queue) && Queued(edges, start, Items(queue), best, settled)
    requires current.node in settled && current.node in best && best[current.node] == current
    requires forall e :: e in out ==> e in edges && e.from == current.node
    requires Settled(edges, start, best, settled, EdgeSet(out), overflowed)
    ensures NoDuplicates(queue') && Queued(edges, start, Items(queue'), best', settled)
    ensures Settled(edges, start, best', settled, {}, overflowed')
    ensures best'.Keys <= best.Keys + set e | e in out :: e.to
  {
    hide UniqueIDs, Queued, Settled, PathLess, Cost, Joined;
    queue', best', overflowed' := queue, best, overflowed;
    ghost var pending := EdgeSet(out);
    for i := 0 to |out|
      invariant NoDuplicates(queue') && Queued(edges, start, Items(queue'), best', settled)
      invariant Settled(edges, start, best', settled, pending, overflowed')
      invariant forall e :: e in pending ==> e in out[i..]
      invariant current.node in best' && best'[current.node] == current
      invariant best'.Keys <= best.Keys + set e | e in out :: e.to
    {
      var e := out[i];
      assert e in out && out[i..] == [e] + out[i + 1..];
      if current.cost > MAX_UINT64 - e.pathStepCost {
        RelaxKeep(edges, start, best', settled, pending, overflowed', e, true);
        overflowed' := true;
      } else {
        var next := Candidate(e.to, current.cost + e.pathStepCost, current.path + [e]);
        NextIsSound(edges, start, Items(queue'), best', settled, current, e);
        var improves := next.node !in best';
        if !improves {
          BestIsSound(edges, start, Items(queue'), best', settled, next.node);
          var order := CompareCandidate(edges, start, next, best'[next.node]);
          improves := order < 0;
          SoundTotal(edges, start, best'[next.node], next);
        }
        if improves {
          ImprovedIsUnsettled(edges, start, best', settled, pending, overflowed', next);
          RelaxImprove(edges, start, Items(queue'), best', settled, next);
          ImproveKeepsSettled(edges, start, best', settled, pending, overflowed', next, e);
          assert Items(queue' + [next]) == Items(queue') + {next};
          best' := best'[next.node := next];
          queue' := queue' + [next];
        } else {
          RelaxKeep(edges, start, best', settled, pending, overflowed', e, overflowed');
        }
      }
      pending := pending - {e};
    }
    assert pending == {};
  }

  lemma NextIsSound(edges: set<TrustEdge>, start: Word, items: set<Candidate>, best: map<Word, Candidate>, settled: set<Word>, current: Candidate, e: TrustEdge)
    requires Queued(edges, start, items, best, settled) && current.node in best && best[current.node] == current
    requires e in edges && e.from == current.node && current.cost + e.pathStepCost <= MAX_UINT64
    ensures Sound(edges, start, Candidate(e.to, current.cost + e.pathStepCost, current.path + [e]))
  {
    hide Cost, Joined, PathLess;
    WalkSnoc(edges, current.path, start, e);
  }

  lemma BestIsSound(edges: set<TrustEdge>, start: Word, items: set<Candidate>, best: map<Word, Candidate>, settled: set<Word>, node: Word)
    requires Queued(edges, start, items, best, settled) && node in best
    ensures Sound(edges, start, best[node]) && best[node].node == node
  {
  }

  lemma ImprovedIsUnsettled(edges: set<TrustEdge>, start: Word, best: map<Word, Candidate>, settled: set<Word>, pending: set<TrustEdge>, overflowed: bool, next: Candidate)
    requires Settled(edges, start, best, settled, pending, overflowed) && Sound(edges, start, next)
    requires next.node in best ==> PathLess(next.path, best[next.node].path)
    ensures next.node !in settled
  {
    hide PathLess, Cost, Joined;
    if next.node in settled {
      assert PathLeq(best[next.node].path, next.path);
      PathLessIrreflexive(next.path, best[next.node].path);
    }
  }

  method ShortestPath(ghost edges: set<TrustEdge>, start: Word, target: Word, adjacency: Adjacency) returns (r: Result<seq<TrustEdge>, SearchError>)
    requires UniqueIDs(edges) && AdjacencyOf(edges, adjacency)
    ensures SearchResult(edges, start, target, r)
  {
    hide UniqueIDs, Queued, Settled, PathLess, Cost, Joined, AdjacencyOf, LeastTo, SearchResult;
    var first := Candidate(start, 0, []);
    var queue := [first];
    var best: map<Word, Candidate> := map[start := first];
    var overflowed := false;
    ghost var settled: set<Word> := {};
    ghost var universe := {start} + set e | e in edges :: e.to;
    Initially(edges, start);
    while queue != []
      invariant NoDuplicates(queue) && Queued(edges, start, Items(queue), best, settled)
      invariant Settled(edges, start, best, settled, {}, overflowed)
      invariant settled <= best.Keys <= universe && target !in settled
      decreases universe - settled, |queue|
    {
      QueueIsSound(edges, start, queue, best, settled);
      var current, rest := PopLeast(edges, start, queue);
      assert current in Items(queue);
      BestIsSound(edges, start, Items(queue), best, settled, current.node);
      var order := CompareCandidate(edges, start, current, best[current.node]);
      if order != 0 {
        DropStale(edges, start, Items(queue), best, settled, current);
        queue := rest;
        continue;
      }
      PoppedIsLeast(edges, start, Items(queue), best, settled, overflowed, current);
      if current.node == target {
        FoundResult(edges, start, target, current.path);
        return Ok(current.path);
      }
      var out := OutEdges(adjacency, current.node);
      AdjacencyAt(edges, adjacency, current.node);
      Settle(edges, start, Items(queue), best, settled, overflowed, current, EdgeSet(out));
      settled := settled + {current.node};
      queue, best, overflowed := Expand(edges, start, settled, current, out, rest, best, overflowed);
      SettledKnown(edges, start, best, settled, overflowed);
    }
    assert Items(queue) == {};
    ExhaustedResult(edges, start, target, best, settled, overflowed);
    return Err(if overflowed then PathCostOverflow else Disappeared);
  }

  lemma Initially(edges: set<TrustEdge>, start: Word)
    ensures var first := Candidate(start, 0, []);
            Queued(edges, start, Items([first]), map[start := first], {}) && Settled(edges, start, map[start := first], {}, {}, false)
  {
  }

  lemma QueueIsSound(edges: set<TrustEdge>, start: Word, queue: seq<Candidate>, best: map<Word, Candidate>, settled: set<Word>)
    requires Queued(edges, start, Items(queue), best, settled)
    ensures forall c :: c in queue ==> Sound(edges, start, c) && c.node in best
  {
    forall c | c in queue ensures Sound(edges, start, c) && c.node in best {
      assert c in Items(queue);
    }
  }

  lemma SettledKnown(edges: set<TrustEdge>, start: Word, best: map<Word, Candidate>, settled: set<Word>, overflowed: bool)
    requires Settled(edges, start, best, settled, {}, overflowed)
    ensures settled <= best.Keys
  {
  }

  lemma FoundResult(edges: set<TrustEdge>, start: Word, target: Word, path: seq<TrustEdge>)
    requires LeastTo(edges, start, path, target)
    ensures SearchResult(edges, start, target, Ok(path))
  {
  }
}
