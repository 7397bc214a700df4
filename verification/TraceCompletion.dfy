/**
 When a run over an accepted trace completes: exactly as long as no event's
 search meets an overflow, and always when the trace leaves room for it.
 */
module TraceCompletion {
  import opened Base
  import opened Costs
  import opened ReplayGraph
  import opened TrustView
  import opened TrustViewShape
  import opened ViewReady
  import opened SearchSpec
  import opened SearchTotality
  import opened TrustViewObject
  import opened Replay
  import opened ReplaySession
  import opened PreparedTrace
  import opened WholeRuns
  import Treap

  // ---------------------------------------------------------------------
  // One event
  // ---------------------------------------------------------------------

  /** The event's search, on the prepared view. */
  function EventQuery(config: Config, view: View, event: Event, directCost: uint64): Query
    requires ValidConfig(config) && config.profile.trustRootUpdateCost < directCost
  {
    SearchQuery(config.profile, view.adjacency, event.destination, event.source,
                directCost - config.profile.trustRootUpdateCost, event.source.chain, event.source.height)
  }

  /** The event is searched for, and the search meets an edge whose candidate cost does not fit. */
  ghost predicate MeetsOverflow(config: Config, prepared: Prepared, event: Event)
    requires ValidConfig(config)
  {
    && UsesTrustMap(config.setting) && config.profile.trustRootUpdateCost < prepared.estimate.cost && event.destination != event.source
    && exists u, v, d :: OverflowMet(EventQuery(config, prepared.view, event, prepared.estimate.cost), u, v, d)
  }

  function FoundOf(answer: Answer): Result<Option<Path>, SearchError> {
    match answer
    case Overflow => Err(SearchOverflow)
    case NotFound => Ok(None)
    case Found(path) => Ok(Some(path))
  }

  /** The planner always finds something, and an error exactly when an overflow is met. */
  lemma PlannedExists(config: Config, prepared: Prepared, event: Event) returns (found: Result<Option<Path>, SearchError>)
    requires ValidConfig(config) && UsesTrustMap(config.setting) && Ready(prepared.view)
    requires event.destination in prepared.view.nodes && event.source in prepared.view.nodes
    ensures Planned(config, prepared.view, event, prepared.estimate.cost, found)
    ensures found.Err? <==> MeetsOverflow(config, prepared, event)
  {
    hide Answers, OverflowMet, Identified, Indexed, EdgesJoin, PositiveWeights;
    if prepared.estimate.cost <= config.profile.trustRootUpdateCost {
      found := Ok(None);
    } else if event.destination == event.source {
      found := Ok(Some(Path(0, [event.destination], [])));
    } else {
      var answer := AnswerExists(EventQuery(config, prepared.view, event, prepared.estimate.cost));
      found := FoundOf(answer);
      assert AnswerOf(found) == answer;
    }
  }

  /** An event of an accepted trace succeeds or fails, and fails exactly when its search meets an overflow. */
  lemma EventOutcome(config: Config, trace: seq<Event>, state: State, n: nat)
    requires Accepted(config, trace) && n < |trace|
    requires Inside(Blocks(trace, config.initHeights), state) && Ready(state.view) && state.view.crossEdgesAdded <= n
    ensures Prepare(config, state, trace[n]).Ok?
    ensures var meets := MeetsOverflow(config, Prepare(config, state, trace[n]).value, trace[n]);
            && (Fails(config, state, trace[n], SearchFailed(SearchOverflow)) <==> meets)
            && ((exists decision, state' :: Steps(config, state, trace[n], decision, state')) <==> !meets)
  {
    hide Inside, Ready, Fits, Minimal, Planned, Prepare, MeetsOverflow, Choose, AddVerifiedDependency;
    PreparesEvent(config, trace, state, n);
    var event, prepared := trace[n], Prepare(config, state, trace[n]).value;
    var found: Result<Option<Path>, SearchError> := Ok(None);
    if UsesTrustMap(config.setting) {
      found := PlannedExists(config, prepared, event);
    } else {
      NoSearchNoOverflow(config, prepared, event);
    }
    var r := Conclude(config, state, event, prepared, found);
    assert Processes(config, state, event, found, r);
    EventFits(config, trace, state, n, found, r);
    if r.Ok? {
      assert Steps(config, state, event, r.value.0, r.value.1);
      StepNotFailure(config, state, event, r.value.0, r.value.1, SearchFailed(SearchOverflow));
    } else {
      assert Fails(config, state, event, SearchFailed(SearchOverflow));
      forall decision, state' | Steps(config, state, event, decision, state') ensures false {
        StepNotFailure(config, state, event, decision, state', SearchFailed(SearchOverflow));
      }
    }
  }

  lemma NoSearchNoOverflow(config: Config, prepared: Prepared, event: Event)
    requires ValidConfig(config) && !UsesTrustMap(config.setting)
    ensures !MeetsOverflow(config, prepared, event)
  {
  }

  lemma PreparesEvent(config: Config, trace: seq<Event>, state: State, n: nat)
    requires Accepted(config, trace) && n < |trace| && Inside(Blocks(trace, config.initHeights), state) && Ready(state.view)
    ensures ValidConfig(config) && Prepare(config, state, trace[n]).Ok?
    ensures var view := Prepare(config, state, trace[n]).value.view;
            && Ready(view) && view.nodes <= Blocks(trace, config.initHeights)
            && (UsesTrustMap(config.setting) ==> trace[n].destination in view.nodes && trace[n].source in view.nodes)
  {
    hide Ready, Fits, Minimal, Inside, Prepare;
    var blocks, event := Blocks(trace, config.initHeights), trace[n];
    assert event.source in blocks && event.destination in blocks;
    SourceKnown(config, trace, n);
    PrepareFits(config, blocks, state, event);
  }

  /** An accepted run goes on exactly as long as no event's search meets an overflow. */
  lemma AcceptedRunContinues(config: Config, trace: seq<Event>, log: seq<Decision>, states: seq<State>)
    requires Accepted(config, trace) && Run(config, trace, log, states) && |log| < |trace|
    ensures Prepare(config, states[|log|], trace[|log|]).Ok?
    ensures var meets := MeetsOverflow(config, Prepare(config, states[|log|], trace[|log|]).value, trace[|log|]);
            && (Fails(config, states[|log|], trace[|log|], SearchFailed(SearchOverflow)) <==> meets)
            && ((exists decision, state' :: Run(config, trace, log + [decision], states + [state'])) <==> !meets)
  {
    hide Accepted, Ready, Inside, Steps, Fails, MeetsOverflow, Prepare, Blocks;
    AcceptedIsValid(config, trace);
    var n := |log|;
    AcceptedRunFits(config, trace, log, states, n);
    RunCoherent(config, trace, log, states, n);
    EventOutcome(config, trace, states[n], n);
    if decision, state' :| Steps(config, states[n], trace[n], decision, state') {
      ExtendRun(config, trace, log, states, decision, state');
    }
    forall decision, state' | Run(config, trace, log + [decision], states + [state'])
      ensures Steps(config, states[n], trace[n], decision, state')
    {
      var log', states' := log + [decision], states + [state'];
      assert Steps(config, states'[n], trace[n], log'[n], states'[n + 1]);
    }
  }

  // ---------------------------------------------------------------------
  // Room for every search
  // ---------------------------------------------------------------------

  predicate SpanWithin(profile: CostProfile, span: uint64, largest: nat) {
    span * profile.directStepCost <= largest && span * profile.pathStepCost <= largest
  }

  /** No distance of the trace and no path step costs more than `largest`. */
  ghost predicate CostsWithin(profile: CostProfile, blocks: set<BlockKey>, largest: nat) {
    && profile.pathStepCost <= largest
    && forall u, v :: u in blocks && v in blocks && u.chain == v.chain && u.height <= v.height ==> SpanWithin(profile, v.height - u.height, largest)
  }

  /** The largest direct cost less the update, plus the largest edge, fits in 64 bits. */
  ghost predicate Roomy(profile: CostProfile, blocks: set<BlockKey>, largest: nat) {
    CostsWithin(profile, blocks, largest) && largest - profile.trustRootUpdateCost + largest <= MAX_UINT64
  }

  ghost predicate WeightsWithin(adj: Adjacency, largest: nat) {
    forall u, v :: HasEdge(adj, u, v) ==> EdgeOf(adj, u, v).value.weight <= largest
  }

  lemma PairWithin(profile: CostProfile, blocks: set<BlockKey>, chain: string, lower: uint64, higher: uint64, largest: nat)
    requires CostsWithin(profile, blocks, largest) && lower <= higher && BlockKey(chain, lower) in blocks && BlockKey(chain, higher) in blocks
    ensures SpanWithin(profile, higher - lower, largest)
    ensures PairEdges(profile, lower, higher).Some? ==>
              PairEdges(profile, lower, higher).value.0.weight <= largest && PairEdges(profile, lower, higher).value.1.weight <= largest
  {
    var u, v := BlockKey(chain, lower), BlockKey(chain, higher);
    assert SpanWithin(profile, v.height - u.height, largest);
  }

  lemma RewiringWithin(adj: Adjacency, adj': Adjacency, key: BlockKey, p: Option<uint64>, s: Option<uint64>,
                       lower: Option<(Edge, Edge)>, upper: Option<(Edge, Edge)>, largest: nat)
    requires WeightsWithin(adj, largest) && (p.Some? ==> lower.Some?) && (s.Some? ==> upper.Some?)
    requires p.Some? ==> lower.value.0.weight <= largest && lower.value.1.weight <= largest
    requires s.Some? ==> upper.value.0.weight <= largest && upper.value.1.weight <= largest
    requires Rewired(adj, adj', key, p, s, lower, upper)
    ensures WeightsWithin(adj', largest)
  {
    forall u, v | HasEdge(adj', u, v) ensures EdgeOf(adj', u, v).value.weight <= largest {
      assert EdgeOf(adj', u, v) == RewiredEdge(adj, key, p, s, lower, upper, u, v);
      assert HasEdge(adj, u, v) ==> EdgeOf(adj, u, v).value.weight <= largest;
    }
  }

  lemma ActivateWithin(profile: CostProfile, blocks: set<BlockKey>, view: View, key: BlockKey, largest: nat)
    requires CostsWithin(profile, blocks, largest) && Ready(view) && view.nodes <= blocks && key in blocks
    requires WeightsWithin(view.adjacency, largest) && Activate(profile, view, key).Ok?
    ensures WeightsWithin(Activate(profile, view, key).value.adjacency, largest)
  {
    hide Ready, CostsWithin, WeightsWithin, Indexed, PairEdges, Treap.Contains, Treap.NeighboursFrom, Rewired, Activate, IndexOf;
    ReadyIsIndexed(view);
    NeighboursAreBetween(view, key);
    ActivateKnown(profile, view, key);
    if key !in view.nodes {
      var (p, s) := Treap.NeighboursFrom(IndexOf(view.heights, key.chain), key.height, None, None);
      var lower := if p.Some? then PairEdges(profile, p.value, key.height) else None;
      var upper := if s.Some? then PairEdges(profile, key.height, s.value) else None;
      ActivateRewires(profile, view, key, p, s, lower, upper);
      if p.Some? {
        PairWithin(profile, blocks, key.chain, p.value, key.height, largest);
      }
      if s.Some? {
        PairWithin(profile, blocks, key.chain, key.height, s.value, largest);
      }
      RewiringWithin(view.adjacency, Activate(profile, view, key).value.adjacency, key, p, s, lower, upper, largest);
    }
  }

  lemma SetDependencyWithin(profile: CostProfile, view: View, from: BlockKey, to: BlockKey, largest: nat)
    requires WeightsWithin(view.adjacency, largest) && profile.pathStepCost <= largest
    ensures WeightsWithin(SetEdge(view, from, to, Edge(VerifiedDependency, profile.pathStepCost)).adjacency, largest)
  {
    var edge := Edge(VerifiedDependency, profile.pathStepCost);
    var adj' := SetEdge(view, from, to, edge).adjacency;
    forall u, v | HasEdge(adj', u, v) ensures EdgeOf(adj', u, v).value.weight <= largest {
      SetEdgeOf(view, from, to, edge, u, v);
      assert HasEdge(view.adjacency, u, v) ==> EdgeOf(view.adjacency, u, v).value.weight <= largest;
    }
  }

  /** The event's prepared view and its next view stay within the bound, and so does its direct cost. */
  lemma PrepareWithin(config: Config, trace: seq<Event>, state: State, n: nat, largest: nat)
    requires Accepted(config, trace) && n < |trace| && Inside(Blocks(trace, config.initHeights), state) && Ready(state.view)
    requires CostsWithin(config.profile, Blocks(trace, config.initHeights), largest) && WeightsWithin(state.view.adjacency, largest)
    requires Prepare(config, state, trace[n]).Ok?
    ensures WeightsWithin(Prepare(config, state, trace[n]).value.view.adjacency, largest)
    ensures Prepare(config, state, trace[n]).value.estimate.cost <= largest
  {
    hide Ready, CostsWithin, WeightsWithin, Fits, Minimal, Inside, Activate, EstimateDirect;
    var blocks, event := Blocks(trace, config.initHeights), trace[n];
    assert event.source in blocks && event.destination in blocks;
    SourceKnown(config, trace, n);
    EstimateWithin(config, blocks, state, event, largest);
    InsideNodes(blocks, state);
    if UsesTrustMap(config.setting) {
      ActivateWithin(config.profile, blocks, state.view, event.destination, largest);
      ActivateKeepsReady(config.profile, state.view, event.destination);
      ActivateWithin(config.profile, blocks, Activate(config.profile, state.view, event.destination).value, event.source, largest);
    }
  }

  lemma InsideNodes(blocks: set<BlockKey>, state: State)
    requires Inside(blocks, state)
    ensures state.view.nodes <= blocks
  {
  }

  lemma EstimateWithin(config: Config, blocks: set<BlockKey>, state: State, event: Event, largest: nat)
    requires ValidConfig(config) && CostsWithin(config.profile, blocks, largest) && Inside(blocks, state)
    requires InitBlocks(config.initHeights) <= blocks && event.source.chain in config.initHeights && event.source in blocks
    ensures var estimate := EstimateDirect(config, state.baselines, event.destination.chain, event.source.chain, event.source.height);
            estimate.Ok? ==> estimate.value.cost <= largest
  {
    hide CostsWithin, Inside, Baseline, Checkpoint, CheckedCost;
    var target, height := event.source.chain, event.source.height;
    assert BlockKey(target, height) == event.source;
    var baseline := Baseline(config, state.baselines, event.destination.chain, target);
    BaselineInside(config, blocks, state, event.destination.chain, target);
    if height >= baseline {
      PairWithin(config.profile, blocks, target, baseline, height, largest);
      var checkpoint := if target in config.periods then Checkpoint(height, config.periods[target]) else 0;
      var start := if checkpoint > baseline then checkpoint else baseline;
      CostMonotone(height - start, height - baseline, config.profile.directStepCost);
      ProductMonotone(height - start, height - baseline, config.profile.directStepCost);
    } else {
      PairWithin(config.profile, blocks, target, height, baseline, largest);
    }
  }

  lemma StepWithin(config: Config, trace: seq<Event>, state: State, n: nat, decision: Decision, state': State, largest: nat)
    requires Accepted(config, trace) && n < |trace| && Inside(Blocks(trace, config.initHeights), state) && Ready(state.view)
    requires CostsWithin(config.profile, Blocks(trace, config.initHeights), largest) && WeightsWithin(state.view.adjacency, largest)
    requires Steps(config, state, trace[n], decision, state')
    ensures WeightsWithin(state'.view.adjacency, largest)
  {
    hide Ready, WeightsWithin, Accepted, Inside, Planned, Choose, Activate, CostsWithin, Blocks;
    AcceptedIsValid(config, trace);
    var event := trace[n];
    var found :| Processes(config, state, event, found, Ok((decision, state')));
    PrepareWithin(config, trace, state, n, largest);
    PreparesEvent(config, trace, state, n);
    var view := Prepare(config, state, event).value.view;
    if UsesTrustMap(config.setting) {
      StepCostWithin(config.profile, Blocks(trace, config.initHeights), largest);
      DependencyWithin(config.profile, view, event.destination, event.source, largest);
    }
  }

  lemma StepCostWithin(profile: CostProfile, blocks: set<BlockKey>, largest: nat)
    requires CostsWithin(profile, blocks, largest)
    ensures profile.pathStepCost <= largest
  {
  }

  /** Both blocks are active, so only the dependency edge is new. */
  lemma DependencyWithin(profile: CostProfile, view: View, from: BlockKey, to: BlockKey, largest: nat)
    requires ValidProfile(profile) && Ready(view) && from in view.nodes && to in view.nodes
    requires WeightsWithin(view.adjacency, largest) && profile.pathStepCost <= largest
    ensures WeightsWithin(AddVerifiedDependency(profile, view, from, to).0.adjacency, largest)
  {
    hide Ready, WeightsWithin, Activate, SetEdge;
    if Activate(profile, view, from).Ok? {
      ActivateKeepsReady(profile, view, from);
      if Activate(profile, view, to).Ok? {
        ActivateKeepsReady(profile, view, to);
        SetDependencyWithin(profile, view, from, to, largest);
      }
    }
  }

  lemma {:induction false} RunWithin(config: Config, trace: seq<Event>, log: seq<Decision>, states: seq<State>, n: nat, largest: nat)
    requires Accepted(config, trace) && Run(config, trace, log, states) && n <= |log|
    requires CostsWithin(config.profile, Blocks(trace, config.initHeights), largest)
    ensures WeightsWithin(states[n].view.adjacency, largest)
  {
    hide Accepted, Ready, Inside, Steps, CostsWithin, Blocks, WeightsWithin;
    AcceptedIsValid(config, trace);
    if n == 0 {
      NoWeights(largest);
    } else {
      var k := n - 1;
      RunWithin(config, trace, log, states, k, largest);
      AcceptedRunFits(config, trace, log, states, k);
      RunCoherent(config, trace, log, states, k);
      StepWithin(config, trace, states[k], k, log[k], states[k + 1], largest);
    }
  }

  lemma NoWeights(largest: nat)
    ensures WeightsWithin(INITIAL.view.adjacency, largest)
  {
  }

  /** With room, no search meets an overflow. */
  lemma RoomMeetsNoOverflow(config: Config, prepared: Prepared, event: Event, largest: nat)
    requires ValidConfig(config) && largest - config.profile.trustRootUpdateCost + largest <= MAX_UINT64
    requires prepared.estimate.cost <= largest && WeightsWithin(prepared.view.adjacency, largest)
    ensures !MeetsOverflow(config, prepared, event)
  {
  }

  /** A run over a roomy trace is never stopped by an event. */
  lemma RoomyRunContinues(config: Config, trace: seq<Event>, log: seq<Decision>, states: seq<State>, largest: nat)
    requires Accepted(config, trace) && Roomy(config.profile, Blocks(trace, config.initHeights), largest)
    requires Run(config, trace, log, states) && |log| < |trace|
    ensures forall error :: !Fails(config, states[|log|], trace[|log|], error)
    ensures exists decision, state' :: Run(config, trace, log + [decision], states + [state'])
  {
    hide Accepted, Ready, Inside, Steps, CostsWithin, Blocks, WeightsWithin, MeetsOverflow, Run, Fails, Prepare;
    AcceptedIsValid(config, trace);
    RunLength(config, trace, log, states);
    var n := |log|;
    AcceptedRunContinues(config, trace, log, states);
    RunWithin(config, trace, log, states, n, largest);
    AcceptedRunFits(config, trace, log, states, n);
    RunCoherent(config, trace, log, states, n);
    PrepareWithin(config, trace, states[n], n, largest);
    RoomMeetsNoOverflow(config, Prepare(config, states[n], trace[n]).value, trace[n], largest);
    forall error | Fails(config, states[n], trace[n], error) ensures false {
      AcceptedRunStopsOnlyInSearch(config, trace, log, states, error);
    }
  }

  /** Every roomy accepted trace has a complete run. */
  lemma {:induction false} RoomyRunCompletes(config: Config, trace: seq<Event>, largest: nat, n: nat) returns (log: seq<Decision>, states: seq<State>)
    requires Accepted(config, trace) && Roomy(config.profile, Blocks(trace, config.initHeights), largest) && n <= |trace|
    ensures Run(config, trace, log, states) && |log| == n
  {
    hide Accepted, Roomy, Blocks, Steps;
    AcceptedIsValid(config, trace);
    if n == 0 {
      log, states := [], [INITIAL];
    } else {
      log, states := RoomyRunCompletes(config, trace, largest, n - 1);
      RoomyRunContinues(config, trace, log, states, largest);
      var decision, state' :| Run(config, trace, log + [decision], states + [state']);
      log, states := log + [decision], states + [state'];
    }
  }

  // ---------------------------------------------------------------------
  // An accepted trace that stops
  // ---------------------------------------------------------------------

  const TIGHT_PROFILE: CostProfile := CostProfile(MAX_UINT64, 1, 1)
  const TIGHT_CONFIG: Config := Config(B2, TIGHT_PROFILE, map[], map["a" := 0, "c" := 0])
  const A0: BlockKey := BlockKey("a", 0)
  const A1: BlockKey := BlockKey("a", 1)
  const C0: BlockKey := BlockKey("c", 0)
  const C1: BlockKey := BlockKey("c", 1)

  /** Two events between chains `a` and `c`, one block apart. */
  const TIGHT_TRACE: seq<Event> := [Event("first", 0, A0, C0, 0), Event("second", 1, A1, C1, 0)]

  lemma TightBlocks()
    ensures Blocks(TIGHT_TRACE, TIGHT_CONFIG.initHeights) == {A0, A1, C0, C1}
    ensures EventBlocks(TIGHT_TRACE) == {A0, A1, C0, C1}
  {
    assert TIGHT_TRACE[0] in TIGHT_TRACE && TIGHT_TRACE[1] in TIGHT_TRACE;
    assert forall event :: event in TIGHT_TRACE <==> event == TIGHT_TRACE[0] || event == TIGHT_TRACE[1];
    var init := InitBlocks(TIGHT_CONFIG.initHeights);
    assert init <= {A0, C0};
  }

  lemma TightFits()
    ensures Fits(TIGHT_PROFILE, {A0, A1, C0, C1})
  {
    var blocks := {A0, A1, C0, C1};
    forall u, v | u in blocks && v in blocks && u.chain == v.chain && u.height <= v.height ensures SpanFits(TIGHT_PROFILE, v.height - u.height) {
      assert v.height - u.height == 0 || v.height - u.height == 1;
    }
  }

  lemma TightIsAccepted()
    ensures Accepted(TIGHT_CONFIG, TIGHT_TRACE)
  {
    hide Fits, EventBlocks, Blocks;
    TightBlocks();
    TightFits();
  }

  /** An event that costs nothing directly is never searched for, and succeeds. */
  lemma FreeEventSteps(config: Config, trace: seq<Event>, state: State, n: nat) returns (decision: Decision, state': State)
    requires Accepted(config, trace) && n < |trace|
    requires Inside(Blocks(trace, config.initHeights), state) && Ready(state.view) && state.view.crossEdgesAdded <= n
    requires Prepare(config, state, trace[n]).Ok? ==> Prepare(config, state, trace[n]).value.estimate.cost == 0
    ensures Steps(config, state, trace[n], decision, state')
  {
    hide Accepted, Inside, Ready, Steps, Prepare, OverflowMet;
    EventOutcome(config, trace, state, n);
    AcceptedIsValid(config, trace);
    decision, state' :| Steps(config, state, trace[n], decision, state');
  }

  /** Processing activates both blocks and nothing else. */
  lemma StepNodes(config: Config, state: State, event: Event, decision: Decision, state': State)
    requires ValidConfig(config) && UsesTrustMap(config.setting) && Ready(state.view) && Steps(config, state, event, decision, state')
    ensures state'.view.nodes == state.view.nodes + {event.destination, event.source}
    ensures Prepare(config, state, event).Ok? && Prepare(config, state, event).value.view.nodes == state.view.nodes + {event.destination, event.source}
  {
    hide Ready, Activate, EstimateDirect, Planned, Choose, SetEdge;
    var found :| Processes(config, state, event, found, Ok((decision, state')));
    PrepareNodes(config, state, event);
    var view := Prepare(config, state, event).value.view;
    PrepareKeepsReady(config, state, event);
    ActivateKeepsReady(config.profile, view, event.destination);
    ActivateKeepsReady(config.profile, view, event.source);
    SetEdgeFrame(view, event.destination, event.source, Edge(VerifiedDependency, config.profile.pathStepCost));
  }

  lemma PrepareNodes(config: Config, state: State, event: Event)
    requires ValidConfig(config) && UsesTrustMap(config.setting) && Ready(state.view) && Prepare(config, state, event).Ok?
    ensures Prepare(config, state, event).value.view.nodes == state.view.nodes + {event.destination, event.source}
  {
    hide Ready, Activate, EstimateDirect;
    ActivateKeepsReady(config.profile, state.view, event.destination);
    ActivateKeepsReady(config.profile, Activate(config.profile, state.view, event.destination).value, event.source);
  }

  /** Preparing an event keeps the shape; its dependency is not recorded yet. */
  lemma PrepareKeepsShape(config: Config, state: State, event: Event, dependencies: set<(BlockKey, BlockKey)>)
    requires ValidConfig(config) && UsesTrustMap(config.setting) && Shape(config.profile, state.view, dependencies)
    requires Prepare(config, state, event).Ok?
    ensures Shape(config.profile, Prepare(config, state, event).value.view, dependencies)
  {
    hide Shape, Activate, EstimateDirect;
    ActivateKeepsShape(config.profile, state.view, dependencies, event.destination);
    ActivateKeepsShape(config.profile, Activate(config.profile, state.view, event.destination).value, dependencies, event.source);
  }

  /** From `c:1` the search steps down to `c:0` at cost 1, where the way back up no longer fits. */
  lemma TightSearchOverflows(adj: Adjacency)
    requires PositiveWeights(adj) && Wired(TIGHT_PROFILE, {A0, A1, C0, C1}, adj, {(C0, A0)})
    ensures OverflowMet(Query(adj, C1, A1, MAX_UINT64 - 1, "a", 1), C0, C1, 1)
  {
    var q := Query(adj, C1, A1, MAX_UINT64 - 1, "a", 1);
    var nodes := {A0, A1, C0, C1};
    assert Consecutive(nodes, C1, C0) && Consecutive(nodes, C0, C1);
    assert HasEdge(adj, C1, C0) && IntraEdge(TIGHT_PROFILE, C1, C0, EdgeOf(adj, C1, C0).value);
    assert HasEdge(adj, C0, C1) && IntraEdge(TIGHT_PROFILE, C0, C1, EdgeOf(adj, C0, C1).value);
    DownIsShortest(q);
    forall u | HasEdge(adj, u, A1) ensures !NodeOK(q, u) {
      assert Consecutive(nodes, u, A1) || (u, A1) in {(C0, A0)};
    }
    CutOff(q, A1);
  }

  /** A block all of whose neighbours fail the filter is not reached. */
  lemma CutOff(q: Query, v: BlockKey)
    requires v != q.start && forall u :: HasEdge(q.adj, u, v) ==> !NodeOK(q, u)
    ensures forall d :: !Shortest(q, v, d)
  {
    forall w ensures !Filtered(q, w, v) {
      LastStep(q, w, v);
    }
  }

  lemma LastStep(q: Query, w: seq<BlockKey>, v: BlockKey)
    ensures Filtered(q, w, v) && v != q.start ==> |w| > 1 && HasEdge(q.adj, w[|w| - 2], v) && NodeOK(q, w[|w| - 2])
  {
  }

  lemma DownIsShortest(q: Query)
    requires q.start == C1 && q.targetChain == "a" && q.cutoff >= 1 && PositiveWeights(q.adj)
    requires HasEdge(q.adj, C1, C0) && EdgeOf(q.adj, C1, C0).value.weight == 1
    ensures Shortest(q, C0, 1)
  {
    var w := [C1, C0];
    assert w[..1] == [C1];
    assert Filtered(q, w, C0) && Weight(q.adj, w) == 1;
    forall x | Filtered(q, x, C0) ensures 1 <= Weight(q.adj, x) {
      assert HasEdge(q.adj, x[|x| - 2], x[|x| - 1]);
    }
  }

  /** Its first event is free: it adds the dependency and nothing else. */
  lemma TightFirst() returns (decision: Decision, state: State)
    ensures Steps(TIGHT_CONFIG, INITIAL, TIGHT_TRACE[0], decision, state)
    ensures Shape(TIGHT_PROFILE, state.view, {(C0, A0)}) && state.view.nodes == {A0, C0}
    ensures state.baselines == map[("c", "a") := 0]
  {
    hide Accepted, Steps, Shape, Ready, Activate, Inside;
    TightIsAccepted();
    EmptyIsReady();
    EmptyShape(TIGHT_PROFILE);
    InitialInside(Blocks(TIGHT_TRACE, TIGHT_CONFIG.initHeights));
    decision, state := FreeEventSteps(TIGHT_CONFIG, TIGHT_TRACE, INITIAL, 0);
    EventKeepsShape(TIGHT_CONFIG, INITIAL, TIGHT_TRACE[0], decision, state, {});
    StepNodes(TIGHT_CONFIG, INITIAL, TIGHT_TRACE[0], decision, state);
    StepBaselines(TIGHT_CONFIG, INITIAL, TIGHT_TRACE[0], decision, state);
    assert {} + {(C0, A0)} == {(C0, A0)};
  }

  /** An accepted trace whose second event stops the run: the check does not promise completion. */
  lemma AcceptedTraceCanStop() returns (log: seq<Decision>, states: seq<State>)
    ensures InTraceOrder(TIGHT_TRACE) && Accepted(TIGHT_CONFIG, TIGHT_TRACE) && Run(TIGHT_CONFIG, TIGHT_TRACE, log, states) && |log| == 1
    ensures Fails(TIGHT_CONFIG, states[1], TIGHT_TRACE[1], SearchFailed(SearchOverflow))
  {
    hide Accepted, Steps, Shape, Ready, Activate, Inside, Fails, MeetsOverflow;
    TightIsAccepted();
    var decision, state := TightFirst();
    log, states := [decision], [INITIAL, state];
    assert Run(TIGHT_CONFIG, TIGHT_TRACE, log, states);
    RunCoherent(TIGHT_CONFIG, TIGHT_TRACE, log, states, 1);
    AcceptedRunContinues(TIGHT_CONFIG, TIGHT_TRACE, log, states);
    TightSecond(TIGHT_CONFIG, state, TIGHT_TRACE[1]);
  }

  lemma TightSecond(config: Config, state: State, event: Event)
    requires config == TIGHT_CONFIG && event == TIGHT_TRACE[1] && ValidConfig(config)
    requires Shape(config.profile, state.view, {(C0, A0)}) && state.view.nodes == {A0, C0} && state.baselines == map[("c", "a") := 0]
    requires Prepare(config, state, event).Ok? && Ready(state.view)
    ensures MeetsOverflow(config, Prepare(config, state, event).value, event)
  {
    hide Activate, OverflowMet, Identified, Indexed, EdgesJoin, PositiveWeights, Wired, Counted, Prepare;
    var prepared := Prepare(config, state, event).value;
    PrepareKeepsShape(config, state, event, {(C0, A0)});
    PrepareNodes(config, state, event);
    PrepareKeepsReady(config, state, event);
    TightCost(config, state, event);
    assert prepared.view.nodes == {A0, A1, C0, C1};
    TightSearchOverflows(prepared.view.adjacency);
    assert EventQuery(config, prepared.view, event, MAX_UINT64) == Query(prepared.view.adjacency, C1, A1, MAX_UINT64 - 1, "a", 1);
  }

  lemma TightCost(config: Config, state: State, event: Event)
    requires config == TIGHT_CONFIG && event == TIGHT_TRACE[1] && ValidConfig(config) && state.baselines == map[("c", "a") := 0]
    requires Prepare(config, state, event).Ok?
    ensures Prepare(config, state, event).value.estimate.cost == MAX_UINT64
  {
    hide Activate;
  }
}
