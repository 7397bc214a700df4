/**
 Checkpoints with planning (B3) against planning alone (B2). The checkpoint
 lowers the direct cost, which narrows the height filter of the search: exactly
 when that hides every cheapest path, B3 pays more than B2.
 */
module CheckpointFilter {
  import opened Base
  import opened Costs
  import opened ReplayGraph
  import opened TrustView
  import opened TrustViewShape
  import opened ViewReady
  import opened SearchSpec
  import opened TrustViewObject
  import opened Replay
  import opened ReplaySession
  import opened PreparedTrace
  import opened WholeRuns
  import opened TraceCompletion

  // ---------------------------------------------------------------------
  // The exact condition
  // ---------------------------------------------------------------------

  lemma FilterMonotone(profile: CostProfile, small: uint64, large: uint64, height: uint64)
    requires ValidProfile(profile) && small <= large
    ensures MinTargetHeight(profile, large, height) <= MinTargetHeight(profile, small, height)
  {
    DivisionMonotone(small, large, profile.directStepCost);
  }

  lemma DivisionMonotone(small: nat, large: nat, step: nat)
    requires small <= large && step > 0
    ensures small / step <= large / step
  {
    if small / step > large / step {
      ProductMonotone(large / step + 1, small / step, step);
    }
  }

  /** What a search with a smaller direct cost finds, one with a larger direct cost finds too. */
  lemma SmallerSearchSeesLess(config: Config, view: View, event: Event, small: uint64, large: uint64, cost: nat)
    requires ValidConfig(config) && small <= large && GraphCost(config, view, event, small, cost)
    ensures GraphCost(config, view, event, large, cost)
  {
    var update, goal := config.profile.trustRootUpdateCost, event.source;
    var q := SearchQuery(config.profile, view.adjacency, event.destination, goal, small - update, goal.chain, goal.height);
    var q' := SearchQuery(config.profile, view.adjacency, event.destination, goal, large - update, goal.chain, goal.height);
    FilterMonotone(config.profile, small - update, large - update, goal.height);
    var w :| Filtered(q, w, goal) && Weight(view.adjacency, w) <= q.cutoff && cost == Weight(view.adjacency, w) + update;
    assert Filtered(q', w, goal);
  }

  /** What the graph offers at the smaller direct cost, filter included, is as good as all it
      offers at the larger one, as far as that beats the smaller direct cost itself. */
  ghost predicate FilterHarmless(config: Config, view: View, event: Event, small: uint64, large: uint64)
    requires ValidConfig(config)
  {
    forall cost :: GraphCost(config, view, event, large, cost) ==>
                     small <= cost || exists cheaper :: cheaper <= cost && GraphCost(config, view, event, small, cheaper)
  }

  /** One event in one state: B3 pays no more than B2 exactly when the narrower filter is
      harmless, which the graph and the two direct estimates decide. */
  lemma CheckpointedIsNoDearer(config: Config, state: State, event: Event, d2: Decision, state2: State, d3: Decision, state3: State)
    requires ValidConfig(config) && Ready(state.view)
    requires Steps(With(config, B2), state, event, d2, state2) && Steps(With(config, B3), state, event, d3, state3)
    ensures Prepare(With(config, B3), state, event).Ok? && d3.estimate.cost <= d2.estimate.cost
    ensures d3.chosenCost <= d2.chosenCost
            <==> FilterHarmless(config, Prepare(With(config, B3), state, event).value.view, event, d3.estimate.cost, d2.estimate.cost)
  {
    hide Ready, Activate, EstimateDirect, GraphCost, Planned, Choose, Record;
    var c2, c3 := With(config, B2), With(config, B3);
    var found2 :| Processes(c2, state, event, found2, Ok((d2, state2)));
    var found3 :| Processes(c3, state, event, found3, Ok((d3, state3)));
    ChoiceIsOptimal(c2, state, event, found2, d2, state2);
    ChoiceIsOptimal(c3, state, event, found3, d3, state3);
    StepBaselines(c2, state, event, d2, state2);
    StepBaselines(c3, state, event, d3, state3);
    CheckpointsOnlyHelp(config, B2, B3, state.baselines, event.destination.chain, event.source.chain, event.source.height);
    var view := Prepare(c3, state, event).value.view;
    assert Prepare(c2, state, event).value.view == view;
    forall direct, cost ensures GraphCost(c2, view, event, direct, cost) == GraphCost(c3, view, event, direct, cost) == GraphCost(config, view, event, direct, cost) {
      SettingIrrelevant(config, B2, view, event, direct, cost);
      SettingIrrelevant(config, B3, view, event, direct, cost);
    }
  }

  lemma SettingIrrelevant(config: Config, setting: Setting, view: View, event: Event, direct: uint64, cost: nat)
    requires ValidConfig(config)
    ensures GraphCost(With(config, setting), view, event, direct, cost) == GraphCost(config, view, event, direct, cost)
  {
  }

  /** The same at every event of two runs over one trace. */
  lemma CheckpointedRunsCompare(config: Config, trace: seq<Event>, log2: seq<Decision>, states2: seq<State>,
                                log3: seq<Decision>, states3: seq<State>, i: nat)
    requires ValidConfig(config) && Run(With(config, B2), trace, log2, states2) && Run(With(config, B3), trace, log3, states3)
    requires i < |log2| && i < |log3|
    ensures Prepare(With(config, B3), states3[i], trace[i]).Ok? && log3[i].estimate.cost <= log2[i].estimate.cost
    ensures log3[i].chosenCost <= log2[i].chosenCost
            <==> FilterHarmless(config, Prepare(With(config, B3), states3[i], trace[i]).value.view, trace[i],
                                log3[i].estimate.cost, log2[i].estimate.cost)
  {
    hide Steps, Ready, Prepare, FilterHarmless, BaselinesAfter;
    PlanningViewsAgree(config, trace, log2, states2, log3, states3, i);
    RunStateBaselines(config, B2, trace, log2, states2, i);
    RunStateBaselines(config, B3, trace, log3, states3, i);
    RunCoherent(With(config, B3), trace, log3, states3, i);
    assert states2[i] == states3[i];
    CheckpointedIsNoDearer(config, states3[i], trace[i], log2[i], states2[i + 1], log3[i], states3[i + 1]);
  }

  // ---------------------------------------------------------------------
  // A trace on which checkpoints cost
  // ---------------------------------------------------------------------

  const D0: BlockKey := BlockKey("d", 0)
  const X0: BlockKey := BlockKey("x", 0)
  const Y0: BlockKey := BlockKey("y", 0)
  const T0: BlockKey := BlockKey("t", 0)
  const T2: BlockKey := BlockKey("t", 2)
  const T11: BlockKey := BlockKey("t", 11)

  /** Chain `t` has a checkpoint every ten blocks. */
  const HIDING_CONFIG: Config :=
    Config(B2, CostProfile(10, 1, 1), map["t" := 10], map["d" := 0, "t" := 0, "x" := 0, "y" := 0])

  /** The last event could go `d:0`, `y:0`, `t:2`, `x:0`, `t:11`, at one per step. */
  const HIDING_TRACE: seq<Event> := [
    Event("0", 0, T11, X0, 0), Event("1", 1, T0, X0, 1), Event("2", 2, X0, T2, 2),
    Event("3", 3, T2, Y0, 3), Event("4", 4, Y0, D0, 4), Event("5", 5, T11, D0, 5)]

  ghost const HIDING_BLOCKS: set<BlockKey> := {D0, X0, Y0, T0, T2, T11}
  ghost const HIDING_EDGES: set<(BlockKey, BlockKey)> := {(X0, T11), (X0, T0), (T2, X0), (Y0, T2), (D0, Y0)}

  lemma DependenciesGrow(events: seq<Event>, i: nat)
    requires i < |events|
    ensures Dependencies(events[..i + 1]) == Dependencies(events[..i]) + {(events[i].destination, events[i].source)}
  {
    assert events[..i + 1] == events[..i] + [events[i]];
    assert forall event :: event in events[..i + 1] <==> event in events[..i] || event == events[i];
  }

  lemma HidingInOrder(trace: seq<Event>)
    requires trace == HIDING_TRACE
    ensures InTraceOrder(trace)
  {
    hide SearchSpec.KeyLess;
    assert forall i :: 0 <= i < |trace| ==> trace[i].sequence == trace[i].sourceTime == i;
  }

  lemma HidingEvents(trace: seq<Event>)
    requires trace == HIDING_TRACE
    ensures EventBlocks(trace[..5]) == HIDING_BLOCKS == EventBlocks(trace[..6])
    ensures Dependencies(trace[..5]) == HIDING_EDGES
  {
    hide EventBlocks, Dependencies;
    NoEventBlocks(trace[..0]);
    forall i: nat | i < 6
      ensures EventBlocks(trace[..i + 1]) == EventBlocks(trace[..i]) + {trace[i].source} + {trace[i].destination}
      ensures Dependencies(trace[..i + 1]) == Dependencies(trace[..i]) + {(trace[i].destination, trace[i].source)}
    {
      EventBlocksGrow(trace, i);
      DependenciesGrow(trace, i);
    }
    assert EventBlocks(trace[..0 + 1]) == {T11, X0} && Dependencies(trace[..0 + 1]) == {(X0, T11)};
    assert EventBlocks(trace[..1 + 1]) == {T11, X0, T0} && Dependencies(trace[..1 + 1]) == {(X0, T11), (X0, T0)};
    assert EventBlocks(trace[..2 + 1]) == {T11, X0, T0, T2} && Dependencies(trace[..2 + 1]) == {(X0, T11), (X0, T0), (T2, X0)};
    assert EventBlocks(trace[..3 + 1]) == {T11, X0, T0, T2, Y0} && Dependencies(trace[..3 + 1]) == {(X0, T11), (X0, T0), (T2, X0), (Y0, T2)};
    assert EventBlocks(trace[..4 + 1]) == HIDING_BLOCKS && Dependencies(trace[..4 + 1]) == HIDING_EDGES;
    assert EventBlocks(trace[..5 + 1]) == HIDING_BLOCKS;
  }

  lemma HidingBlocks(trace: seq<Event>, heights: map<string, uint64>)
    requires trace == HIDING_TRACE && heights == HIDING_CONFIG.initHeights
    ensures EventBlocks(trace) == Blocks(trace, heights) == HIDING_BLOCKS
    ensures Minimal(EventBlocks(trace), heights)
  {
    hide EventBlocks;
    HidingEvents(trace);
    assert trace[..6] == trace;
    assert InitBlocks(heights) <= HIDING_BLOCKS;
  }

  lemma HidingSpans(u: BlockKey, v: BlockKey)
    requires u in HIDING_BLOCKS && v in HIDING_BLOCKS && u.chain == v.chain && u.height <= v.height
    ensures v.height - u.height <= 11
  {
  }

  lemma HidingIsRoomy(profile: CostProfile)
    requires profile == HIDING_CONFIG.profile
    ensures Fits(profile, HIDING_BLOCKS) && Roomy(profile, HIDING_BLOCKS, 110)
  {
    var blocks := HIDING_BLOCKS;
    forall u, v | u in blocks && v in blocks && u.chain == v.chain && u.height <= v.height
      ensures SpanFits(profile, v.height - u.height) && SpanWithin(profile, v.height - u.height, 110)
    {
      HidingSpans(u, v);
    }
  }

  lemma HidingIsAccepted(config: Config, trace: seq<Event>)
    requires trace == HIDING_TRACE && config == HIDING_CONFIG.(setting := config.setting)
    ensures Accepted(config, trace) && Roomy(config.profile, Blocks(trace, config.initHeights), 110)
    ensures forall i :: 0 <= i < |trace| ==> trace[i].source.chain != trace[i].destination.chain
  {
    hide Fits, Roomy, EventBlocks, Blocks, Minimal;
    HidingBlocks(trace, config.initHeights);
    HidingIsRoomy(config.profile);
  }

  /** A planning run's active blocks are those of its events. */
  lemma {:induction false} RunNodes(config: Config, trace: seq<Event>, log: seq<Decision>, states: seq<State>, n: nat)
    requires ValidConfig(config) && UsesTrustMap(config.setting) && Run(config, trace, log, states) && n <= |log|
    ensures states[n].view.nodes == EventBlocks(trace[..n])
  {
    hide Steps, Ready, EventBlocks;
    if n == 0 {
      NoEventBlocks(trace[..0]);
    } else {
      var k := n - 1;
      RunNodes(config, trace, log, states, k);
      RunCoherent(config, trace, log, states, k);
      StepNodes(config, states[k], trace[k], log[k], states[k + 1]);
      EventBlocksGrow(trace, k);
    }
  }

  lemma NoEventBlocks(events: seq<Event>)
    requires events == []
    ensures EventBlocks(events) == {} && Dependencies(events) == {}
  {
  }

  /** The path that planning alone finds. */
  lemma HiddenPath(adj: Adjacency, profile: CostProfile)
    requires profile == HIDING_CONFIG.profile && Wired(profile, HIDING_BLOCKS, adj, HIDING_EDGES)
    ensures WalkFromTo(adj, [D0, Y0, T2, X0, T11], D0, T11) && Weight(adj, [D0, Y0, T2, X0, T11]) == 4
  {
    var w := [D0, Y0, T2, X0, T11];
    assert EdgeOf(adj, D0, Y0) == EdgeOf(adj, Y0, T2) == EdgeOf(adj, T2, X0) == EdgeOf(adj, X0, T11) == Some(Edge(VerifiedDependency, 1)) by {
      assert {(D0, Y0), (Y0, T2), (T2, X0), (X0, T11)} <= HIDING_EDGES;
    }
    assert w[..4][..3] == w[..3] && w[..3][..2] == w[..2] && w[..2][..1] == w[..1];
    assert Weight(adj, w[..1]) == 0 && Weight(adj, w[..2]) == 1 && Weight(adj, w[..3]) == 2 && Weight(adj, w[..4]) == 3;
  }

  /** With the checkpoint, `t:2` is filtered out and no way is left. */
  lemma NothingLeft(q: Query, profile: CostProfile, w: seq<BlockKey>)
    requires profile == HIDING_CONFIG.profile && Wired(profile, HIDING_BLOCKS, q.adj, HIDING_EDGES)
    requires q.start == D0 && q.targetChain == "t" && q.minTargetHeight == 11
    ensures !Filtered(q, w, T11)
  {
    if WalkFromTo(q.adj, w, D0, T11) {
      FirstSteps(q.adj, profile, w);
      assert !NodeOK(q, w[2]);
    }
  }

  lemma FirstSteps(adj: Adjacency, profile: CostProfile, w: seq<BlockKey>)
    requires profile == HIDING_CONFIG.profile && Wired(profile, HIDING_BLOCKS, adj, HIDING_EDGES) && WalkFromTo(adj, w, D0, T11)
    ensures |w| > 2 && w[2] == T2
  {
    hide Wired;
    OnlyWay(adj, profile, w[0], w[1]);
    OnlyWay(adj, profile, w[1], w[2]);
  }

  lemma OnlyWay(adj: Adjacency, profile: CostProfile, u: BlockKey, v: BlockKey)
    requires profile == HIDING_CONFIG.profile && Wired(profile, HIDING_BLOCKS, adj, HIDING_EDGES) && HasEdge(adj, u, v)
    ensures (u == D0 ==> v == Y0) && (u == Y0 ==> v == T2)
  {
    assert Consecutive(HIDING_BLOCKS, u, v) || (u, v) in HIDING_EDGES;
  }

  /** A pair no event is about has no baseline yet. */
  lemma {:induction false} UntouchedBaseline(config: Config, events: seq<Event>, verifier: string, target: string)
    requires forall i :: 0 <= i < |events| ==> (events[i].destination.chain, events[i].source.chain) != (verifier, target)
    ensures (verifier, target) !in BaselinesAfter(config, events)
  {
    if events != [] {
      UntouchedBaseline(config, events[..|events| - 1], verifier, target);
    }
  }

  /** The last event's direct cost: all eleven blocks, or one after the checkpoint. */
  lemma LastEstimate(config: Config, baselines: Baselines)
    requires config == HIDING_CONFIG.(setting := config.setting) && ("d", "t") !in baselines
    ensures EstimateDirect(config, baselines, "d", "t", 11).Ok?
    ensures EstimateDirect(config, baselines, "d", "t", 11).value.cost == if UsesCheckpoint(config.setting) then 10 else 110
  {
    assert Checkpoint(11, 10) == 10;
  }

  /** What the last event meets in either planning setting. */
  lemma LastEvent(config: Config, trace: seq<Event>, log: seq<Decision>, states: seq<State>)
    requires trace == HIDING_TRACE && config == HIDING_CONFIG.(setting := config.setting) && UsesTrustMap(config.setting)
    requires ValidConfig(config) && Run(config, trace, log, states) && |log| == 6
    ensures log[5].estimate.cost == if UsesCheckpoint(config.setting) then 10 else 110
    ensures Prepare(config, states[5], trace[5]).Ok? && Ready(states[5].view)
    ensures Wired(config.profile, HIDING_BLOCKS, Prepare(config, states[5], trace[5]).value.view.adjacency, HIDING_EDGES)
  {
    hide Steps, Ready, EventBlocks, Dependencies, Wired, Identified, Indexed, Counted, Prepare, EstimateDirect, BaselinesAfter;
    HidingIsAccepted(config, trace);
    HidingEvents(trace);
    RunCoherent(config, trace, log, states, 5);
    RunNodes(config, trace, log, states, 5);
    RunKeepsShape(config, trace, log, states, 5);
    StepNodes(config, states[5], trace[5], log[5], states[6]);
    PrepareKeepsShape(config, states[5], trace[5], HIDING_EDGES);
    assert HIDING_BLOCKS + {trace[5].destination, trace[5].source} == HIDING_BLOCKS;
    UntouchedBaseline(config, trace[..5], "d", "t");
    LastEstimate(config, BaselinesAfter(config, trace[..5]));
    RunEvent(config, config.setting, trace, log, states, 5);
  }

  lemma PlanningFindsPath(config: Config, view: View, event: Event)
    requires ValidConfig(config) && config.profile == HIDING_CONFIG.profile && event == HIDING_TRACE[5]
    requires Wired(config.profile, HIDING_BLOCKS, view.adjacency, HIDING_EDGES)
    ensures GraphCost(config, view, event, 110, 5)
  {
    hide Wired;
    HiddenPath(view.adjacency, config.profile);
    var q := SearchQuery(config.profile, view.adjacency, event.destination, event.source, 109, event.source.chain, event.source.height);
    assert Filtered(q, [D0, Y0, T2, X0, T11], T11);
  }

  lemma FilterHidesPath(config: Config, view: View, event: Event, cost: nat)
    requires ValidConfig(config) && config.profile == HIDING_CONFIG.profile && event == HIDING_TRACE[5]
    requires Wired(config.profile, HIDING_BLOCKS, view.adjacency, HIDING_EDGES)
    ensures !GraphCost(config, view, event, 10, cost)
  {
    hide Wired;
    var q := SearchQuery(config.profile, view.adjacency, event.destination, event.source, 9, event.source.chain, event.source.height);
    forall w ensures !Filtered(q, w, T11) {
      NothingLeft(q, config.profile, w);
    }
  }

  /** An accepted trace, complete in both settings, whose last event costs B2 at most 5 and B3 exactly 10. */
  lemma CheckpointsCanCostMore() returns (log2: seq<Decision>, states2: seq<State>, log3: seq<Decision>, states3: seq<State>)
    ensures var c2, c3 := With(HIDING_CONFIG, B2), With(HIDING_CONFIG, B3);
            && InTraceOrder(HIDING_TRACE) && Accepted(c2, HIDING_TRACE) && Accepted(c3, HIDING_TRACE)
            && Run(c2, HIDING_TRACE, log2, states2) && Run(c3, HIDING_TRACE, log3, states3) && |log2| == |log3| == |HIDING_TRACE|
            && log2[5].chosenCost <= 5 && log3[5].chosenCost == 10
  {
    hide InTraceOrder, Accepted, Run;
    var trace := HIDING_TRACE;
    HidingInOrder(trace);
    log2, states2 := HidingRun(With(HIDING_CONFIG, B2), trace);
    log3, states3 := HidingRun(With(HIDING_CONFIG, B3), trace);
  }

  /** The complete run of a planning setting, and what its last event costs. */
  lemma HidingRun(config: Config, trace: seq<Event>) returns (log: seq<Decision>, states: seq<State>)
    requires trace == HIDING_TRACE && config == HIDING_CONFIG.(setting := config.setting) && UsesTrustMap(config.setting)
    ensures Accepted(config, trace) && Run(config, trace, log, states) && |log| == |trace|
    ensures if UsesCheckpoint(config.setting) then log[5].chosenCost == 10 else log[5].chosenCost <= 5
  {
    hide Accepted, Roomy, Blocks, Steps, Ready, Wired, GraphCost, Prepare;
    HidingIsAccepted(config, trace);
    AcceptedIsValid(config, trace);
    log, states := RoomyRunCompletes(config, trace, 110, 6);
    LastEvent(config, trace, log, states);
    LastChoice(config, states[5], trace[5], log[5], states[6]);
  }

  lemma LastChoice(config: Config, state: State, event: Event, decision: Decision, state': State)
    requires config.profile == HIDING_CONFIG.profile && UsesTrustMap(config.setting) && event == HIDING_TRACE[5]
    requires ValidConfig(config) && Ready(state.view) && Steps(config, state, event, decision, state') && Prepare(config, state, event).Ok?
    requires Wired(config.profile, HIDING_BLOCKS, Prepare(config, state, event).value.view.adjacency, HIDING_EDGES)
    requires decision.estimate.cost == if UsesCheckpoint(config.setting) then 10 else 110
    ensures if UsesCheckpoint(config.setting) then decision.chosenCost == 10 else decision.chosenCost <= 5
  {
    hide Ready, Wired, GraphCost, Prepare, Processes;
    var view := Prepare(config, state, event).value.view;
    var found :| Processes(config, state, event, found, Ok((decision, state')));
    ChoiceIsOptimal(config, state, event, found, decision, state');
    if UsesCheckpoint(config.setting) {
      FilterHidesPath(config, view, event, decision.chosenCost);
    } else {
      PlanningFindsPath(config, view, event);
    }
  }
}
