/**
 The arithmetic check on a prepared trace, and what it buys: on an accepted
 trace the only thing that can stop a run is an overflow inside the search.
 */
module PreparedTrace {
  import opened Base
  import opened Costs
  import opened ReplayGraph
  import opened TrustView
  import opened TrustViewShape
  import opened ViewReady
  import opened TrustViewObject
  import opened Replay
  import opened ReplaySession
  import Treap
  import SearchSpec

  // ---------------------------------------------------------------------
  // The order of a trace
  // ---------------------------------------------------------------------

  /** By time, then destination, then source. */
  predicate EventBefore(a: Event, b: Event) {
    if a.sourceTime != b.sourceTime then a.sourceTime < b.sourceTime
    else if a.destination != b.destination then SearchSpec.KeyLess(a.destination, b.destination)
    else SearchSpec.KeyLess(a.source, b.source)
  }

  /** What preparing leaves: events numbered from zero, none before an earlier one. */
  ghost predicate InTraceOrder(trace: seq<Event>) {
    && (forall i :: 0 <= i < |trace| ==> trace[i].sequence == i)
    && forall i, j :: 0 <= i < j < |trace| ==> !EventBefore(trace[j], trace[i])
  }

  // ---------------------------------------------------------------------
  // The blocks of a trace
  // ---------------------------------------------------------------------

  ghost function EventBlocks(events: seq<Event>): set<BlockKey> {
    (set event | event in events :: event.source) + (set event | event in events :: event.destination)
  }

  lemma EventBlocksGrow(events: seq<Event>, i: nat)
    requires i < |events|
    ensures EventBlocks(events[..i + 1]) == EventBlocks(events[..i]) + {events[i].source} + {events[i].destination}
  {
    assert events[..i + 1] == events[..i] + [events[i]];
    assert forall event :: event in events[..i + 1] <==> event in events[..i] || event == events[i];
  }

  ghost function InitBlocks(initHeights: map<string, uint64>): set<BlockKey> {
    set chain | chain in initHeights :: BlockKey(chain, initHeights[chain])
  }

  ghost function Blocks(events: seq<Event>, initHeights: map<string, uint64>): set<BlockKey> {
    EventBlocks(events) + InitBlocks(initHeights)
  }

  /** Every distance between two blocks of one chain can be paid for. */
  ghost predicate Fits(profile: CostProfile, blocks: set<BlockKey>) {
    && profile.pathStepCost + profile.trustRootUpdateCost <= MAX_UINT64
    && forall u, v :: u in blocks && v in blocks && u.chain == v.chain && u.height <= v.height ==> SpanFits(profile, v.height - u.height)
  }

  predicate SpanFits(profile: CostProfile, span: uint64) {
    && span * profile.directStepCost <= MAX_UINT64
    && span * profile.pathStepCost + profile.trustRootUpdateCost <= MAX_UINT64
  }

  lemma SmallerSpanFits(profile: CostProfile, small: uint64, large: uint64)
    requires small <= large && SpanFits(profile, large)
    ensures SpanFits(profile, small)
  {
    assert small * profile.directStepCost <= large * profile.directStepCost;
    assert small * profile.pathStepCost <= large * profile.pathStepCost;
  }

  // ---------------------------------------------------------------------
  // Preparing and checking
  // ---------------------------------------------------------------------

  /** The least height of each chain, for exactly the chains that occur. */
  ghost predicate Minimal(blocks: set<BlockKey>, heights: map<string, uint64>) {
    && (forall block :: block in blocks ==> block.chain in heights && heights[block.chain] <= block.height)
    && (forall chain :: chain in heights ==> BlockKey(chain, heights[chain]) in blocks)
  }

  function UpdateMinimum(heights: map<string, uint64>, block: BlockKey): map<string, uint64> {
    if block.chain !in heights || block.height < heights[block.chain] then heights[block.chain := block.height] else heights
  }

  lemma UpdateMinimal(blocks: set<BlockKey>, heights: map<string, uint64>, block: BlockKey)
    requires Minimal(blocks, heights)
    ensures Minimal(blocks + {block}, UpdateMinimum(heights, block))
  {
  }

  method InitialHeights(events: seq<Event>) returns (heights: map<string, uint64>)
    ensures Minimal(EventBlocks(events), heights)
  {
    heights := map[];
    for i := 0 to |events|
      invariant Minimal(EventBlocks(events[..i]), heights)
    {
      EventBlocksGrow(events, i);
      ghost var blocks := EventBlocks(events[..i]);
      UpdateMinimal(blocks, heights, events[i].source);
      heights := UpdateMinimum(heights, events[i].source);
      UpdateMinimal(blocks + {events[i].source}, heights, events[i].destination);
      heights := UpdateMinimum(heights, events[i].destination);
    }
    assert events[..|events|] == events;
  }

  datatype HeightRange = HeightRange(minimum: uint64, maximum: uint64)

  /** The range of every chain, with both ends attained. */
  ghost predicate Spanned(blocks: set<BlockKey>, ranges: map<string, HeightRange>) {
    && (forall block :: block in blocks ==>
          block.chain in ranges && ranges[block.chain].minimum <= block.height <= ranges[block.chain].maximum)
    && (forall chain :: chain in ranges ==>
          BlockKey(chain, ranges[chain].minimum) in blocks && BlockKey(chain, ranges[chain].maximum) in blocks)
  }

  function Observe(ranges: map<string, HeightRange>, block: BlockKey): map<string, HeightRange> {
    if block.chain !in ranges then ranges[block.chain := HeightRange(block.height, block.height)]
    else
      var current := ranges[block.chain];
      ranges[block.chain := HeightRange(if block.height < current.minimum then block.height else current.minimum,
                                        if block.height > current.maximum then block.height else current.maximum)]
  }

  lemma ObserveSpans(blocks: set<BlockKey>, ranges: map<string, HeightRange>, block: BlockKey)
    requires Spanned(blocks, ranges)
    ensures Spanned(blocks + {block}, Observe(ranges, block))
  {
  }

  method ObserveEvents(events: seq<Event>) returns (ranges: map<string, HeightRange>)
    ensures Spanned(EventBlocks(events), ranges)
  {
    hide Spanned, Observe;
    ranges := map[];
    NothingSpanned();
    for i := 0 to |events|
      invariant Spanned(EventBlocks(events[..i]), ranges)
    {
      EventBlocksGrow(events, i);
      ghost var blocks := EventBlocks(events[..i]);
      ObserveSpans(blocks, ranges, events[i].source);
      ranges := Observe(ranges, events[i].source);
      ObserveSpans(blocks + {events[i].source}, ranges, events[i].destination);
      ranges := Observe(ranges, events[i].destination);
    }
    assert events[..|events|] == events;
  }

  lemma NothingSpanned()
    ensures Spanned({}, map[]) && EventBlocks([]) == {}
  {
  }

  method ObserveHeights(ghost blocks: set<BlockKey>, observed: map<string, HeightRange>, initHeights: map<string, uint64>)
    returns (ranges: map<string, HeightRange>)
    requires Spanned(blocks, observed)
    ensures Spanned(blocks + InitBlocks(initHeights), ranges)
  {
    hide Spanned, Observe;
    ranges := observed;
    var pending := initHeights.Keys;
    ghost var done: set<BlockKey> := {};
    assert blocks + done == blocks;
    while pending != {}
      invariant pending <= initHeights.Keys
      invariant done == set chain | chain in initHeights && chain !in pending :: BlockKey(chain, initHeights[chain])
      invariant Spanned(blocks + done, ranges)
      decreases pending
    {
      var chain :| chain in pending;
      var block := BlockKey(chain, initHeights[chain]);
      ObserveSpans(blocks + done, ranges, block);
      assert blocks + done + {block} == blocks + (done + {block});
      ranges := Observe(ranges, block);
      done := done + {block};
      pending := pending - {chain};
    }
    assert done == InitBlocks(initHeights);
  }

  /** The check: accepted exactly when every pair of blocks of one chain fits. */
  method ValidatePreparedTrace(profile: CostProfile, events: seq<Event>, initHeights: map<string, uint64>) returns (ok: bool)
    ensures ok <==> ValidProfile(profile) && Fits(profile, Blocks(events, initHeights))
  {
    hide Spanned, Fits, SpanFits;
    if !ValidProfile(profile) {
      return false;
    }
    var observed := ObserveEvents(events);
    var ranges := ObserveHeights(EventBlocks(events), observed, initHeights);
    ghost var blocks := Blocks(events, initHeights);
    SpannedFits(profile, blocks, ranges);
    var pending := ranges.Keys;
    while pending != {}
      invariant pending <= ranges.Keys
      invariant forall chain :: chain in ranges && chain !in pending ==> SpanFits(profile, Span(ranges, chain))
      decreases pending
    {
      var chain :| chain in pending;
      var span := Span(ranges, chain);
      var direct := CheckedCost(span, profile.directStepCost);
      var pathSegment := CheckedCost(span, profile.pathStepCost);
      SpanFitsChecked(profile, span);
      if direct.Err? || pathSegment.Err? {
        return false;
      }
      var total := CheckedAdd(pathSegment.value, profile.trustRootUpdateCost);
      if total.Err? {
        return false;
      }
      pending := pending - {chain};
    }
    var cross := CheckedAdd(profile.pathStepCost, profile.trustRootUpdateCost);
    ok := cross.Ok?;
  }

  function Span(ranges: map<string, HeightRange>, chain: string): uint64
    requires chain in ranges
  {
    if ranges[chain].minimum <= ranges[chain].maximum then ranges[chain].maximum - ranges[chain].minimum else 0
  }

  lemma SpanFitsChecked(profile: CostProfile, span: uint64)
    ensures SpanFits(profile, span) <==>
            && CheckedCost(span, profile.directStepCost).Ok? && CheckedCost(span, profile.pathStepCost).Ok?
            && CheckedAdd(CheckedCost(span, profile.pathStepCost).value, profile.trustRootUpdateCost).Ok?
  {
  }

  lemma SpannedFits(profile: CostProfile, blocks: set<BlockKey>, ranges: map<string, HeightRange>)
    requires Spanned(blocks, ranges)
    ensures Fits(profile, blocks) <==>
            && profile.pathStepCost + profile.trustRootUpdateCost <= MAX_UINT64
            && forall chain :: chain in ranges ==> SpanFits(profile, Span(ranges, chain))
  {
    hide SpanFits;
    if forall chain :: chain in ranges ==> SpanFits(profile, Span(ranges, chain)) {
      forall u, v | u in blocks && v in blocks && u.chain == v.chain && u.height <= v.height
        ensures SpanFits(profile, v.height - u.height)
      {
        SmallerSpanFits(profile, v.height - u.height, Span(ranges, u.chain));
      }
    }
    if Fits(profile, blocks) {
      forall chain | chain in ranges ensures SpanFits(profile, Span(ranges, chain)) {
        var low, high := BlockKey(chain, ranges[chain].minimum), BlockKey(chain, ranges[chain].maximum);
        assert low in blocks && high in blocks;
      }
    }
  }

  // ---------------------------------------------------------------------
  // Runs over an accepted trace
  // ---------------------------------------------------------------------

  /** What preparing and checking a trace establish together. */
  ghost predicate Accepted(config: Config, trace: seq<Event>) {
    && ValidConfig(config) && |trace| <= MAX_UINT64
    && (forall i :: 0 <= i < |trace| ==> trace[i].source.chain != "" && trace[i].destination.chain != "")
    && Minimal(EventBlocks(trace), config.initHeights)
    && Fits(config.profile, Blocks(trace, config.initHeights))
  }

  /** Every block the state mentions is a block of the trace. */
  ghost predicate Inside(blocks: set<BlockKey>, state: State) {
    && state.view.nodes <= blocks
    && forall verifier, target :: (verifier, target) in state.baselines ==> BlockKey(target, state.baselines[(verifier, target)]) in blocks
  }

  lemma PairFits(profile: CostProfile, blocks: set<BlockKey>, chain: string, lower: uint64, higher: uint64)
    requires Fits(profile, blocks) && lower <= higher && BlockKey(chain, lower) in blocks && BlockKey(chain, higher) in blocks
    ensures PairEdges(profile, lower, higher).Some?
    ensures SpanFits(profile, higher - lower)
  {
    var u, v := BlockKey(chain, lower), BlockKey(chain, higher);
    assert SpanFits(profile, v.height - u.height);
  }

  /** Activating a block of the trace succeeds and stays inside. */
  lemma ActivateFits(profile: CostProfile, blocks: set<BlockKey>, view: View, key: BlockKey)
    requires ValidProfile(profile) && Fits(profile, blocks) && Ready(view) && view.nodes <= blocks && key in blocks && key.chain != ""
    ensures Activate(profile, view, key).Ok?
    ensures Ready(Activate(profile, view, key).value) && Activate(profile, view, key).value.nodes <= blocks
    ensures Activate(profile, view, key).value.crossEdgesAdded == view.crossEdgesAdded
    ensures key in Activate(profile, view, key).value.nodes && view.nodes <= Activate(profile, view, key).value.nodes
  {
    ActivateSucceeds(profile, blocks, view, key);
    hide Activate, Ready;
    ActivateKeepsReady(profile, view, key);
  }

  lemma ActivateSucceeds(profile: CostProfile, blocks: set<BlockKey>, view: View, key: BlockKey)
    requires Fits(profile, blocks) && Ready(view) && view.nodes <= blocks && key in blocks && key.chain != ""
    ensures Activate(profile, view, key).Ok?
  {
    hide Ready, Fits, Indexed, PairEdges, Treap.Contains, Treap.NeighboursFrom, AddNode, SplitGap, SetPair;
    ReadyIsIndexed(view);
    NeighboursAreBetween(view, key);
    if key !in view.nodes {
      var (p, s) := Treap.NeighboursFrom(IndexOf(view.heights, key.chain), key.height, None, None);
      if p.Some? {
        PairFits(profile, blocks, key.chain, p.value, key.height);
      }
      if s.Some? {
        PairFits(profile, blocks, key.chain, key.height, s.value);
      }
    }
  }

  lemma ReadyIsIndexed(view: View)
    requires Ready(view)
    ensures Indexed(view.heights, view.nodes)
  {
  }

  lemma BaselineInside(config: Config, blocks: set<BlockKey>, state: State, verifier: string, target: string)
    requires Inside(blocks, state) && InitBlocks(config.initHeights) <= blocks && target in config.initHeights
    ensures BlockKey(target, Baseline(config, state.baselines, verifier, target)) in blocks
  {
    assert BlockKey(target, config.initHeights[target]) in InitBlocks(config.initHeights);
  }

  lemma EstimateFits(config: Config, blocks: set<BlockKey>, state: State, event: Event)
    requires ValidConfig(config) && Fits(config.profile, blocks) && Inside(blocks, state)
    requires InitBlocks(config.initHeights) <= blocks && event.source.chain in config.initHeights && event.source in blocks
    ensures EstimateDirect(config, state.baselines, event.destination.chain, event.source.chain, event.source.height).Ok?
  {
    hide Fits, Inside, Baseline, SpanFits;
    var target, height := event.source.chain, event.source.height;
    assert BlockKey(target, height) == event.source;
    var baseline := Baseline(config, state.baselines, event.destination.chain, target);
    BaselineInside(config, blocks, state, event.destination.chain, target);
    if height >= baseline {
      PairFits(config.profile, blocks, target, baseline, height);
      var checkpoint := if target in config.periods then Checkpoint(height, config.periods[target]) else 0;
      var start := if checkpoint > baseline then checkpoint else baseline;
      SmallerSpanFits(config.profile, height - start, height - baseline);
      SpanFitsChecked(config.profile, height - start);
      SpanFitsChecked(config.profile, height - baseline);
    } else {
      PairFits(config.profile, blocks, target, height, baseline);
      SpanFitsChecked(config.profile, baseline - height);
    }
  }

  lemma PrepareFits(config: Config, blocks: set<BlockKey>, state: State, event: Event)
    requires ValidConfig(config) && Fits(config.profile, blocks) && Inside(blocks, state) && Ready(state.view)
    requires InitBlocks(config.initHeights) <= blocks && event.source.chain in config.initHeights
    requires event.source in blocks && event.destination in blocks && event.source.chain != "" && event.destination.chain != ""
    ensures Prepare(config, state, event).Ok?
    ensures var view := Prepare(config, state, event).value.view;
            && Ready(view) && view.nodes <= blocks && view.crossEdgesAdded == state.view.crossEdgesAdded
            && (UsesTrustMap(config.setting) ==> event.source in view.nodes && event.destination in view.nodes)
  {
    hide Activate, Ready, EstimateDirect, Fits;
    EstimateFits(config, blocks, state, event);
    if UsesTrustMap(config.setting) {
      ActivateFits(config.profile, blocks, state.view, event.destination);
      ActivateFits(config.profile, blocks, Activate(config.profile, state.view, event.destination).value, event.source);
    }
  }

  /** Adding the dependency fails only when the counter is exhausted. */
  lemma DependencyFits(profile: CostProfile, blocks: set<BlockKey>, view: View, from: BlockKey, to: BlockKey)
    requires ValidProfile(profile) && Fits(profile, blocks) && Ready(view) && view.nodes <= blocks
    requires from in blocks && to in blocks && from.chain != "" && to.chain != "" && view.crossEdgesAdded < MAX_UINT64
    ensures AddVerifiedDependency(profile, view, from, to).1.None?
    ensures var view' := AddVerifiedDependency(profile, view, from, to).0;
            view'.nodes <= blocks && view'.crossEdgesAdded == view.crossEdgesAdded + 1
  {
    hide Activate, Ready, Fits, SetEdge;
    ActivateFits(profile, blocks, view, from);
    var view1 := Activate(profile, view, from).value;
    ActivateFits(profile, blocks, view1, to);
    SetEdgeFrame(Activate(profile, view1, to).value, from, to, Edge(VerifiedDependency, profile.pathStepCost));
  }

  /** One event: every outcome but a search overflow succeeds, and stays inside. */
  lemma EventFits(config: Config, trace: seq<Event>, state: State, n: nat, found: Result<Option<SearchSpec.Path>, SearchError>,
                  r: Result<(Decision, State), ProcessError>)
    requires Accepted(config, trace) && n < |trace|
    requires Inside(Blocks(trace, config.initHeights), state) && Ready(state.view) && state.view.crossEdgesAdded <= n
    requires Processes(config, state, trace[n], found, r)
    ensures r.Err? ==> r.error == SearchFailed(SearchOverflow)
    ensures r.Ok? ==> Inside(Blocks(trace, config.initHeights), r.value.1) && r.value.1.view.crossEdgesAdded <= n + 1
  {
    hide Activate, Ready, EstimateDirect, Fits, AddVerifiedDependency, Minimal, Planned, Prepare, Choose;
    var blocks, event := Blocks(trace, config.initHeights), trace[n];
    assert event.source in blocks && event.destination in blocks;
    SourceKnown(config, trace, n);
    PrepareFits(config, blocks, state, event);
    var prepared := Prepare(config, state, event).value;
    BaselineInside(config, blocks, state, event.destination.chain, event.source.chain);
    AdvanceInside(config, blocks, state, event);
    if UsesTrustMap(config.setting) {
      TotalNeverOverflows(config, state, event, found, r);
      SearchFailsByOverflow(config, prepared.view, event, prepared.estimate.cost, found);
      DependencyFits(config.profile, blocks, prepared.view, event.destination, event.source);
    }
  }

  lemma SourceKnown(config: Config, trace: seq<Event>, n: nat)
    requires Minimal(EventBlocks(trace), config.initHeights) && n < |trace|
    ensures trace[n].source.chain in config.initHeights
  {
  }

  lemma AdvanceInside(config: Config, blocks: set<BlockKey>, state: State, event: Event)
    requires Inside(blocks, state) && event.source in blocks
    requires BlockKey(event.source.chain, Baseline(config, state.baselines, event.destination.chain, event.source.chain)) in blocks
    ensures forall view: View :: view.nodes <= blocks ==> Inside(blocks, State(view, NextBaselines(config, state.baselines, event)))
  {
    assert BlockKey(event.source.chain, event.source.height) == event.source;
  }

  lemma SearchFailsByOverflow(config: Config, view: View, event: Event, directCost: uint64, found: Result<Option<SearchSpec.Path>, SearchError>)
    requires ValidConfig(config) && Planned(config, view, event, directCost, found)
    requires event.destination in view.nodes && event.source in view.nodes
    ensures found.Err? ==> found.error == SearchOverflow
  {
    hide SearchSpec.Answers;
  }

  /** On an accepted trace nothing overflows in activation, direct estimation or
      the total, in any setting and at any event: a run can stop only in the search. */
  lemma {:induction false} AcceptedRunFits(config: Config, trace: seq<Event>, log: seq<Decision>, states: seq<State>, n: nat)
    requires Accepted(config, trace) && Run(config, trace, log, states) && n <= |log|
    ensures Inside(Blocks(trace, config.initHeights), states[n]) && states[n].view.crossEdgesAdded <= n
  {
    hide Processes, Accepted, Ready, Blocks, Inside;
    AcceptedIsValid(config, trace);
    InitialInside(Blocks(trace, config.initHeights));
    if n > 0 {
      var k := n - 1;
      AcceptedRunFits(config, trace, log, states, k);
      RunCoherent(config, trace, log, states, k);
      assert Steps(config, states[k], trace[k], log[k], states[k + 1]);
      var found :| Processes(config, states[k], trace[k], found, Ok((log[k], states[k + 1])));
      EventFits(config, trace, states[k], k, found, Ok((log[k], states[k + 1])));
    }
  }

  lemma InitialInside(blocks: set<BlockKey>)
    ensures Inside(blocks, INITIAL)
  {
  }

  lemma AcceptedRunStopsOnlyInSearch(config: Config, trace: seq<Event>, log: seq<Decision>, states: seq<State>, error: ProcessError)
    requires Accepted(config, trace) && Run(config, trace, log, states) && |log| < |trace|
    requires Fails(config, states[|log|], trace[|log|], error)
    ensures error == SearchFailed(SearchOverflow)
  {
    hide Processes, Accepted, Ready, Blocks, Inside, Run;
    AcceptedIsValid(config, trace);
    RunLength(config, trace, log, states);
    AcceptedRunFits(config, trace, log, states, |log|);
    RunCoherent(config, trace, log, states, |log|);
    var found :| Processes(config, states[|log|], trace[|log|], found, Err(error));
    EventFits(config, trace, states[|log|], |log|, found, Err(error));
  }

  lemma AcceptedIsValid(config: Config, trace: seq<Event>)
    requires Accepted(config, trace)
    ensures ValidConfig(config)
  {
  }
}
