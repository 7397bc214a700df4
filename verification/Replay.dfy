/**
 The replay transition on values: baselines, the direct estimate, the planning
 choice, `Process` and its durable twin `Restore`.
 */
module Replay {
  import opened Base
  import opened Costs
  import opened ReplayGraph
  import opened TrustView
  import opened ViewReady
  import opened SearchSpec
  import opened TrustViewObject

  // ---------------------------------------------------------------------
  // Settings and events
  // ---------------------------------------------------------------------

  datatype Setting = B0 | B1 | B2 | B3

  predicate UsesTrustMap(setting: Setting) {
    setting == B2 || setting == B3
  }

  predicate UsesCheckpoint(setting: Setting) {
    setting == B1 || setting == B3
  }

  datatype Event = Event(id: string, sequence: uint64, source: BlockKey, destination: BlockKey, sourceTime: int)

  /** Everything a run keeps fixed. */
  datatype Config = Config(setting: Setting, profile: CostProfile, periods: map<string, uint64>, initHeights: map<string, uint64>)

  predicate ValidConfig(config: Config) {
    && ValidProfile(config.profile)
    && forall chain :: chain in config.periods ==> config.periods[chain] != 0
  }

  type Baselines = map<(string, string), uint64>

  datatype State = State(view: View, baselines: Baselines)

  const INITIAL: State := State(EMPTY_VIEW, map[])

  // ---------------------------------------------------------------------
  // Baselines and the direct estimate
  // ---------------------------------------------------------------------

  /** The baseline a verifier chain holds of a target chain; unseen pairs start at the target's initial height. */
  function Baseline(config: Config, baselines: Baselines, verifier: string, target: string): uint64 {
    if (verifier, target) in baselines then baselines[(verifier, target)]
    else if target in config.initHeights then config.initHeights[target]
    else 0
  }

  /** Reading a baseline stores it. */
  function Touch(config: Config, baselines: Baselines, verifier: string, target: string): Baselines {
    baselines[(verifier, target) := Baseline(config, baselines, verifier, target)]
  }

  function Max(a: uint64, b: uint64): uint64 {
    if b > a then b else a
  }

  /** A verified height raises the baseline and never lowers it. */
  function Advance(config: Config, baselines: Baselines, verifier: string, target: string, height: uint64): Baselines {
    baselines[(verifier, target) := Max(Baseline(config, baselines, verifier, target), height)]
  }

  datatype Estimate = Estimate(baselineBefore: uint64, directStart: uint64, directBlocks: uint64,
                               checkpointConfigured: bool, checkpointPeriod: uint64, checkpointHeight: uint64, checkpointApplied: bool,
                               cost: uint64)

  /** The last checkpoint at or below a height. */
  function Checkpoint(height: uint64, period: uint64): (r: uint64)
    requires period != 0
    ensures r <= height < r + period
  {
    assert height == height / period * period + height % period;
    height / period * period
  }

  /** Above the baseline every block costs a direct step, possibly from a later
      checkpoint; below it every block costs a path step. */
  function EstimateDirect(config: Config, baselines: Baselines, verifier: string, target: string, targetHeight: uint64): Result<Estimate, CostError>
    requires ValidConfig(config)
  {
    var baseline := Baseline(config, baselines, verifier, target);
    if targetHeight >= baseline then
      var configured := UsesCheckpoint(config.setting) && target in config.periods;
      var period := if configured then config.periods[target] else 0;
      var checkpoint := if configured then Checkpoint(targetHeight, period) else 0;
      var applied := configured && checkpoint > baseline;
      var directStart := if applied then checkpoint else baseline;
      match CheckedCost(targetHeight - directStart, config.profile.directStepCost)
      case Err(error) => Err(error)
      case Ok(cost) =>
        Ok(Estimate(baseline, directStart, targetHeight - directStart, configured, period, checkpoint, applied, cost))
    else
      match CheckedCost(baseline - targetHeight, config.profile.pathStepCost)
      case Err(error) => Err(error)
      case Ok(cost) => Ok(Estimate(baseline, baseline, baseline - targetHeight, false, 0, 0, false, cost))
  }

  // ---------------------------------------------------------------------
  // Decisions
  // ---------------------------------------------------------------------

  datatype DecisionKind = Direct | TrustMap

  const NO_PATH: Path := Path(0, [], [])

  datatype Decision = Decision(
    eventID: string, sequence: uint64, setting: Setting, kind: DecisionKind, planningEnabled: bool,
    estimate: Estimate, baselineAfter: uint64,
    pathFound: bool, pathCost: uint64, trustMapTotalCost: uint64, chosenCost: uint64, path: Path,
    graphNodes: nat, graphEdges: int, crossEdgesAdded: uint64)

  datatype ProcessError =
    | ActivationFailed(view: ViewError)
    | EstimateFailed
    | SearchFailed(search: SearchError)
    | TotalOverflow
    | DependencyFailed(view: ViewError)

  datatype Choice = Choice(useTrustMap: bool, pathFound: bool, path: Path, totalCost: uint64)

  /** Trust-map only when strictly cheaper than the direct verification. */
  function Choose(profile: CostProfile, directCost: uint64, found: Option<Path>): Result<Choice, CostError> {
    match found
    case None => Ok(Choice(false, false, NO_PATH, directCost))
    case Some(path) =>
      match CheckedAdd(path.cost, profile.trustRootUpdateCost)
      case Err(error) => Err(error)
      case Ok(total) =>
        if total < directCost then Ok(Choice(true, true, path, total)) else Ok(Choice(false, true, path, directCost))
  }

  /** What the planner sees: no search at all when the update alone is not cheaper. */
  ghost predicate Planned(config: Config, view: View, event: Event, directCost: uint64, found: Result<Option<Path>, SearchError>)
    requires ValidConfig(config)
  {
    var start, goal := event.destination, event.source;
    if directCost <= config.profile.trustRootUpdateCost then found == Ok(None)
    else SearchOutcome(config.profile, view, start, goal, directCost - config.profile.trustRootUpdateCost, goal.chain, goal.height, found)
  }

  datatype Prepared = Prepared(view: View, estimate: Estimate)

  /** Both blocks active, if the setting plans. */
  function ActivateBoth(config: Config, view: View, event: Event): Result<View, ViewError> {
    if !UsesTrustMap(config.setting) then Ok(view)
    else
      match Activate(config.profile, view, event.destination)
      case Err(error) => Err(error)
      case Ok(view1) => Activate(config.profile, view1, event.source)
  }

  /** Activation of both blocks and the direct estimate. */
  function Prepare(config: Config, state: State, event: Event): Result<Prepared, ProcessError>
    requires ValidConfig(config)
  {
    match ActivateBoth(config, state.view, event)
    case Err(error) => Err(ActivationFailed(error))
    case Ok(view) =>
      match EstimateDirect(config, state.baselines, event.destination.chain, event.source.chain, event.source.height)
      case Err(_) => Err(EstimateFailed)
      case Ok(estimate) => Ok(Prepared(view, estimate))
  }

  function NextBaselines(config: Config, baselines: Baselines, event: Event): Baselines {
    Advance(config, baselines, event.destination.chain, event.source.chain, event.source.height)
  }

  /** Record the choice: advance the baseline and, when planning, add the dependency. */
  function Record(config: Config, state: State, event: Event, estimate: Estimate, choice: Choice): Result<(Decision, State), ProcessError>
    requires choice.pathFound ==> choice.path.cost + config.profile.trustRootUpdateCost <= MAX_UINT64
  {
    var baselines' := NextBaselines(config, state.baselines, event);
    var after := baselines'[(event.destination.chain, event.source.chain)];
    if !UsesTrustMap(config.setting) then
      Ok((Decision(event.id, event.sequence, config.setting, Direct, false, estimate, after,
                   false, 0, 0, estimate.cost, NO_PATH, 0, 0, 0),
          State(state.view, baselines')))
    else
      match AddVerifiedDependency(config.profile, state.view, event.destination, event.source)
      case (_, Some(error)) => Err(DependencyFailed(error))
      case (view', None) =>
        var total := if choice.pathFound then choice.path.cost + config.profile.trustRootUpdateCost else 0;
        Ok((Decision(event.id, event.sequence, config.setting, if choice.useTrustMap then TrustMap else Direct, true,
                     estimate, after, choice.pathFound, choice.path.cost, total,
                     if choice.useTrustMap then choice.totalCost else estimate.cost, choice.path,
                     |view'.nodes|, view'.edgeCount, view'.crossEdgesAdded),
            State(view', baselines')))
  }

  /** The rest of the transition, given what the planner found. */
  function Conclude(config: Config, state: State, event: Event, prepared: Prepared, found: Result<Option<Path>, SearchError>): Result<(Decision, State), ProcessError>
    requires ValidConfig(config)
  {
    var choice :=
      if !UsesTrustMap(config.setting) then Ok(Choice(false, false, NO_PATH, prepared.estimate.cost))
      else
        match found
        case Err(error) => Err(SearchFailed(error))
        case Ok(path) =>
          match Choose(config.profile, prepared.estimate.cost, path)
          case Err(_) => Err(TotalOverflow)
          case Ok(chosen) => Ok(chosen);
    match choice
    case Err(error) => Err(error)
    case Ok(chosen) => Record(config, State(prepared.view, state.baselines), event, prepared.estimate, chosen)
  }

  /** `Process`: the event's outcome, with the planner's finding as the only thing not written as a function. */
  ghost predicate Processes(config: Config, state: State, event: Event, found: Result<Option<Path>, SearchError>, r: Result<(Decision, State), ProcessError>)
    requires ValidConfig(config)
  {
    match Prepare(config, state, event)
    case Err(error) => r == Err(error)
    case Ok(prepared) =>
      && (UsesTrustMap(config.setting) ==> Planned(config, prepared.view, event, prepared.estimate.cost, found))
      && r == Conclude(config, state, event, prepared, found)
  }

  /** Processing is deterministic. */
  lemma ProcessDeterministic(config: Config, state: State, event: Event,
                             found1: Result<Option<Path>, SearchError>, r1: Result<(Decision, State), ProcessError>,
                             found2: Result<Option<Path>, SearchError>, r2: Result<(Decision, State), ProcessError>)
    requires ValidConfig(config)
    requires Processes(config, state, event, found1, r1) && Processes(config, state, event, found2, r2)
    ensures r1 == r2
  {
    hide SearchOutcome, Activate, AddVerifiedDependency, EstimateDirect;
    var prepared := Prepare(config, state, event);
    if prepared.Ok? && UsesTrustMap(config.setting) && prepared.value.estimate.cost > config.profile.trustRootUpdateCost {
      SearchOutcomeUnique(config.profile, prepared.value.view, event.destination, event.source,
                          prepared.value.estimate.cost - config.profile.trustRootUpdateCost, event.source.chain, event.source.height,
                          found1, found2);
    }
    if UsesTrustMap(config.setting) {
      assert prepared.Ok? ==> found1 == found2;
    }
  }

  lemma PrepareKeepsReady(config: Config, state: State, event: Event)
    requires ValidConfig(config) && Ready(state.view) && Prepare(config, state, event).Ok?
    ensures var view := Prepare(config, state, event).value.view;
            && Ready(view)
            && (UsesTrustMap(config.setting) ==> event.destination in view.nodes && event.source in view.nodes)
  {
    hide Activate, Ready, EstimateDirect;
    if UsesTrustMap(config.setting) {
      ActivateKeepsReady(config.profile, state.view, event.destination);
      ActivateKeepsReady(config.profile, Activate(config.profile, state.view, event.destination).value, event.source);
    }
  }

  lemma ProcessKeepsReady(config: Config, state: State, event: Event, found: Result<Option<Path>, SearchError>, r: Result<(Decision, State), ProcessError>)
    requires ValidConfig(config) && Ready(state.view) && Processes(config, state, event, found, r) && r.Ok?
    ensures Ready(r.value.1.view)
  {
    hide Activate, Ready, EstimateDirect, AddVerifiedDependency, Planned;
    PrepareKeepsReady(config, state, event);
    if UsesTrustMap(config.setting) {
      DependencyKeepsReady(config.profile, Prepare(config, state, event).value.view, event.destination, event.source);
    }
  }

  // ---------------------------------------------------------------------
  // Restore
  // ---------------------------------------------------------------------

  datatype RestoreError =
    | IdentityMismatch
    | RestoreActivationFailed
    | BaselineBeforeMismatch
    | RestoreEstimateFailed
    | DecisionMismatch
    | BaselineAfterMismatch
    | RestoreDependencyFailed
    | CounterMismatch

  /** The checked sum of the remaining segments, if each is an edge of the view between adjacent nodes. */
  function SegmentsCost(adj: Adjacency, path: Path, i: nat, cost: uint64): Option<uint64>
    requires i <= |path.segments| < |path.nodes|
    decreases |path.segments| - i
  {
    if i == |path.segments| then Some(cost)
    else if EdgeSegment(adj, path.nodes[i], path.nodes[i + 1]) != Some(path.segments[i]) then None
    else
      match CheckedAdd(cost, path.segments[i].weight)
      case Err(_) => None
      case Ok(sum) => SegmentsCost(adj, path, i + 1, sum)
  }

  predicate NoPathRecorded(decision: Decision) {
    && decision.kind == Direct && decision.chosenCost == decision.estimate.cost && !decision.pathFound
    && decision.pathCost == 0 && decision.trustMapTotalCost == 0 && decision.path.nodes == [] && decision.path.segments == []
  }

  predicate PathRecorded(config: Config, adj: Adjacency, event: Event, decision: Decision) {
    var path := decision.path;
    && path.nodes != [] && |path.segments| + 1 == |path.nodes|
    && path.nodes[0] == event.destination && path.nodes[|path.nodes| - 1] == event.source
    && SegmentsCost(adj, path, 0, 0) == Some(path.cost)
    && decision.pathCost == path.cost
    && var total := CheckedAdd(path.cost, config.profile.trustRootUpdateCost);
       && total == Ok(decision.trustMapTotalCost)
       && if decision.kind == TrustMap
          then decision.trustMapTotalCost < decision.estimate.cost && decision.chosenCost == decision.trustMapTotalCost
          else decision.trustMapTotalCost >= decision.estimate.cost && decision.chosenCost == decision.estimate.cost
  }

  predicate ValidRestored(config: Config, adj: Adjacency, event: Event, decision: Decision, estimate: Estimate) {
    && decision.planningEnabled == UsesTrustMap(config.setting)
    && decision.estimate == estimate
    && decision.baselineAfter == Max(decision.estimate.baselineBefore, event.source.height)
    && if !decision.planningEnabled || !decision.pathFound then NoPathRecorded(decision)
       else PathRecorded(config, adj, event, decision)
  }

  /** The end of a restore: advance the baseline, add the dependency, compare the counters. */
  function FinishRestore(config: Config, state: State, event: Event, decision: Decision): Result<State, RestoreError> {
    var baselines' := NextBaselines(config, state.baselines, event);
    if baselines'[(event.destination.chain, event.source.chain)] != decision.baselineAfter then Err(BaselineAfterMismatch)
    else
      var added := if UsesTrustMap(config.setting)
                   then AddVerifiedDependency(config.profile, state.view, event.destination, event.source)
                   else (state.view, None);
      if added.1.Some? then Err(RestoreDependencyFailed)
      else if |added.0.nodes| != decision.graphNodes || added.0.edgeCount != decision.graphEdges
              || added.0.crossEdgesAdded != decision.crossEdgesAdded then Err(CounterMismatch)
      else Ok(State(added.0, baselines'))
  }

  /** The committed transition, applied without planning. */
  function Restore(config: Config, state: State, event: Event, decision: Decision): Result<State, RestoreError>
    requires ValidConfig(config)
  {
    if decision.eventID != event.id || decision.sequence != event.sequence || decision.setting != config.setting then Err(IdentityMismatch)
    else
      var before := Baseline(config, state.baselines, event.destination.chain, event.source.chain);
      match Prepare(config, state, event)
      case Err(ActivationFailed(_)) => Err(RestoreActivationFailed)
      case Err(_) => Err(if before != decision.estimate.baselineBefore then BaselineBeforeMismatch else RestoreEstimateFailed)
      case Ok(prepared) =>
        if before != decision.estimate.baselineBefore then Err(BaselineBeforeMismatch)
        else if !ValidRestored(config, prepared.view.adjacency, event, decision, prepared.estimate) then Err(DecisionMismatch)
        else FinishRestore(config, State(prepared.view, state.baselines), event, decision)
  }

  /** The segments of a reported path sum to its cost without overflow. */
  lemma {:induction false} SegmentsSum(adj: Adjacency, path: Path, i: nat, cost: uint64)
    requires IsWalk(adj, path.nodes) && SegmentsOf(adj, path.nodes, path.segments)
    requires i <= |path.segments| && cost == Weight(adj, path.nodes[..i + 1])
    requires Weight(adj, path.nodes) <= MAX_UINT64
    ensures SegmentsCost(adj, path, i, cost) == Some(Weight(adj, path.nodes))
    decreases |path.segments| - i
  {
    if i == |path.segments| {
      assert path.nodes[..i + 1] == path.nodes;
    } else {
      assert EdgeSegment(adj, path.nodes[i], path.nodes[i + 1]) == Some(path.segments[i]);
      assert path.nodes[..i + 2][..i + 1] == path.nodes[..i + 1];
      PrefixWeight(adj, path.nodes, i + 2);
      SegmentsSum(adj, path, i + 1, Weight(adj, path.nodes[..i + 2]));
    }
  }

  lemma {:induction false} PrefixWeight(adj: Adjacency, w: seq<BlockKey>, n: nat)
    requires IsWalk(adj, w) && 0 < n <= |w|
    ensures IsWalk(adj, w[..n]) && Weight(adj, w[..n]) <= Weight(adj, w)
    decreases |w|
  {
    if n < |w| {
      var front := w[..|w| - 1];
      assert front[..n] == w[..n];
      assert IsWalk(adj, front);
      PrefixWeight(adj, front, n);
    } else {
      assert w[..n] == w;
    }
  }

  lemma AnswerIsRecordable(q: Query, path: Path)
    requires Answers(q, Found(path))
    ensures path.nodes != [] && |path.segments| + 1 == |path.nodes|
    ensures path.nodes[0] == q.start && path.nodes[|path.nodes| - 1] == q.goal
    ensures SegmentsCost(q.adj, path, 0, 0) == Some(path.cost)
    ensures path.cost <= q.cutoff
  {
    AnswerIsExact(q, Found(path));
    SegmentsSum(q.adj, path, 0, 0);
  }

  /** Whatever the planner reports is acceptable as a recorded path. */
  lemma FoundIsRecordable(config: Config, view: View, event: Event, directCost: uint64, path: Path)
    requires ValidConfig(config) && Planned(config, view, event, directCost, Ok(Some(path)))
    ensures path.nodes != [] && |path.segments| + 1 == |path.nodes|
    ensures path.nodes[0] == event.destination && path.nodes[|path.nodes| - 1] == event.source
    ensures SegmentsCost(view.adjacency, path, 0, 0) == Some(path.cost)
    ensures config.profile.trustRootUpdateCost < directCost
    ensures path.cost <= directCost - config.profile.trustRootUpdateCost
  {
    hide Answers;
    if event.destination != event.source {
      var q := SearchQuery(config.profile, view.adjacency, event.destination, event.source,
                           directCost - config.profile.trustRootUpdateCost, event.source.chain, event.source.height);
      AnswerIsRecordable(q, path);
    }
  }

  /** Settings that do not plan never touch the view. */
  ghost predicate Coherent(config: Config, state: State) {
    Ready(state.view) && (!UsesTrustMap(config.setting) ==> state.view == EMPTY_VIEW)
  }

  lemma ProcessKeepsCoherent(config: Config, state: State, event: Event, found: Result<Option<Path>, SearchError>, r: Result<(Decision, State), ProcessError>)
    requires ValidConfig(config) && Coherent(config, state) && Processes(config, state, event, found, r) && r.Ok?
    ensures Coherent(config, r.value.1)
  {
    hide Activate, Ready, EstimateDirect, AddVerifiedDependency, Planned;
    ProcessKeepsReady(config, state, event, found, r);
  }

  lemma RestoreKeepsCoherent(config: Config, state: State, event: Event, decision: Decision)
    requires ValidConfig(config) && Coherent(config, state) && Restore(config, state, event, decision).Ok?
    ensures Coherent(config, Restore(config, state, event, decision).value)
  {
    hide Ready, Activate, AddVerifiedDependency, EstimateDirect, ValidRestored, Baseline, NextBaselines;
    PrepareKeepsReady(config, state, event);
    if UsesTrustMap(config.setting) {
      DependencyKeepsReady(config.profile, Prepare(config, state, event).value.view, event.destination, event.source);
    }
  }

  /** Restoring a committed decision accepts it and reproduces the state that processing reached. */
  lemma RestoreReproduces(config: Config, state: State, event: Event, found: Result<Option<Path>, SearchError>, decision: Decision, state': State)
    requires ValidConfig(config) && Coherent(config, state)
    requires Processes(config, state, event, found, Ok((decision, state')))
    ensures Restore(config, state, event, decision) == Ok(state')
  {
    hide Activate, Ready, AddVerifiedDependency, Planned, SegmentsCost;
    var prepared := Prepare(config, state, event).value;
    EstimateReadsBaseline(config, state, event);
    if UsesTrustMap(config.setting) && found.Ok? && found.value.Some? {
      FoundIsRecordable(config, prepared.view, event, prepared.estimate.cost, found.value.value);
    }
  }

  lemma EstimateReadsBaseline(config: Config, state: State, event: Event)
    requires ValidConfig(config) && Prepare(config, state, event).Ok?
    ensures Prepare(config, state, event).value.estimate.baselineBefore
         == Baseline(config, state.baselines, event.destination.chain, event.source.chain)
  {
    hide Activate;
  }

  // ---------------------------------------------------------------------
  // The choice
  // ---------------------------------------------------------------------

  /** `cost` is what verifying through the graph would cost: an admissible walk plus the root update. */
  ghost predicate GraphCost(config: Config, view: View, event: Event, directCost: uint64, cost: nat)
    requires ValidConfig(config)
  {
    && config.profile.trustRootUpdateCost < directCost
    && var q := SearchQuery(config.profile, view.adjacency, event.destination, event.source,
                            directCost - config.profile.trustRootUpdateCost, event.source.chain, event.source.height);
       exists w :: Filtered(q, w, event.source) && Weight(view.adjacency, w) <= q.cutoff
                   && cost == Weight(view.adjacency, w) + config.profile.trustRootUpdateCost
  }

  /** The planner's finding is the cheapest admissible walk. */
  lemma FoundIsCheapest(config: Config, view: View, event: Event, directCost: uint64, found: Result<Option<Path>, SearchError>)
    requires ValidConfig(config) && Planned(config, view, event, directCost, found) && found.Ok?
    requires event.destination in view.nodes && event.source in view.nodes
    ensures found.value.Some? ==> GraphCost(config, view, event, directCost, found.value.value.cost + config.profile.trustRootUpdateCost)
    ensures forall cost :: GraphCost(config, view, event, directCost, cost) ==>
              found.value.Some? && found.value.value.cost + config.profile.trustRootUpdateCost <= cost
  {
    hide Answers, Filtered, Weight;
    if config.profile.trustRootUpdateCost < directCost {
      if event.destination == event.source {
        NoWayIsCheapest(config, view, event, directCost);
      } else {
        var q := SearchQuery(config.profile, view.adjacency, event.destination, event.source,
                             directCost - config.profile.trustRootUpdateCost, event.source.chain, event.source.height);
        AnswerIsExact(q, AnswerOf(found));
      }
    }
  }

  /** From a block to itself the graph costs the update alone. */
  lemma NoWayIsCheapest(config: Config, view: View, event: Event, directCost: uint64)
    requires ValidConfig(config) && event.destination == event.source && config.profile.trustRootUpdateCost < directCost
    ensures GraphCost(config, view, event, directCost, config.profile.trustRootUpdateCost)
  {
    var q := SearchQuery(config.profile, view.adjacency, event.destination, event.source,
                         directCost - config.profile.trustRootUpdateCost, event.source.chain, event.source.height);
    assert Filtered(q, [event.source], event.source) && Weight(view.adjacency, [event.source]) == 0;
  }

  /** The chosen cost is the minimum of the direct cost and every admissible
      graph cost; trust-map is chosen exactly when the graph is strictly cheaper. */
  lemma ChoiceIsOptimal(config: Config, state: State, event: Event, found: Result<Option<Path>, SearchError>, decision: Decision, state': State)
    requires ValidConfig(config) && Ready(state.view) && UsesTrustMap(config.setting)
    requires Processes(config, state, event, found, Ok((decision, state')))
    ensures decision.chosenCost <= decision.estimate.cost
    ensures var view := Prepare(config, state, event).value.view;
            && (forall cost :: GraphCost(config, view, event, decision.estimate.cost, cost) ==> decision.chosenCost <= cost)
            && (decision.kind == TrustMap ==> GraphCost(config, view, event, decision.estimate.cost, decision.chosenCost))
            && (decision.kind == TrustMap <==> decision.chosenCost < decision.estimate.cost)
            && (decision.kind == Direct ==> decision.chosenCost == decision.estimate.cost)
  {
    hide Activate, Ready, AddVerifiedDependency, Planned, GraphCost, EstimateDirect;
    var prepared := Prepare(config, state, event).value;
    PrepareKeepsReady(config, state, event);
    FoundIsCheapest(config, prepared.view, event, prepared.estimate.cost, found);
  }

  /** Adding the update cost to a reported path never overflows, whatever the trace. */
  lemma TotalNeverOverflows(config: Config, state: State, event: Event, found: Result<Option<Path>, SearchError>, r: Result<(Decision, State), ProcessError>)
    requires ValidConfig(config) && Processes(config, state, event, found, r)
    ensures r != Err(TotalOverflow)
  {
    hide Activate, AddVerifiedDependency, Planned, EstimateDirect;
    var prepared := Prepare(config, state, event);
    if prepared.Ok? && UsesTrustMap(config.setting) && found.Ok? && found.value.Some? {
      FoundIsRecordable(config, prepared.value.view, event, prepared.value.estimate.cost, found.value.value);
    }
  }
}
