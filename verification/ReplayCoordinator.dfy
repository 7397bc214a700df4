/** The replay coordinator as an object over a trust view and its baselines. */
module ReplayCoordinator {
  import opened Base
  import opened Costs
  import opened ReplayGraph
  import opened TrustView
  import opened ViewReady
  import opened SearchSpec
  import opened TrustViewObject
  import opened Replay
  import Scratch

  class ReplayBaselines {
    const config: Config
    var values: Baselines

    constructor (config: Config)
      ensures values == map[] && this.config == config
    {
      this.config, values := config, map[];
    }

    method Get(verifier: string, target: string) returns (value: uint64)
      modifies this
      ensures value == Baseline(config, old(values), verifier, target)
      ensures values == Touch(config, old(values), verifier, target)
    {
      if (verifier, target) in values {
        value := values[(verifier, target)];
        assert values == values[(verifier, target) := value];
        return;
      }
      value := if target in config.initHeights then config.initHeights[target] else 0;
      values := values[(verifier, target) := value];
    }

    method Advance(verifier: string, target: string, height: uint64) returns (current: uint64)
      modifies this
      ensures values == Replay.Advance(config, old(values), verifier, target, height)
      ensures current == values[(verifier, target)]
    {
      if (verifier, target) in values {
        current := values[(verifier, target)];
      } else {
        current := if target in config.initHeights then config.initHeights[target] else 0;
      }
      if height > current {
        current := height;
      }
      values := values[(verifier, target) := current];
    }

    method EstimateDirect(verifier: string, target: string, targetHeight: uint64) returns (r: Result<Estimate, CostError>)
      requires ValidConfig(config)
      modifies this
      ensures r == Replay.EstimateDirect(config, old(values), verifier, target, targetHeight)
      ensures values == Touch(config, old(values), verifier, target)
    {
      var baseline := Get(verifier, target);
      var directStart, configured, period, checkpoint, applied := baseline, false, 0, 0, false;
      if targetHeight >= baseline {
        if UsesCheckpoint(config.setting) {
          if target in config.periods {
            period := config.periods[target];
            checkpoint := Checkpoint(targetHeight, period);
            configured := true;
            if checkpoint > directStart {
              directStart := checkpoint;
              applied := true;
            }
          }
        }
        var directBlocks := targetHeight - directStart;
        var cost := CheckedCost(directBlocks, config.profile.directStepCost);
        if cost.Err? {
          return Err(cost.error);
        }
        return Ok(Estimate(baseline, directStart, directBlocks, configured, period, checkpoint, applied, cost.value));
      }
      var directBlocks := baseline - targetHeight;
      var cost := CheckedCost(directBlocks, config.profile.pathStepCost);
      if cost.Err? {
        return Err(cost.error);
      }
      return Ok(Estimate(baseline, directStart, directBlocks, configured, period, checkpoint, applied, cost.value));
    }
  }

  /** Touching a baseline first changes nothing about advancing it. */
  lemma AdvanceAfterTouch(config: Config, baselines: Baselines, verifier: string, target: string, height: uint64)
    ensures Replay.Advance(config, Touch(config, baselines, verifier, target), verifier, target, height)
         == Replay.Advance(config, baselines, verifier, target, height)
    ensures Touch(config, Touch(config, baselines, verifier, target), verifier, target) == Touch(config, baselines, verifier, target)
    ensures Baseline(config, Touch(config, baselines, verifier, target), verifier, target) == Baseline(config, baselines, verifier, target)
  {
  }

  class Coordinator {
    const config: Config
    const view: ReplayTrustView
    const baselines: ReplayBaselines

    ghost predicate Valid()
      reads this, view, view.heights.Values, view.owned, baselines
      ensures Valid() ==> ValidConfig(config)
    {
      && ValidConfig(config) && view.Valid() && view.Owns() && view.profile == config.profile && baselines.config == config
      && Coherent(config, State())
    }

    ghost function State(): Replay.State
      reads this, view, baselines
    {
      Replay.State(view.State(), baselines.values)
    }

    constructor (config: Config)
      requires ValidConfig(config)
      ensures Valid() && State() == INITIAL && this.config == config
      ensures fresh(view) && fresh(view.heights.Values) && fresh(view.owned) && fresh(baselines)
    {
      this.config := config;
      view := new ReplayTrustView(config.profile);
      baselines := new ReplayBaselines(config);
      new;
      EmptyIsReady();
    }

    /** Activate both blocks when planning. */
    method ActivateBlocks(event: Event) returns (r: Result<(), ViewError>)
      requires ValidConfig(config) && view.Valid() && view.Owns() && view.profile == config.profile
      modifies view, view.heights.Values, view.owned
      ensures view.Valid() && view.Owns() && fresh(view.heights.Values - old(view.heights.Values)) && fresh(view.owned - old(view.owned))
      ensures match ActivateBoth(config, old(view.State()), event)
              case Err(error) => r == Err(error)
              case Ok(activated) => r == Ok(()) && view.State() == activated
    {
      hide Ready, Activate, ReplayTrustView.Owns;
      if UsesTrustMap(config.setting) {
        var start := view.Activate(event.destination);
        if start.Err? {
          return Err(start.error);
        }
        var goal := view.Activate(event.source);
        if goal.Err? {
          return Err(goal.error);
        }
      }
      return Ok(());
    }

    /** Activate both blocks, then estimate the direct cost. */
    method Prepare(event: Event) returns (r: Result<Estimate, ProcessError>)
      requires Valid()
      modifies view, view.heights.Values, view.owned, baselines
      ensures view.Valid() && view.Owns() && fresh(view.heights.Values - old(view.heights.Values)) && fresh(view.owned - old(view.owned))
      ensures match Replay.Prepare(config, old(State()), event)
              case Err(error) => r == Err(error)
              case Ok(prepared) =>
                && r == Ok(prepared.estimate) && view.State() == prepared.view
                && baselines.values == Touch(config, old(baselines.values), event.destination.chain, event.source.chain)
    {
      hide Ready, ActivateBoth, Replay.EstimateDirect, Touch, ReplayTrustView.Owns;
      var activated := ActivateBlocks(event);
      if activated.Err? {
        return Err(ActivationFailed(activated.error));
      }
      var estimate := baselines.EstimateDirect(event.destination.chain, event.source.chain, event.source.height);
      if estimate.Err? {
        return Err(EstimateFailed);
      }
      return Ok(estimate.value);
    }

    /** The planner: search only if the root update alone is cheaper than verifying directly. */
    method Plan(event: Event, directCost: uint64, scratch: Scratch.SearchScratch) returns (found: Result<Option<Path>, SearchError>)
      requires ValidConfig(config) && view.Valid() && view.profile == config.profile && scratch.Valid()
      modifies scratch
      ensures scratch.Valid()
      ensures Planned(config, view.State(), event, directCost, found)
    {
      hide Ready, SearchOutcome;
      if directCost <= config.profile.trustRootUpdateCost {
        return Ok(None);
      }
      var cutoff := directCost - config.profile.trustRootUpdateCost;
      found := view.ShortestPath(event.destination, event.source, cutoff, event.source.chain, event.source.height, scratch);
    }

    /** Advance the baseline and, when planning, add the dependency. */
    method Record(event: Event, estimate: Estimate, choice: Choice) returns (r: Result<Decision, ProcessError>)
      requires ValidConfig(config) && view.Valid() && view.Owns() && view.profile == config.profile && baselines.config == config
      requires choice.pathFound ==> choice.path.cost + config.profile.trustRootUpdateCost <= MAX_UINT64
      modifies view, view.heights.Values, view.owned, baselines
      ensures view.Valid() && view.Owns() && fresh(view.heights.Values - old(view.heights.Values)) && fresh(view.owned - old(view.owned))
      ensures match Replay.Record(config, old(State()), event, estimate, choice)
              case Err(error) => r == Err(error)
              case Ok((decision, state)) => r == Ok(decision) && State() == state
    {
      hide Ready, Replay.Advance, AddVerifiedDependency, ReplayTrustView.Owns;
      var after := baselines.Advance(event.destination.chain, event.source.chain, event.source.height);
      if !UsesTrustMap(config.setting) {
        return Ok(Decision(event.id, event.sequence, config.setting, Direct, false, estimate, after,
                           false, 0, 0, estimate.cost, NO_PATH, 0, 0, 0));
      }
      var kind := if choice.useTrustMap then TrustMap else Direct;
      var chosenCost := if choice.useTrustMap then choice.totalCost else estimate.cost;
      var total := if choice.pathFound then choice.path.cost + config.profile.trustRootUpdateCost else 0;
      var added := view.AddVerifiedDependency(event.destination, event.source);
      if added.Err? {
        return Err(DependencyFailed(added.error));
      }
      return Ok(Decision(event.id, event.sequence, config.setting, kind, true, estimate, after,
                         choice.pathFound, choice.path.cost, total, chosenCost, choice.path,
                         |view.nodes|, view.edgeCount, view.crossEdgesAdded));
    }

    method Process(event: Event, scratch: Scratch.SearchScratch)
      returns (r: Result<Decision, ProcessError>, ghost found: Result<Option<Path>, SearchError>)
      requires Valid() && scratch.Valid()
      modifies view, view.heights.Values, view.owned, baselines, scratch
      ensures scratch.Valid() && fresh(view.heights.Values - old(view.heights.Values)) && fresh(view.owned - old(view.owned))
      ensures r.Ok? ==> Valid() && Processes(config, old(State()), event, found, Ok((r.value, State())))
      ensures r.Err? ==> Processes(config, old(State()), event, found, Err(r.error))
    {
      hide Ready, Replay.Prepare, Replay.Record, Touch, Planned, ReplayTrustView.Owns, Coherent;
      ghost var before := State();
      found := Ok(None);
      var prepared := Prepare(event);
      if prepared.Err? {
        return Err(prepared.error), found;
      }
      var estimate := prepared.value;
      var choice := Choice(false, false, NO_PATH, estimate.cost);
      if UsesTrustMap(config.setting) {
        var searched := Plan(event, estimate.cost, scratch);
        found := searched;
        if searched.Err? {
          return Err(SearchFailed(searched.error)), found;
        }
        var chosen := Choose(config.profile, estimate.cost, searched.value);
        if chosen.Err? {
          return Err(TotalOverflow), found;
        }
        choice := chosen.value;
      }
      RecordAfterTouch(config, view.State(), before.baselines, event, estimate, choice);
      r := Record(event, estimate, choice);
      if r.Ok? {
        ProcessKeepsCoherent(config, before, event, found, Ok((r.value, State())));
      }
    }

    /** The read-only checks on a decision read back from the log. */
    method ValidateRestoredDecision(event: Event, decision: Decision, estimate: Estimate) returns (ok: bool)
      requires ValidConfig(config)
      ensures ok <==> ValidRestored(config, view.adjacency, event, decision, estimate)
    {
      if decision.planningEnabled != UsesTrustMap(config.setting) || decision.estimate != estimate {
        return false;
      }
      var expectedAfter := decision.estimate.baselineBefore;
      if event.source.height > expectedAfter {
        expectedAfter := event.source.height;
      }
      if decision.baselineAfter != expectedAfter {
        return false;
      }
      if !decision.planningEnabled || !decision.pathFound {
        return NoPathRecorded(decision);
      }
      var path := decision.path;
      if |path.nodes| == 0 || |path.segments| + 1 != |path.nodes| || path.nodes[0] != event.destination
         || path.nodes[|path.nodes| - 1] != event.source {
        return false;
      }
      var pathCost: uint64 := 0;
      for index := 0 to |path.segments|
        invariant SegmentsCost(view.adjacency, path, index, pathCost) == SegmentsCost(view.adjacency, path, 0, 0)
      {
        var segment := path.segments[index];
        if EdgeSegment(view.adjacency, path.nodes[index], path.nodes[index + 1]) != Some(segment) {
          return false;
        }
        var sum := CheckedAdd(pathCost, segment.weight);
        if sum.Err? {
          return false;
        }
        pathCost := sum.value;
      }
      if path.cost != pathCost || decision.pathCost != pathCost {
        return false;
      }
      var total := CheckedAdd(pathCost, config.profile.trustRootUpdateCost);
      if total.Err? || decision.trustMapTotalCost != total.value {
        return false;
      }
      if decision.kind == TrustMap {
        return total.value < decision.estimate.cost && decision.chosenCost == total.value;
      }
      return total.value >= decision.estimate.cost && decision.chosenCost == decision.estimate.cost;
    }

    /** The checks that precede a restore's changes. */
    method CheckRestored(event: Event, decision: Decision) returns (error: Option<RestoreError>)
      requires ValidConfig(config) && baselines.config == config
      modifies baselines
      ensures var verifier, target := event.destination.chain, event.source.chain;
              && baselines.values == Touch(config, old(baselines.values), verifier, target)
              && error == if Baseline(config, old(baselines.values), verifier, target) != decision.estimate.baselineBefore
                          then Some(BaselineBeforeMismatch)
                          else match Replay.EstimateDirect(config, old(baselines.values), verifier, target, event.source.height)
                               case Err(_) => Some(RestoreEstimateFailed)
                               case Ok(estimate) =>
                                 if ValidRestored(config, view.adjacency, event, decision, estimate) then None else Some(DecisionMismatch)
    {
      hide Touch, Replay.EstimateDirect, ValidRestored, Baseline;
      ghost var before := baselines.values;
      AdvanceAfterTouch(config, before, event.destination.chain, event.source.chain, event.source.height);
      EstimateAfterTouch(config, before, event.destination.chain, event.source.chain, event.source.height);
      var baseline := baselines.Get(event.destination.chain, event.source.chain);
      if baseline != decision.estimate.baselineBefore {
        return Some(BaselineBeforeMismatch);
      }
      var estimate := baselines.EstimateDirect(event.destination.chain, event.source.chain, event.source.height);
      if estimate.Err? {
        return Some(RestoreEstimateFailed);
      }
      var ok := ValidateRestoredDecision(event, decision, estimate.value);
      return if ok then None else Some(DecisionMismatch);
    }

    method Restore(event: Event, decision: Decision) returns (r: Result<(), RestoreError>)
      requires Valid()
      modifies view, view.heights.Values, view.owned, baselines
      ensures fresh(view.heights.Values - old(view.heights.Values)) && fresh(view.owned - old(view.owned))
      ensures match Replay.Restore(config, old(State()), event, decision)
              case Ok(state) => r == Ok(()) && State() == state
              case Err(error) => r == Err(error)
      ensures r.Ok? ==> Valid()
    {
      hide Ready, ActivateBoth, FinishRestore, Touch, Replay.EstimateDirect, ValidRestored, Baseline, ReplayTrustView.Owns, Coherent;
      ghost var before := State();
      if decision.eventID != event.id || decision.sequence != event.sequence || decision.setting != config.setting {
        return Err(IdentityMismatch);
      }
      var activated := ActivateBlocks(event);
      if activated.Err? {
        return Err(RestoreActivationFailed);
      }
      var checked := CheckRestored(event, decision);
      if checked.Some? {
        return Err(checked.value);
      }
      FinishAfterTouch(config, view.State(), before.baselines, event, decision);
      r := FinishRestored(event, decision);
      if r.Ok? {
        RestoreKeepsCoherent(config, before, event, decision);
      }
    }

    /** The committed changes, and the counters they must lead to. */
    method FinishRestored(event: Event, decision: Decision) returns (r: Result<(), RestoreError>)
      requires ValidConfig(config) && view.Valid() && view.Owns() && view.profile == config.profile && baselines.config == config
      modifies view, view.heights.Values, view.owned, baselines
      ensures view.Valid() && view.Owns() && fresh(view.heights.Values - old(view.heights.Values)) && fresh(view.owned - old(view.owned))
      ensures match FinishRestore(config, old(State()), event, decision)
              case Ok(state) => r == Ok(()) && State() == state
              case Err(error) => r == Err(error)
    {
      hide Ready, AddVerifiedDependency, Replay.Advance, ReplayTrustView.Owns;
      var after := baselines.Advance(event.destination.chain, event.source.chain, event.source.height);
      if after != decision.baselineAfter {
        return Err(BaselineAfterMismatch);
      }
      if UsesTrustMap(config.setting) {
        var added := view.AddVerifiedDependency(event.destination, event.source);
        if added.Err? {
          return Err(RestoreDependencyFailed);
        }
      }
      if |view.nodes| != decision.graphNodes || view.edgeCount != decision.graphEdges || view.crossEdgesAdded != decision.crossEdgesAdded {
        return Err(CounterMismatch);
      }
      return Ok(());
    }
  }

  /** Reading a baseline before changes nothing about recording a decision. */
  lemma RecordAfterTouch(config: Config, view: View, baselines: Baselines, event: Event, estimate: Estimate, choice: Choice)
    requires choice.pathFound ==> choice.path.cost + config.profile.trustRootUpdateCost <= MAX_UINT64
    ensures Replay.Record(config, Replay.State(view, Touch(config, baselines, event.destination.chain, event.source.chain)), event, estimate, choice)
         == Replay.Record(config, Replay.State(view, baselines), event, estimate, choice)
  {
    hide Touch, Replay.Advance, AddVerifiedDependency;
    AdvanceAfterTouch(config, baselines, event.destination.chain, event.source.chain, event.source.height);
  }

  /** Nor about finishing a restore. */
  lemma FinishAfterTouch(config: Config, view: View, baselines: Baselines, event: Event, decision: Decision)
    ensures FinishRestore(config, Replay.State(view, Touch(config, baselines, event.destination.chain, event.source.chain)), event, decision)
         == FinishRestore(config, Replay.State(view, baselines), event, decision)
  {
    hide Touch, Replay.Advance, AddVerifiedDependency;
    AdvanceAfterTouch(config, baselines, event.destination.chain, event.source.chain, event.source.height);
  }

  lemma EstimateAfterTouch(config: Config, baselines: Baselines, verifier: string, target: string, height: uint64)
    requires ValidConfig(config)
    ensures Replay.EstimateDirect(config, Touch(config, baselines, verifier, target), verifier, target, height)
         == Replay.EstimateDirect(config, baselines, verifier, target, height)
  {
  }
}
