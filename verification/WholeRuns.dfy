/**
 Whole replay runs: the graph shape at every event, and how the four settings
 compare on one trace.
 */
module WholeRuns {
  import opened Base
  import opened Costs
  import opened ReplayGraph
  import opened TrustView
  import opened TrustViewShape
  import opened ViewReady
  import opened SearchSpec
  import opened TrustViewObject
  import opened Replay
  import opened ReplaySession

  // ---------------------------------------------------------------------
  // The graph after every event
  // ---------------------------------------------------------------------

  ghost function Dependencies(events: seq<Event>): set<(BlockKey, BlockKey)> {
    set event | event in events :: (event.destination, event.source)
  }

  /** One event between different chains keeps the shape and records its pair. */
  lemma EventKeepsShape(config: Config, state: State, event: Event, decision: Decision, state': State, dependencies: set<(BlockKey, BlockKey)>)
    requires ValidConfig(config) && UsesTrustMap(config.setting) && event.source.chain != event.destination.chain
    requires Shape(config.profile, state.view, dependencies) && Steps(config, state, event, decision, state')
    ensures Shape(config.profile, state'.view, dependencies + {(event.destination, event.source)})
  {
    hide Shape, Activate, AddVerifiedDependency, EstimateDirect, Planned, Choose;
    var found :| Processes(config, state, event, found, Ok((decision, state')));
    var view1 := Activate(config.profile, state.view, event.destination).value;
    ActivateKeepsShape(config.profile, state.view, dependencies, event.destination);
    ActivateKeepsShape(config.profile, view1, dependencies, event.source);
    var prepared := Prepare(config, state, event).value.view;
    DependencyKeepsShape(config.profile, prepared, dependencies, event.destination, event.source);
  }

  /** In every planning run over a cross-chain trace, after every event, the graph
      has the shape its events determine: no dependency edge is ever lost. */
  lemma {:induction false} RunKeepsShape(config: Config, trace: seq<Event>, log: seq<Decision>, states: seq<State>, n: nat)
    requires ValidConfig(config) && UsesTrustMap(config.setting) && Run(config, trace, log, states) && n <= |log|
    requires forall i :: 0 <= i < |trace| ==> trace[i].source.chain != trace[i].destination.chain
    ensures Shape(config.profile, states[n].view, Dependencies(trace[..n]))
  {
    hide Shape, Steps;
    if n == 0 {
      EmptyShape(config.profile);
      assert Dependencies(trace[..0]) == {};
    } else {
      var k := n - 1;
      RunKeepsShape(config, trace, log, states, k);
      EventKeepsShape(config, states[k], trace[k], log[k], states[k + 1], Dependencies(trace[..k]));
      assert forall event :: event in trace[..n] <==> event in trace[..k] || event == trace[k];
      assert Dependencies(trace[..n]) == Dependencies(trace[..k]) + {(trace[k].destination, trace[k].source)};
    }
  }

  // ---------------------------------------------------------------------
  // The four settings
  // ---------------------------------------------------------------------

  function With(config: Config, setting: Setting): Config {
    config.(setting := setting)
  }

  /** Baselines follow the events alone. */
  function BaselinesAfter(config: Config, events: seq<Event>): Baselines {
    if events == [] then map[]
    else NextBaselines(config, BaselinesAfter(config, events[..|events| - 1]), events[|events| - 1])
  }

  lemma {:induction false} BaselinesIgnoreSetting(config: Config, setting: Setting, events: seq<Event>)
    ensures BaselinesAfter(With(config, setting), events) == BaselinesAfter(config, events)
  {
    if events != [] {
      BaselinesIgnoreSetting(config, setting, events[..|events| - 1]);
    }
  }

  lemma StepBaselines(config: Config, state: State, event: Event, decision: Decision, state': State)
    requires ValidConfig(config) && Steps(config, state, event, decision, state')
    ensures state'.baselines == NextBaselines(config, state.baselines, event)
    ensures EstimateDirect(config, state.baselines, event.destination.chain, event.source.chain, event.source.height) == Ok(decision.estimate)
    ensures decision.baselineAfter == state'.baselines[(event.destination.chain, event.source.chain)]
  {
    hide Activate, AddVerifiedDependency, EstimateDirect, Planned, Choose;
  }

  lemma {:induction false} RunBaselines(config: Config, trace: seq<Event>, log: seq<Decision>, states: seq<State>, n: nat)
    requires ValidConfig(config) && Run(config, trace, log, states) && n <= |log|
    ensures states[n].baselines == BaselinesAfter(config, trace[..n])
  {
    hide Steps;
    if n > 0 {
      var k := n - 1;
      RunBaselines(config, trace, log, states, k);
      StepBaselines(config, states[k], trace[k], log[k], states[k + 1]);
      assert trace[..n][..k] == trace[..k];
    }
  }

  /** The next view of a planning setting does not depend on what the search found. */
  lemma StepView(config: Config, state: State, event: Event, decision: Decision, state': State)
    requires ValidConfig(config) && UsesTrustMap(config.setting) && Steps(config, state, event, decision, state')
    ensures var view1 := Activate(config.profile, state.view, event.destination);
            && view1.Ok?
            && var view2 := Activate(config.profile, view1.value, event.source);
            && view2.Ok?
            && state'.view == AddVerifiedDependency(config.profile, view2.value, event.destination, event.source).0
  {
    hide Activate, AddVerifiedDependency, EstimateDirect, Planned, Choose;
  }

  /** The two planning settings build identical graphs, node IDs and counters. */
  lemma {:induction false} PlanningViewsAgree(config: Config, trace: seq<Event>, log2: seq<Decision>, states2: seq<State>,
                                              log3: seq<Decision>, states3: seq<State>, n: nat)
    requires ValidConfig(config) && Run(With(config, B2), trace, log2, states2) && Run(With(config, B3), trace, log3, states3)
    requires n <= |log2| && n <= |log3|
    ensures states2[n].view == states3[n].view
  {
    hide Steps, Activate, AddVerifiedDependency;
    if n > 0 {
      var k := n - 1;
      PlanningViewsAgree(config, trace, log2, states2, log3, states3, k);
      StepView(With(config, B2), states2[k], trace[k], log2[k], states2[k + 1]);
      StepView(With(config, B3), states3[k], trace[k], log3[k], states3[k + 1]);
    }
  }

  /** A checkpoint can only shorten a direct verification. */
  lemma CheckpointsOnlyHelp(config: Config, plain: Setting, checkpointed: Setting, baselines: Baselines, verifier: string, target: string, height: uint64)
    requires ValidConfig(config) && !UsesCheckpoint(plain) && UsesCheckpoint(checkpointed)
    ensures var without := EstimateDirect(With(config, plain), baselines, verifier, target, height);
            var having := EstimateDirect(With(config, checkpointed), baselines, verifier, target, height);
            without.Ok? ==> having.Ok? && having.value.cost <= without.value.cost
  {
    hide Checkpoint, CheckedCost;
    var baseline := Baseline(config, baselines, verifier, target);
    if height >= baseline && target in config.periods {
      var checkpoint := Checkpoint(height, config.periods[target]);
      var start := if checkpoint > baseline then checkpoint else baseline;
      CostMonotone(height - start, height - baseline, config.profile.directStepCost);
    }
  }

  lemma CostMonotone(small: uint64, large: uint64, step: uint64)
    requires small <= large
    ensures CheckedCost(large, step).Ok? ==> CheckedCost(small, step).Ok? && CheckedCost(small, step).value <= CheckedCost(large, step).value
  {
    hide CheckedCost;
    ProductMonotone(small, large, step);
  }

  lemma ProductMonotone(small: nat, large: nat, step: nat)
    requires small <= large
    ensures small * step <= large * step
  {
  }

  lemma StepChoice(config: Config, state: State, event: Event, decision: Decision, state': State)
    requires ValidConfig(config) && Ready(state.view) && Steps(config, state, event, decision, state')
    ensures decision.chosenCost <= decision.estimate.cost
    ensures !UsesTrustMap(config.setting) ==> decision.chosenCost == decision.estimate.cost
  {
    hide Activate, Ready, AddVerifiedDependency, EstimateDirect, Planned;
    var found :| Processes(config, state, event, found, Ok((decision, state')));
    if UsesTrustMap(config.setting) {
      hide Processes, GraphCost;
      ChoiceIsOptimal(config, state, event, found, decision, state');
    }
  }

  /** What one run records about one event, in terms of the trace alone. */
  lemma RunEvent(config: Config, setting: Setting, trace: seq<Event>, log: seq<Decision>, states: seq<State>, i: nat)
    requires ValidConfig(config) && Run(With(config, setting), trace, log, states) && i < |log|
    ensures var event, baselines := trace[i], BaselinesAfter(config, trace[..i]);
            && EstimateDirect(With(config, setting), baselines, event.destination.chain, event.source.chain, event.source.height) == Ok(log[i].estimate)
            && log[i].estimate.baselineBefore == Baseline(config, baselines, event.destination.chain, event.source.chain)
            && log[i].baselineAfter == NextBaselines(config, baselines, event)[(event.destination.chain, event.source.chain)]
    ensures log[i].chosenCost <= log[i].estimate.cost
    ensures !UsesTrustMap(setting) ==> log[i].chosenCost == log[i].estimate.cost
  {
    hide Steps, Ready, BaselinesAfter;
    var own := With(config, setting);
    RunBaselines(own, trace, log, states, i);
    BaselinesIgnoreSetting(config, setting, trace[..i]);
    RunCoherent(own, trace, log, states, i);
    StepBaselines(own, states[i], trace[i], log[i], states[i + 1]);
    StepChoice(own, states[i], trace[i], log[i], states[i + 1]);
  }

  /** One event under the four settings. */
  ghost predicate Dominated(d0: Decision, d1: Decision, d2: Decision, d3: Decision) {
    && d0.estimate.baselineBefore == d1.estimate.baselineBefore == d2.estimate.baselineBefore == d3.estimate.baselineBefore
    && d0.baselineAfter == d1.baselineAfter == d2.baselineAfter == d3.baselineAfter
    && d0.estimate == d2.estimate && d1.estimate == d3.estimate && d1.estimate.cost <= d0.estimate.cost
    && d1.chosenCost <= d0.chosenCost && d2.chosenCost <= d0.chosenCost && d3.chosenCost <= d1.chosenCost
  }

  lemma SameEstimate(config: Config, s: Setting, t: Setting, baselines: Baselines, verifier: string, target: string, height: uint64)
    requires ValidConfig(config) && UsesCheckpoint(s) == UsesCheckpoint(t)
    ensures EstimateDirect(With(config, s), baselines, verifier, target, height) == EstimateDirect(With(config, t), baselines, verifier, target, height)
  {
  }

  /** Every event of four error-free runs over one trace. */
  lemma SettingsDominate(config: Config, trace: seq<Event>, log0: seq<Decision>, states0: seq<State>, log1: seq<Decision>, states1: seq<State>,
                         log2: seq<Decision>, states2: seq<State>, log3: seq<Decision>, states3: seq<State>, i: nat)
    requires ValidConfig(config)
    requires Run(With(config, B0), trace, log0, states0) && Run(With(config, B1), trace, log1, states1)
    requires Run(With(config, B2), trace, log2, states2) && Run(With(config, B3), trace, log3, states3)
    requires i < |log0| && i < |log1| && i < |log2| && i < |log3|
    ensures Dominated(log0[i], log1[i], log2[i], log3[i])
    ensures states0[i + 1].baselines == states1[i + 1].baselines == states2[i + 1].baselines == states3[i + 1].baselines
    ensures states2[i + 1] == states3[i + 1]
  {
    hide Run, EstimateDirect, Baseline, NextBaselines, BaselinesAfter;
    RunLength(With(config, B0), trace, log0, states0);
    RunLength(With(config, B1), trace, log1, states1);
    RunLength(With(config, B2), trace, log2, states2);
    RunLength(With(config, B3), trace, log3, states3);
    RunBounded(With(config, B0), trace, log0, states0);
    var event, baselines := trace[i], BaselinesAfter(config, trace[..i]);
    RunEvent(config, B0, trace, log0, states0, i);
    RunEvent(config, B1, trace, log1, states1, i);
    RunEvent(config, B2, trace, log2, states2, i);
    RunEvent(config, B3, trace, log3, states3, i);
    SameEstimate(config, B0, B2, baselines, event.destination.chain, event.source.chain, event.source.height);
    SameEstimate(config, B1, B3, baselines, event.destination.chain, event.source.chain, event.source.height);
    CheckpointsOnlyHelp(config, B0, B1, baselines, event.destination.chain, event.source.chain, event.source.height);
    RunStateBaselines(config, B0, trace, log0, states0, i + 1);
    RunStateBaselines(config, B1, trace, log1, states1, i + 1);
    RunStateBaselines(config, B2, trace, log2, states2, i + 1);
    RunStateBaselines(config, B3, trace, log3, states3, i + 1);
    PlanningViewsAgree(config, trace, log2, states2, log3, states3, i + 1);
  }

  lemma RunBounded(config: Config, trace: seq<Event>, log: seq<Decision>, states: seq<State>)
    requires ValidConfig(config) && Run(config, trace, log, states)
    ensures |log| <= |trace|
  {
  }

  lemma RunStateBaselines(config: Config, setting: Setting, trace: seq<Event>, log: seq<Decision>, states: seq<State>, n: nat)
    requires ValidConfig(config) && Run(With(config, setting), trace, log, states) && n <= |log|
    ensures |states| == |log| + 1 && |log| <= |trace| && states[n].baselines == BaselinesAfter(config, trace[..n])
  {
    RunBaselines(With(config, setting), trace, log, states, n);
    BaselinesIgnoreSetting(config, setting, trace[..n]);
  }

  /** What a run costs in all. */
  function TotalCost(log: seq<Decision>): nat {
    if log == [] then 0 else TotalCost(log[..|log| - 1]) + log[|log| - 1].chosenCost
  }

  lemma {:induction false} TotalsFollow(log: seq<Decision>, other: seq<Decision>)
    requires |log| == |other| && forall i :: 0 <= i < |log| ==> log[i].chosenCost <= other[i].chosenCost
    ensures TotalCost(log) <= TotalCost(other)
  {
    if log != [] {
      TotalsFollow(log[..|log| - 1], other[..|other| - 1]);
    }
  }

  /** Whole runs: checkpoints and trust-map paths each only lower the total, and adding paths to checkpoints does too. */
  lemma TotalsDominate(config: Config, trace: seq<Event>, log0: seq<Decision>, states0: seq<State>, log1: seq<Decision>, states1: seq<State>,
                       log2: seq<Decision>, states2: seq<State>, log3: seq<Decision>, states3: seq<State>)
    requires ValidConfig(config)
    requires Run(With(config, B0), trace, log0, states0) && Run(With(config, B1), trace, log1, states1)
    requires Run(With(config, B2), trace, log2, states2) && Run(With(config, B3), trace, log3, states3)
    requires |log0| == |log1| == |log2| == |log3| == |trace|
    ensures TotalCost(log1) <= TotalCost(log0) && TotalCost(log2) <= TotalCost(log0) && TotalCost(log3) <= TotalCost(log1)
  {
    hide Run;
    forall i: nat | i < |trace| ensures Dominated(log0[i], log1[i], log2[i], log3[i]) {
      SettingsDominate(config, trace, log0, states0, log1, states1, log2, states2, log3, states3, i);
    }
    forall i | 0 <= i < |trace|
      ensures log1[i].chosenCost <= log0[i].chosenCost && log2[i].chosenCost <= log0[i].chosenCost && log3[i].chosenCost <= log1[i].chosenCost
    {
      assert Dominated(log0[i], log1[i], log2[i], log3[i]);
    }
    TotalsFollow(log1, log0);
    TotalsFollow(log2, log0);
    TotalsFollow(log3, log1);
  }
}
