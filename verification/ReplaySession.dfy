/**
 Recovery and whole runs: however often a run is interrupted, the log it leaves
 is a prefix of the one log the trace and the configuration determine.
 */
module ReplaySession {
  import opened Base
  import opened ViewReady
  import opened TrustView
  import opened SearchSpec
  import opened TrustViewObject
  import opened Replay
  import opened ReplayCoordinator
  import opened ReplayLog
  import Scratch

  // ---------------------------------------------------------------------
  // Runs
  // ---------------------------------------------------------------------

  ghost predicate Steps(config: Config, state: State, event: Event, decision: Decision, state': State)
    requires ValidConfig(config)
  {
    exists found :: Processes(config, state, event, found, Ok((decision, state')))
  }

  ghost predicate Fails(config: Config, state: State, event: Event, error: ProcessError)
    requires ValidConfig(config)
  {
    exists found :: Processes(config, state, event, found, Err(error))
  }

  /** An uninterrupted run over the first `|log|` events, with the states it passes through. */
  ghost predicate Run(config: Config, trace: seq<Event>, log: seq<Decision>, states: seq<State>)
    requires ValidConfig(config)
  {
    && |log| <= |trace| && |states| == |log| + 1 && states[0] == INITIAL
    && forall i :: 0 <= i < |log| ==> Steps(config, states[i], trace[i], log[i], states[i + 1])
  }

  lemma StepUnique(config: Config, state: State, event: Event, d1: Decision, s1: State, d2: Decision, s2: State)
    requires ValidConfig(config) && Steps(config, state, event, d1, s1) && Steps(config, state, event, d2, s2)
    ensures d1 == d2 && s1 == s2
  {
    hide Processes;
    var found1 :| Processes(config, state, event, found1, Ok((d1, s1)));
    var found2 :| Processes(config, state, event, found2, Ok((d2, s2)));
    ProcessDeterministic(config, state, event, found1, Ok((d1, s1)), found2, Ok((d2, s2)));
  }

  lemma StepNotFailure(config: Config, state: State, event: Event, decision: Decision, state': State, error: ProcessError)
    requires ValidConfig(config) && Steps(config, state, event, decision, state')
    ensures !Fails(config, state, event, error)
  {
    hide Processes;
    var found1 :| Processes(config, state, event, found1, Ok((decision, state')));
    forall found2 | Processes(config, state, event, found2, Err(error)) ensures false {
      ProcessDeterministic(config, state, event, found1, Ok((decision, state')), found2, Err(error));
    }
  }

  /** Two runs over the same trace agree as far as both go. */
  lemma {:induction false} RunUnique(config: Config, trace: seq<Event>, log1: seq<Decision>, states1: seq<State>, log2: seq<Decision>, states2: seq<State>, n: nat)
    requires ValidConfig(config) && Run(config, trace, log1, states1) && Run(config, trace, log2, states2)
    requires n <= |log1| && n <= |log2|
    ensures log1[..n] == log2[..n] && states1[n] == states2[n]
  {
    hide Steps;
    if n > 0 {
      var k := n - 1;
      RunUnique(config, trace, log1, states1, log2, states2, k);
      StepUnique(config, states1[k], trace[k], log1[k], states1[k + 1], log2[k], states2[k + 1]);
      assert log1[..n] == log1[..k] + [log1[k]] && log2[..n] == log2[..k] + [log2[k]];
    }
  }

  lemma {:induction false} RunCoherent(config: Config, trace: seq<Event>, log: seq<Decision>, states: seq<State>, n: nat)
    requires ValidConfig(config) && Run(config, trace, log, states) && n <= |log|
    ensures Coherent(config, states[n])
  {
    hide Processes, Ready;
    EmptyIsReady();
    if n > 0 {
      var k := n - 1;
      RunCoherent(config, trace, log, states, k);
      assert Steps(config, states[k], trace[k], log[k], states[k + 1]);
      var found :| Processes(config, states[k], trace[k], found, Ok((log[k], states[k + 1])));
      ProcessKeepsCoherent(config, states[k], trace[k], found, Ok((log[k], states[k + 1])));
    }
  }

  // ---------------------------------------------------------------------
  // The log as a run
  // ---------------------------------------------------------------------

  ghost predicate HasRows(t: Tables) {
    forall i: nat :: i < t.completed ==> i in t.events && i in t.decisions
  }

  ghost function Log(t: Tables): (log: seq<Decision>)
    requires HasRows(t)
    ensures |log| == t.completed && forall i :: 0 <= i < |log| ==> log[i] == t.decisions[i].decision
  {
    seq(t.completed, i requires 0 <= i < t.completed => t.decisions[i].decision)
  }

  /** The committed events are the first events of the trace. */
  ghost predicate FromTrace(t: Tables, trace: seq<Event>) {
    t.completed <= |trace| && forall i: nat :: i < t.completed ==> i in t.events && t.events[i] == trace[i]
  }

  ghost predicate IsRun(config: Config, trace: seq<Event>, t: Tables)
    requires ValidConfig(config)
  {
    && HasRows(t) && FromTrace(t, trace)
    && exists states :: Run(config, trace, Log(t), states)
  }

  /** What every session starts from and leaves behind. */
  ghost predicate Committed(config: Config, identity: Identity, trace: seq<Event>, t: Tables)
    requires ValidConfig(config)
  {
    Consistent(identity, t) && IsRun(config, trace, t)
  }

  /** A prepared trace numbers its events, and the run identity belongs to it. */
  ghost predicate PreparedFor(config: Config, identity: Identity, trace: seq<Event>) {
    && identity.setting == config.setting && identity.preparedRows == |trace|
    && forall i :: 0 <= i < |trace| ==> trace[i].sequence == i
  }

  lemma FreshIsCommitted(config: Config, identity: Identity, trace: seq<Event>)
    requires ValidConfig(config)
    ensures Committed(config, identity, trace, NO_ROWS)
  {
    NoRowsConsistent(identity);
    assert Run(config, trace, Log(NO_ROWS), [INITIAL]);
  }

  // ---------------------------------------------------------------------
  // Restoring the log
  // ---------------------------------------------------------------------

  /** The state after restoring the first `n` committed rows, if each of them is accepted. */
  ghost function RestoreAll(config: Config, t: Tables, n: nat): Option<State>
    requires ValidConfig(config) && HasRows(t) && n <= t.completed
  {
    if n == 0 then Some(INITIAL)
    else
      match RestoreAll(config, t, n - 1)
      case None => None
      case Some(state) =>
        match Restore(config, state, t.events[n - 1], t.decisions[n - 1].decision)
        case Ok(state') => Some(state')
        case Err(_) => None
  }

  /** Restoring a committed run reproduces its states. */
  lemma {:induction false} RestoreAllReproduces(config: Config, trace: seq<Event>, t: Tables, states: seq<State>, n: nat)
    requires ValidConfig(config) && HasRows(t) && FromTrace(t, trace) && Run(config, trace, Log(t), states) && n <= t.completed
    ensures RestoreAll(config, t, n) == Some(states[n])
  {
    hide Restore, Ready, Coherent, Steps, Log;
    if n > 0 {
      var k := n - 1;
      RestoreAllReproduces(config, trace, t, states, k);
      RunCoherent(config, trace, Log(t), states, k);
      StepRestores(config, states[k], trace[k], Log(t)[k], states[k + 1]);
    }
  }

  lemma StepRestores(config: Config, state: State, event: Event, decision: Decision, state': State)
    requires ValidConfig(config) && Coherent(config, state) && Steps(config, state, event, decision, state')
    ensures Restore(config, state, event, decision) == Ok(state')
  {
    hide Processes, Restore, Coherent;
    var found :| Processes(config, state, event, found, Ok((decision, state')));
    RestoreReproduces(config, state, event, found, decision, state');
  }

  lemma {:induction false} RestoreAllMonotone(config: Config, t: Tables, m: nat, n: nat)
    requires ValidConfig(config) && HasRows(t) && m <= n <= t.completed
    ensures RestoreAll(config, t, n).Some? ==> RestoreAll(config, t, m).Some?
    decreases n
  {
    hide Restore;
    if m < n {
      RestoreAllMonotone(config, t, m, n - 1);
    }
  }

  datatype RecoverError = SettingConflict | DerivedStateCorrupt | RowsExceedIdentity | ConflictsWithTrace | RestoreFailed

  /** Exactly the logs recovery accepts. */
  ghost predicate Recoverable(config: Config, identity: Identity, trace: seq<Event>, t: Tables)
    requires ValidConfig(config)
  {
    && identity.setting == config.setting && Derived(identity, t)
    && t.completed <= identity.preparedRows && FromTrace(t, trace)
    && HasRows(t) && RestoreAll(config, t, t.completed).Some?
  }

  lemma DerivedHasRows(identity: Identity, t: Tables)
    requires Derived(identity, t)
    ensures HasRows(t) && forall i: nat :: i < t.completed ==> t.events[i].sequence == i
  {
    forall i: nat | i < t.completed ensures i in t.events && i in t.decisions && t.events[i].sequence == i {
      assert RowAgrees(identity, t, i);
    }
  }

  /** The first `n` rows are within bounds, are the trace's events and are restored to the state. */
  ghost predicate Restored(config: Config, identity: Identity, trace: seq<Event>, t: Tables, n: nat, state: State)
    requires ValidConfig(config) && HasRows(t) && n <= t.completed
  {
    && n <= identity.preparedRows && n <= |trace| && (forall i: nat :: i < n ==> t.events[i] == trace[i])
    && RestoreAll(config, t, n) == Some(state)
  }

  lemma RestoredIsRecoverable(config: Config, identity: Identity, trace: seq<Event>, t: Tables, state: State)
    requires ValidConfig(config) && Derived(identity, t) && HasRows(t) && identity.setting == config.setting
    requires Restored(config, identity, trace, t, t.completed, state)
    ensures Recoverable(config, identity, trace, t)
  {
    hide Derived, RestoreAll;
  }

  /** Restore one row; where that fails, the log is not recoverable. */
  method RestoreRow(coordinator: Coordinator, identity: Identity, trace: seq<Event>, t: Tables, n: nat) returns (error: Option<RecoverError>)
    requires coordinator.Valid() && Derived(identity, t) && HasRows(t) && n < t.completed
    requires Restored(coordinator.config, identity, trace, t, n, coordinator.State())
    modifies coordinator.view, coordinator.view.heights.Values, coordinator.view.owned, coordinator.baselines
    ensures fresh(coordinator.view.heights.Values - old(coordinator.view.heights.Values)) && fresh(coordinator.view.owned - old(coordinator.view.owned))
    ensures error.None? ==> coordinator.Valid() && Restored(coordinator.config, identity, trace, t, n + 1, coordinator.State())
    ensures error.Some? ==> !Recoverable(coordinator.config, identity, trace, t)
  {
    hide Derived, Restore, Coordinator.Valid;
    DerivedHasRows(identity, t);
    if n >= identity.preparedRows {
      return Some(RowsExceedIdentity);
    }
    var event, decision := t.events[n], t.decisions[n].decision;
    if event.sequence >= |trace| || event != trace[event.sequence] {
      return Some(ConflictsWithTrace);
    }
    RestoreAllMonotone(coordinator.config, t, n + 1, t.completed);
    var restored := coordinator.Restore(event, decision);
    return if restored.Err? then Some(RestoreFailed) else None;
  }

  /** Recovery: check the derived state, then restore row by row. */
  method RecoverReplayCoordinator(repository: ReplayRepository, config: Config, trace: seq<Event>)
    returns (r: Result<Coordinator, RecoverError>)
    requires ValidConfig(config)
    ensures r.Ok? <==> Recoverable(config, repository.identity, trace, repository.tables)
    ensures r.Ok? ==>
              && fresh(r.value) && fresh(r.value.view) && fresh(r.value.view.heights.Values) && fresh(r.value.view.owned) && fresh(r.value.baselines)
              && r.value.Valid() && r.value.config == config
              && RestoreAll(config, repository.tables, repository.tables.completed) == Some(r.value.State())
  {
    hide Derived, RestoreAll, Coordinator.Valid, HasRows;
    if repository.identity.setting != config.setting {
      return Err(SettingConflict);
    }
    var coordinator := new Coordinator(config);
    var ok := repository.VerifyPersistedDerivedState();
    if !ok {
      return Err(DerivedStateCorrupt);
    }
    var t := repository.tables;
    DerivedHasRows(repository.identity, t);
    assert RestoreAll(config, t, 0) == Some(INITIAL) by { NothingRestored(config, t); }
    var completed: nat := 0;
    while completed < t.completed
      invariant completed <= t.completed && coordinator.Valid() && coordinator.config == config
      invariant fresh(coordinator) && fresh(coordinator.view) && fresh(coordinator.baselines)
      invariant fresh(coordinator.view.heights.Values) && fresh(coordinator.view.owned)
      invariant Restored(config, repository.identity, trace, t, completed, coordinator.State())
    {
      var error := RestoreRow(coordinator, repository.identity, trace, t, completed);
      if error.Some? {
        return Err(error.value);
      }
      completed := completed + 1;
    }
    RestoredIsRecoverable(config, repository.identity, trace, t, coordinator.State());
    return Ok(coordinator);
  }

  lemma NothingRestored(config: Config, t: Tables)
    requires ValidConfig(config) && HasRows(t)
    ensures RestoreAll(config, t, 0) == Some(INITIAL)
  {
  }

  // ---------------------------------------------------------------------
  // Sessions
  // ---------------------------------------------------------------------

  lemma LogExtended(t: Tables, t': Tables, trace: seq<Event>, row: DecisionRow)
    requires HasRows(t) && FromTrace(t, trace) && t.completed < |trace|
    requires t'.completed == t.completed + 1
    requires t'.events == t.events[t.completed := trace[t.completed]] && t'.decisions == t.decisions[t.completed := row]
    ensures HasRows(t') && FromTrace(t', trace) && Log(t') == Log(t) + [row.decision]
  {
    hide Log;
    assert HasRows(t') && FromTrace(t', trace);
    assert Log(t') == Log(t) + [row.decision];
  }

  lemma CommitExtendsRun(config: Config, identity: Identity, trace: seq<Event>, t: Tables, states: seq<State>, decision: Decision, state': State)
    requires ValidConfig(config) && HasRows(t) && FromTrace(t, trace) && t.completed < |trace|
    requires Run(config, trace, Log(t), states)
    requires Steps(config, states[t.completed], trace[t.completed], decision, state')
    ensures var event := trace[t.completed];
            var t' := Inserted(identity, t, event, decision, DueSnapshot(identity, event, decision));
            HasRows(t') && FromTrace(t', trace) && Log(t') == Log(t) + [decision] && Run(config, trace, Log(t'), states + [state'])
  {
    hide Steps, DueSnapshot, Run, Log, HasRows, FromTrace;
    var event := trace[t.completed];
    var t' := Inserted(identity, t, event, decision, DueSnapshot(identity, event, decision));
    RunLength(config, trace, Log(t), states);
    LogExtended(t, t', trace, NewRow(identity, event, decision));
    ExtendRun(config, trace, Log(t), states, decision, state');
  }

  lemma RunLength(config: Config, trace: seq<Event>, log: seq<Decision>, states: seq<State>)
    requires ValidConfig(config) && Run(config, trace, log, states)
    ensures |states| == |log| + 1
  {
  }

  lemma ExtendRun(config: Config, trace: seq<Event>, log: seq<Decision>, states: seq<State>, decision: Decision, state': State)
    requires ValidConfig(config) && Run(config, trace, log, states) && |log| < |trace|
    requires Steps(config, states[|log|], trace[|log|], decision, state')
    ensures Run(config, trace, log + [decision], states + [state'])
  {
    hide Steps;
    var log', states' := log + [decision], states + [state'];
    forall i | 0 <= i < |log'| ensures Steps(config, states'[i], trace[i], log'[i], states'[i + 1]) {
      if i < |log| {
        assert Steps(config, states[i], trace[i], log[i], states[i + 1]);
      }
    }
  }

  lemma CommittedIsRecoverable(config: Config, identity: Identity, trace: seq<Event>, t: Tables)
    requires ValidConfig(config) && PreparedFor(config, identity, trace) && Committed(config, identity, trace, t)
    ensures Recoverable(config, identity, trace, t)
  {
    hide Derived, Run;
    var states :| Run(config, trace, Log(t), states);
    RestoreAllReproduces(config, trace, t, states, t.completed);
  }

  /** The run cannot go beyond its log: the next event fails. */
  ghost predicate Stopped(config: Config, trace: seq<Event>, t: Tables, error: ProcessError)
    requires ValidConfig(config)
  {
    && HasRows(t) && t.completed < |trace|
    && exists states :: Run(config, trace, Log(t), states) && |states| == t.completed + 1 && Fails(config, states[t.completed], trace[t.completed], error)
  }

  datatype RunError = RecoveryFailed | ProcessFailed(process: ProcessError) | CommitFailed(commit: CommitError) | Interrupted

  /** Between two events: the log is a run, and the coordinator is in its last state. */
  ghost predicate InStep(config: Config, identity: Identity, trace: seq<Event>, t: Tables, state: State)
    requires ValidConfig(config)
  {
    && Consistent(identity, t) && HasRows(t) && FromTrace(t, trace)
    && exists states :: Run(config, trace, Log(t), states) && |states| == t.completed + 1 && states[t.completed] == state
  }

  lemma InStepIsCommitted(config: Config, identity: Identity, trace: seq<Event>, t: Tables, state: State)
    requires ValidConfig(config) && InStep(config, identity, trace, t, state)
    ensures Committed(config, identity, trace, t) && HasRows(t) && t.completed <= |trace|
  {
    hide Consistent, Run;
    var states :| Run(config, trace, Log(t), states) && |states| == t.completed + 1 && states[t.completed] == state;
  }

  lemma RecoveredInStep(config: Config, identity: Identity, trace: seq<Event>, t: Tables, state: State)
    requires ValidConfig(config) && Committed(config, identity, trace, t)
    requires RestoreAll(config, t, t.completed) == Some(state)
    ensures InStep(config, identity, trace, t, state)
  {
    hide Consistent, Run, RestoreAll;
    var states :| Run(config, trace, Log(t), states);
    RestoreAllReproduces(config, trace, t, states, t.completed);
    RunLength(config, trace, Log(t), states);
  }

  lemma FailureStops(config: Config, identity: Identity, trace: seq<Event>, t: Tables, state: State, error: ProcessError)
    requires ValidConfig(config) && InStep(config, identity, trace, t, state)
    requires t.completed < |trace| && Fails(config, state, trace[t.completed], error)
    ensures Stopped(config, trace, t, error)
  {
    hide Consistent, Run, Fails;
    var states :| Run(config, trace, Log(t), states) && |states| == t.completed + 1 && states[t.completed] == state;
  }

  lemma CommitKeepsStep(config: Config, identity: Identity, trace: seq<Event>, t: Tables, state: State, decision: Decision, state': State)
    requires ValidConfig(config) && InStep(config, identity, trace, t, state) && t.completed < |trace|
    requires Steps(config, state, trace[t.completed], decision, state')
    requires trace[t.completed].sequence == decision.sequence == t.completed && decision.eventID == trace[t.completed].id
    requires decision.setting == identity.setting
    ensures var event := trace[t.completed];
            var t' := Inserted(identity, t, event, decision, DueSnapshot(identity, event, decision));
            && InStep(config, identity, trace, t', state') && HasRows(t) && HasRows(t') && Log(t') == Log(t) + [decision]
  {
    hide Consistent, Run, Steps, Inserted, DueSnapshot, InStep, HasRows, FromTrace, Log;
    var states := StatesOf(config, identity, trace, t, state);
    InsertKeepsConsistent(identity, t, trace[t.completed], decision);
    CommitExtendsRun(config, identity, trace, t, states, decision, state');
    var event := trace[t.completed];
    var t' := Inserted(identity, t, event, decision, DueSnapshot(identity, event, decision));
    InStepFrom(config, identity, trace, t', states + [state']);
    RunLength(config, trace, Log(t'), states + [state']);
  }

  /** The states a log in step has passed through. */
  lemma StatesOf(config: Config, identity: Identity, trace: seq<Event>, t: Tables, state: State) returns (states: seq<State>)
    requires ValidConfig(config) && InStep(config, identity, trace, t, state)
    ensures Consistent(identity, t) && HasRows(t) && FromTrace(t, trace)
    ensures Run(config, trace, Log(t), states) && |states| == t.completed + 1 && states[t.completed] == state
  {
    hide Consistent, Run, HasRows, FromTrace, Log;
    states :| Run(config, trace, Log(t), states) && |states| == t.completed + 1 && states[t.completed] == state;
  }

  lemma InStepFrom(config: Config, identity: Identity, trace: seq<Event>, t: Tables, states: seq<State>)
    requires ValidConfig(config) && Consistent(identity, t) && HasRows(t) && FromTrace(t, trace) && Run(config, trace, Log(t), states)
    ensures |states| == t.completed + 1 && InStep(config, identity, trace, t, states[t.completed])
  {
    hide Consistent, FromTrace, HasRows;
    RunLength(config, trace, Log(t), states);
  }

  /** Commit a processed event: afterwards the log is in step with the state before or after it. */
  method CommitProcessed(repository: ReplayRepository, config: Config, trace: seq<Event>, decision: Decision, ghost state: State, ghost state': State)
    returns (r: Result<(), RunError>)
    requires ValidConfig(config) && PreparedFor(config, repository.identity, trace)
    requires InStep(config, repository.identity, trace, repository.tables, state) && repository.tables.completed < |trace|
    requires Steps(config, state, trace[repository.tables.completed], decision, state')
    modifies repository
    ensures HasRows(old(repository.tables)) && HasRows(repository.tables) && Log(old(repository.tables)) <= Log(repository.tables)
    ensures InStep(config, repository.identity, trace, repository.tables, state) || InStep(config, repository.identity, trace, repository.tables, state')
    ensures r.Ok? ==>
              && InStep(config, repository.identity, trace, repository.tables, state')
              && repository.tables.completed == old(repository.tables.completed) + 1
    ensures r.Err? ==> !r.error.RecoveryFailed? && !r.error.ProcessFailed?
  {
    hide InStep, Log, Steps, SnapshotOf;
    ghost var t := repository.tables;
    InStepIsCommitted(config, repository.identity, trace, t, state);
    var sequence := repository.tables.completed;
    var event := trace[sequence];
    var snapshot := if UsesTrustMap(config.setting) && repository.identity.recordEvery > 0 && sequence % repository.identity.recordEvery == 0
                    then Some(SnapshotOf(event, decision)) else None;
    assert snapshot == DueSnapshot(repository.identity, event, decision);
    var committed := repository.CommitEvent(event, decision, snapshot);
    if committed.Ok? || repository.tables != t {
      CommitKeepsStep(config, repository.identity, trace, t, state, decision, state');
      NextIsNew(repository.identity, t);
    }
    return if committed.Err? then Err(CommitFailed(committed.error)) else Ok(());
  }

  /** Process the next event; the log is not touched. */
  method ProcessNext(repository: ReplayRepository, coordinator: Coordinator, trace: seq<Event>, scratch: Scratch.SearchScratch)
    returns (r: Result<Decision, ProcessError>)
    requires coordinator.Valid() && scratch.Valid()
    requires InStep(coordinator.config, repository.identity, trace, repository.tables, coordinator.State())
    requires repository.tables.completed < |trace|
    modifies scratch, coordinator.view, coordinator.view.heights.Values, coordinator.view.owned, coordinator.baselines
    ensures scratch.Valid()
    ensures fresh(coordinator.view.heights.Values - old(coordinator.view.heights.Values)) && fresh(coordinator.view.owned - old(coordinator.view.owned))
    ensures r.Ok? ==>
              && coordinator.Valid()
              && Steps(coordinator.config, old(coordinator.State()), trace[repository.tables.completed], r.value, coordinator.State())
    ensures r.Err? ==> Stopped(coordinator.config, trace, repository.tables, r.error)
  {
    hide InStep, Stopped, Processes, Coherent, Coordinator.Valid;
    ghost var config, t, state := coordinator.config, repository.tables, coordinator.State();
    var event := trace[repository.tables.completed];
    var processed, found := coordinator.Process(event, scratch);
    if processed.Err? {
      assert Fails(config, state, event, processed.error);
      FailureStops(config, repository.identity, trace, t, state, processed.error);
    }
    return processed;
  }

  /** Process the next event and commit it. */
  method ProcessAndCommit(repository: ReplayRepository, coordinator: Coordinator, trace: seq<Event>, scratch: Scratch.SearchScratch)
    returns (r: Result<(), RunError>)
    requires coordinator.Valid() && scratch.Valid() && PreparedFor(coordinator.config, repository.identity, trace)
    requires InStep(coordinator.config, repository.identity, trace, repository.tables, coordinator.State())
    requires repository.tables.completed < |trace|
    modifies repository, scratch, coordinator.view, coordinator.view.heights.Values, coordinator.view.owned, coordinator.baselines
    ensures scratch.Valid()
    ensures fresh(coordinator.view.heights.Values - old(coordinator.view.heights.Values)) && fresh(coordinator.view.owned - old(coordinator.view.owned))
    ensures exists state :: InStep(coordinator.config, repository.identity, trace, repository.tables, state)
    ensures HasRows(old(repository.tables)) && HasRows(repository.tables) && Log(old(repository.tables)) <= Log(repository.tables)
    ensures r.Ok? ==>
              && coordinator.Valid() && repository.tables.completed == old(repository.tables.completed) + 1
              && InStep(coordinator.config, repository.identity, trace, repository.tables, coordinator.State())
    ensures r.Err? ==> !r.error.RecoveryFailed?
    ensures r.Err? && r.error.ProcessFailed? ==> Stopped(coordinator.config, trace, repository.tables, r.error.process)
  {
    hide InStep, Stopped, Log, Steps, Coordinator.Valid, HasRows, Committed, PreparedFor;
    ghost var t, state := repository.tables, coordinator.State();
    InStepIsCommitted(coordinator.config, repository.identity, trace, t, state);
    var processed := ProcessNext(repository, coordinator, trace, scratch);
    if processed.Err? {
      return Err(ProcessFailed(processed.error));
    }
    var interrupted: bool := *;
    if interrupted {
      return Err(Interrupted);
    }
    r := CommitProcessed(repository, coordinator.config, trace, processed.value, state, coordinator.State());
  }

  /** One session: recover, then process and commit event by event. It may stop between any two steps. */
  method RunReplay(repository: ReplayRepository, config: Config, trace: seq<Event>, scratch: Scratch.SearchScratch)
    returns (r: Result<nat, RunError>)
    requires ValidConfig(config) && scratch.Valid() && PreparedFor(config, repository.identity, trace)
    requires Committed(config, repository.identity, trace, repository.tables)
    modifies repository, scratch
    ensures scratch.Valid()
    ensures Committed(config, repository.identity, trace, repository.tables)
    ensures Log(old(repository.tables)) <= Log(repository.tables)
    ensures r.Ok? ==> r.value == repository.tables.completed == |trace|
    ensures r.Err? ==> !r.error.RecoveryFailed?
    ensures r.Err? && r.error.ProcessFailed? ==> Stopped(config, trace, repository.tables, r.error.process)
  {
    hide Consistent, Log, Run, RestoreAll, Coherent, Recoverable, InStep, Stopped, FromTrace, Coordinator.Valid, HasRows;
    CommittedIsRecoverable(config, repository.identity, trace, repository.tables);
    var recovered := RecoverReplayCoordinator(repository, config, trace);
    if recovered.Err? {
      return Err(RecoveryFailed);
    }
    var coordinator := recovered.value;
    RecoveredInStep(config, repository.identity, trace, repository.tables, coordinator.State());
    InStepIsCommitted(config, repository.identity, trace, repository.tables, coordinator.State());
    while repository.tables.completed < |trace|
      invariant scratch.Valid() && coordinator.Valid() && coordinator.config == config
      invariant fresh(coordinator) && fresh(coordinator.view) && fresh(coordinator.baselines)
      invariant fresh(coordinator.view.heights.Values) && fresh(coordinator.view.owned)
      invariant InStep(config, repository.identity, trace, repository.tables, coordinator.State())
      invariant Committed(config, repository.identity, trace, repository.tables)
      invariant HasRows(repository.tables) && Log(old(repository.tables)) <= Log(repository.tables)
      decreases |trace| - repository.tables.completed
    {
      var interrupted: bool := *;
      if interrupted {
        return Err(Interrupted);
      }
      var stepped := ProcessAndCommit(repository, coordinator, trace, scratch);
      ghost var state :| InStep(config, repository.identity, trace, repository.tables, state);
      InStepIsCommitted(config, repository.identity, trace, repository.tables, state);
      if stepped.Err? {
        return Err(stepped.error);
      }
    }
    InStepIsCommitted(config, repository.identity, trace, repository.tables, coordinator.State());
    return Ok(repository.tables.completed);
  }

  lemma NextIsNew(identity: Identity, t: Tables)
    requires Consistent(identity, t)
    ensures !(t.completed in t.events && t.completed in t.decisions)
  {
    DenseAt(t);
  }

  // ---------------------------------------------------------------------
  // Interruptions do not show
  // ---------------------------------------------------------------------

  /** Any two logs that sessions over one trace can leave: one continues the other. */
  lemma LogsAgree(config: Config, identity1: Identity, identity2: Identity, trace: seq<Event>, t1: Tables, t2: Tables)
    requires ValidConfig(config) && Committed(config, identity1, trace, t1) && Committed(config, identity2, trace, t2)
    ensures t1.completed <= t2.completed ==> Log(t1) <= Log(t2)
    ensures t2.completed <= t1.completed ==> Log(t2) <= Log(t1)
  {
    hide Consistent, Run, Log, FromTrace;
    var states1 :| Run(config, trace, Log(t1), states1);
    var states2 :| Run(config, trace, Log(t2), states2);
    var n := if t1.completed <= t2.completed then t1.completed else t2.completed;
    RunUnique(config, trace, Log(t1), states1, Log(t2), states2, n);
  }

  /** A session that stops on an error stops where every other session stops. */
  lemma FailureIsFinal(config: Config, identity: Identity, trace: seq<Event>, t1: Tables, error: ProcessError, t2: Tables)
    requires ValidConfig(config) && Stopped(config, trace, t1, error) && Committed(config, identity, trace, t2)
    ensures t2.completed <= t1.completed
  {
    hide Consistent, Steps, Fails;
    var n := t1.completed;
    if t2.completed > n {
      var states1 :| Run(config, trace, Log(t1), states1) && Fails(config, states1[n], trace[n], error);
      var states2 :| Run(config, trace, Log(t2), states2);
      RunUnique(config, trace, Log(t1), states1, Log(t2), states2, n);
      assert Steps(config, states2[n], trace[n], Log(t2)[n], states2[n + 1]);
      StepNotFailure(config, states2[n], trace[n], Log(t2)[n], states2[n + 1], error);
    }
  }

  /** Everything stored about one event is the same in both databases. */
  ghost predicate Alike(t1: Tables, t2: Tables, i: nat) {
    && i in t1.events && i in t2.events && t1.events[i] == t2.events[i]
    && i in t1.decisions && i in t2.decisions && t1.decisions[i] == t2.decisions[i]
    && i in t1.crossEdges && i in t2.crossEdges && t1.crossEdges[i] == t2.crossEdges[i]
    && (i in t1.paths <==> i in t2.paths) && (i in t1.paths ==> t1.paths[i] == t2.paths[i])
    && (i in t1.snapshots <==> i in t2.snapshots) && (i in t1.snapshots ==> t1.snapshots[i] == t2.snapshots[i])
  }

  lemma SameRow(identity: Identity, t1: Tables, t2: Tables, i: nat)
    requires i in t1.events && i in t1.decisions && RowAgrees(identity, t1, i)
    requires i in t2.events && i in t2.decisions && RowAgrees(identity, t2, i)
    requires t1.events[i] == t2.events[i] && t1.decisions[i].decision == t2.decisions[i].decision
    ensures Alike(t1, t2, i)
  {
  }

  lemma SameMap<V>(m1: map<nat, V>, m2: map<nat, V>, n: nat)
    requires m1.Keys <= Range(n) && m2.Keys <= Range(n)
    requires forall i: nat :: i < n ==> (i in m1 <==> i in m2) && (i in m1 ==> m1[i] == m2[i])
    ensures m1 == m2
  {
    assert forall i: nat :: (i in m1 ==> i in Range(n)) && (i in m2 ==> i in Range(n));
  }

  lemma SameRows(config: Config, identity: Identity, trace: seq<Event>, t1: Tables, t2: Tables, i: nat)
    requires ValidConfig(config) && Committed(config, identity, trace, t1) && Committed(config, identity, trace, t2)
    requires t1.completed == t2.completed && i < t1.completed
    ensures i in t1.events && i in t2.events && i in t1.decisions && i in t2.decisions
    ensures t1.events[i] == t2.events[i] && t1.decisions[i].decision == t2.decisions[i].decision
    ensures RowAgrees(identity, t1, i) && RowAgrees(identity, t2, i)
  {
    hide RowAgrees, Run;
    LogsAgree(config, identity, identity, trace, t1, t2);
    assert Log(t1)[i] == Log(t2)[i];
  }

  /** The whole database is determined: the same number of committed events means the same tables. */
  lemma InterruptionsDoNotShow(config: Config, identity: Identity, trace: seq<Event>, t1: Tables, t2: Tables)
    requires ValidConfig(config) && Committed(config, identity, trace, t1) && Committed(config, identity, trace, t2)
    requires t1.completed == t2.completed
    ensures t1 == t2
  {
    hide IsRun, RowsAgree, DenseKeys, ExpectedBaselines, Alike;
    forall i: nat | i < t1.completed ensures Alike(t1, t2, i) {
      SameRows(config, identity, trace, t1, t2, i);
      SameRow(identity, t1, t2, i);
    }
    SameTables(t1, t2);
    AlikeBaselines(t1, t2);
  }

  lemma SameTables(t1: Tables, t2: Tables)
    requires Dense(t1) && Dense(t2) && t1.events.Keys == t1.decisions.Keys && t2.events.Keys == t2.decisions.Keys
    requires t1.completed == t2.completed && forall i: nat :: i < t1.completed ==> Alike(t1, t2, i)
    ensures t1.events == t2.events && t1.decisions == t2.decisions && t1.crossEdges == t2.crossEdges
    ensures t1.paths == t2.paths && t1.snapshots == t2.snapshots
  {
    hide Range;
    var n := t1.completed;
    assert t1.events == t2.events by {
      forall i: nat | i < n ensures (i in t1.events <==> i in t2.events) && (i in t1.events ==> t1.events[i] == t2.events[i]) {
        assert Alike(t1, t2, i);
      }
      SameMap(t1.events, t2.events, n);
    }
    assert t1.decisions == t2.decisions by {
      forall i: nat | i < n ensures (i in t1.decisions <==> i in t2.decisions) && (i in t1.decisions ==> t1.decisions[i] == t2.decisions[i]) {
        assert Alike(t1, t2, i);
      }
      SameMap(t1.decisions, t2.decisions, n);
    }
    assert t1.crossEdges == t2.crossEdges by {
      forall i: nat | i < n ensures (i in t1.crossEdges <==> i in t2.crossEdges) && (i in t1.crossEdges ==> t1.crossEdges[i] == t2.crossEdges[i]) {
        assert Alike(t1, t2, i);
      }
      SameMap(t1.crossEdges, t2.crossEdges, n);
    }
    assert t1.paths == t2.paths by {
      forall i: nat | i < n ensures (i in t1.paths <==> i in t2.paths) && (i in t1.paths ==> t1.paths[i] == t2.paths[i]) {
        assert Alike(t1, t2, i);
      }
      SameMap(t1.paths, t2.paths, n);
    }
    assert t1.snapshots == t2.snapshots by {
      forall i: nat | i < n ensures (i in t1.snapshots <==> i in t2.snapshots) && (i in t1.snapshots ==> t1.snapshots[i] == t2.snapshots[i]) {
        assert Alike(t1, t2, i);
      }
      SameMap(t1.snapshots, t2.snapshots, n);
    }
  }

  lemma AlikeBaselines(t1: Tables, t2: Tables)
    requires forall i: nat :: i < t1.completed ==> Alike(t1, t2, i)
    ensures HasRows(t1)
    ensures t2.completed == t1.completed ==> HasRows(t2) && ExpectedBaselines(t1, t1.completed) == ExpectedBaselines(t2, t1.completed)
  {
    forall i: nat | i < t1.completed
      ensures i in t1.events && i in t2.events && t1.events[i] == t2.events[i]
      ensures i in t1.decisions && i in t2.decisions && t1.decisions[i] == t2.decisions[i]
    {
      assert Alike(t1, t2, i);
    }
    if t2.completed == t1.completed {
      BaselinesBelow(t2, t1, t1.completed);
    }
  }
}
