/**
 The durable replay log: one transaction per event, a derived-state check, and
 recovery. A run may crash between any two steps; a commit either happens as a
 whole or not at all.
 */
module ReplayLog {
  import opened Base
  import opened ReplayGraph
  import opened SearchSpec
  import opened TrustViewObject
  import opened Replay
  import opened ReplayCoordinator

  // ---------------------------------------------------------------------
  // Tables
  // ---------------------------------------------------------------------

  datatype DecisionRow = DecisionRow(decision: Decision, directCost: uint64, chosenCost: uint64, kind: DecisionKind, integrityDigest: Word)

  datatype Snapshot = Snapshot(sequence: uint64, time: int, graphNodes: nat, graphEdges: int, crossEdgesAdded: uint64)

  datatype Tables = Tables(
    events: map<nat, Event>,
    decisions: map<nat, DecisionRow>,
    paths: map<nat, Path>,
    crossEdges: map<nat, (BlockKey, BlockKey)>,
    snapshots: map<nat, Snapshot>,
    baselines: Baselines,
    completed: nat,
    lastSequence: Option<nat>)

  const NO_ROWS: Tables := Tables(map[], map[], map[], map[], map[], map[], 0, None)

  /** The part of the run identity the log depends on, and the integrity hash. */
  datatype Identity = Identity(setting: Setting, preparedRows: nat, recordEvery: uint64, digest: (Event, Decision) -> Word)

  predicate ExpectsSnapshot(identity: Identity, sequence: nat) {
    UsesTrustMap(identity.setting) && identity.recordEvery > 0 && sequence % identity.recordEvery == 0
  }

  function SnapshotOf(event: Event, decision: Decision): Snapshot {
    Snapshot(event.sequence, event.sourceTime, decision.graphNodes, decision.graphEdges, decision.crossEdgesAdded)
  }

  /** The baselines the completed events imply: the last decision about a pair wins. */
  function ExpectedBaselines(t: Tables, n: nat): Baselines
    requires forall i :: 0 <= i < n ==> i in t.events && i in t.decisions
  {
    if n == 0 then map[]
    else
      var event := t.events[n - 1];
      ExpectedBaselines(t, n - 1)[(event.destination.chain, event.source.chain) := t.decisions[n - 1].decision.baselineAfter]
  }

  /** Everything stored about one completed event agrees with its event and decision. */
  predicate RowAgrees(identity: Identity, t: Tables, i: nat)
    requires i in t.events && i in t.decisions
  {
    var event, row := t.events[i], t.decisions[i];
    var decision := row.decision;
    && event.sequence == i && decision.sequence == i && event.id == decision.eventID
    && row.directCost == decision.estimate.cost && row.chosenCost == decision.chosenCost && row.kind == decision.kind
    && row.integrityDigest == identity.digest(event, decision)
    && i in t.crossEdges && t.crossEdges[i] == (event.destination, event.source)
    && (if decision.kind == TrustMap then i in t.paths && t.paths[i] == decision.path else i !in t.paths)
    && (ExpectsSnapshot(identity, i) <==> i in t.snapshots)
    && (i in t.snapshots ==> t.snapshots[i] == SnapshotOf(event, decision))
  }

  /** The sequence numbers below `n`. */
  function Range(n: nat): (r: set<nat>)
    ensures forall i: nat :: i in r <==> i < n
    ensures |r| == n
  {
    if n == 0 then {} else Range(n - 1) + {n - 1}
  }

  ghost predicate RowsAgree(identity: Identity, t: Tables, n: nat) {
    forall i: nat :: i < n ==> i in t.events && i in t.decisions && RowAgrees(identity, t, i)
  }

  /** The completed sequence numbers are exactly those below `completed`, and nothing derived lies beyond them. */
  ghost predicate Dense(t: Tables) {
    DenseKeys(t.events.Keys, t.decisions.Keys, t.crossEdges.Keys, t.paths.Keys, t.snapshots.Keys, t.completed)
  }

  ghost predicate DenseKeys(events: set<nat>, decisions: set<nat>, crossEdges: set<nat>, paths: set<nat>, snapshots: set<nat>, n: nat) {
    && events * decisions == Range(n)
    && crossEdges == Range(n)
    && paths <= Range(n)
    && snapshots <= Range(n)
  }

  /** What the derived-state check accepts. */
  ghost predicate Derived(identity: Identity, t: Tables) {
    && Dense(t)
    && RowsAgree(identity, t, t.completed)
    && t.baselines == ExpectedBaselines(t, t.completed)
    && (t.completed > 0 ==> (if t.lastSequence.Some? then t.lastSequence.value else 0) == t.completed - 1)
  }

  /** What commits keep: the derived state, and nothing besides the completed rows. */
  ghost predicate Consistent(identity: Identity, t: Tables) {
    && Derived(identity, t)
    && t.events.Keys == t.decisions.Keys
    && (forall i: nat :: i in t.decisions ==> t.decisions[i].decision.setting == identity.setting)
    && t.lastSequence == if t.completed == 0 then None else Some(t.completed - 1)
  }

  lemma NoRowsConsistent(identity: Identity)
    ensures Consistent(identity, NO_ROWS)
  {
  }

  // ---------------------------------------------------------------------
  // Committing
  // ---------------------------------------------------------------------

  function NewRow(identity: Identity, event: Event, decision: Decision): DecisionRow {
    DecisionRow(decision, decision.estimate.cost, decision.chosenCost, decision.kind, identity.digest(event, decision))
  }

  /** The rows one event adds. */
  function Inserted(identity: Identity, t: Tables, event: Event, decision: Decision, snapshot: Option<Snapshot>): Tables {
    var n := t.completed;
    Tables(
      t.events[n := event],
      t.decisions[n := NewRow(identity, event, decision)],
      if decision.kind == TrustMap then t.paths[n := decision.path] else t.paths,
      t.crossEdges[n := (event.destination, event.source)],
      if snapshot.Some? then t.snapshots[n := snapshot.value] else t.snapshots,
      t.baselines[(event.destination.chain, event.source.chain) := decision.baselineAfter],
      n + 1,
      Some(n))
  }

  lemma {:induction false} BaselinesBelow(t: Tables, t': Tables, n: nat)
    requires forall i: nat :: i < n ==> i in t.events && i in t.decisions && i in t'.events && i in t'.decisions
                                        && t'.events[i] == t.events[i] && t'.decisions[i] == t.decisions[i]
    ensures ExpectedBaselines(t', n) == ExpectedBaselines(t, n)
  {
    if n > 0 {
      BaselinesBelow(t, t', n - 1);
    }
  }

  /** The snapshot a run writes with an event. */
  function DueSnapshot(identity: Identity, event: Event, decision: Decision): Option<Snapshot> {
    if ExpectsSnapshot(identity, event.sequence) then Some(SnapshotOf(event, decision)) else None
  }

  lemma RowsKept(identity: Identity, t: Tables, event: Event, decision: Decision, snapshot: Option<Snapshot>)
    requires RowsAgree(identity, t, t.completed)
    requires t.completed !in t.paths && t.completed !in t.snapshots
    requires event.sequence == decision.sequence == t.completed && decision.eventID == event.id
    requires snapshot == DueSnapshot(identity, event, decision)
    ensures RowsAgree(identity, Inserted(identity, t, event, decision, snapshot), t.completed + 1)
  {
    var t', n := Inserted(identity, t, event, decision, snapshot), t.completed;
    forall i: nat | i < n + 1 ensures i in t'.events && i in t'.decisions && RowAgrees(identity, t', i) {
      if i < n {
        assert RowAgrees(identity, t, i);
      }
    }
  }

  lemma BaselinesKept(identity: Identity, t: Tables, event: Event, decision: Decision, snapshot: Option<Snapshot>)
    requires forall i: nat :: i < t.completed ==> i in t.events && i in t.decisions
    requires t.baselines == ExpectedBaselines(t, t.completed)
    ensures var t' := Inserted(identity, t, event, decision, snapshot);
            && (forall i: nat :: i < t'.completed ==> i in t'.events && i in t'.decisions)
            && t'.baselines == ExpectedBaselines(t', t'.completed)
  {
    BaselinesBelow(t, Inserted(identity, t, event, decision, snapshot), t.completed);
  }

  lemma KeysGrow<V>(m: map<nat, V>, n: nat, value: V)
    ensures m[n := value].Keys == m.Keys + {n}
  {
  }

  lemma RangeGrows(n: nat)
    ensures Range(n + 1) == Range(n) + {n}
  {
  }

  lemma DenseKept(identity: Identity, t: Tables, event: Event, decision: Decision, snapshot: Option<Snapshot>)
    requires Dense(t)
    ensures Dense(Inserted(identity, t, event, decision, snapshot))
  {
    hide DenseKeys, NewRow;
    var t', n := Inserted(identity, t, event, decision, snapshot), t.completed;
    KeysGrow(t.events, n, event);
    KeysGrow(t.decisions, n, NewRow(identity, event, decision));
    KeysGrow(t.crossEdges, n, (event.destination, event.source));
    KeysGrow(t.paths, n, decision.path);
    if snapshot.Some? {
      KeysGrow(t.snapshots, n, snapshot.value);
    }
    DenseGrows(t.events.Keys, t.decisions.Keys, t.crossEdges.Keys, t.paths.Keys, t.snapshots.Keys, n, t'.paths.Keys, t'.snapshots.Keys);
  }

  lemma DenseGrows(events: set<nat>, decisions: set<nat>, crossEdges: set<nat>, paths: set<nat>, snapshots: set<nat>, n: nat,
                   paths': set<nat>, snapshots': set<nat>)
    requires DenseKeys(events, decisions, crossEdges, paths, snapshots, n)
    requires paths' <= paths + {n} && snapshots' <= snapshots + {n}
    ensures DenseKeys(events + {n}, decisions + {n}, crossEdges + {n}, paths', snapshots', n + 1)
  {
    hide Range;
    RangeGrows(n);
    assert (events + {n}) * (decisions + {n}) == events * decisions + {n};
  }

  lemma InsertKeepsConsistent(identity: Identity, t: Tables, event: Event, decision: Decision)
    requires Consistent(identity, t)
    requires event.sequence == decision.sequence == t.completed && decision.eventID == event.id && decision.setting == identity.setting
    ensures Consistent(identity, Inserted(identity, t, event, decision, DueSnapshot(identity, event, decision)))
  {
    hide RowsAgree, DueSnapshot, ExpectedBaselines, Dense;
    var snapshot := DueSnapshot(identity, event, decision);
    RowsAt(identity, t, t.completed);
    DenseAt(t);
    RowsKept(identity, t, event, decision, snapshot);
    BaselinesKept(identity, t, event, decision, snapshot);
    DenseKept(identity, t, event, decision, snapshot);
  }

  lemma DenseAt(t: Tables)
    requires Dense(t)
    ensures t.completed !in t.paths && t.completed !in t.snapshots && !(t.completed in t.events && t.completed in t.decisions)
  {
    assert t.completed !in t.events.Keys * t.decisions.Keys;
  }

  lemma RowsAt(identity: Identity, t: Tables, n: nat)
    requires RowsAgree(identity, t, n)
    ensures forall i: nat :: i < n ==> i in t.events && i in t.decisions
  {
  }

  // ---------------------------------------------------------------------
  // Counting
  // ---------------------------------------------------------------------

  /** A count equal to the expected one leaves no row beyond the completed ones. */
  lemma CountBounds(keys: set<nat>, n: nat)
    ensures |keys| == |keys * Range(n)| <==> keys <= Range(n)
  {
    var inside, outside := keys * Range(n), keys - Range(n);
    assert keys == inside + outside && |keys| == |inside| + |outside|;
    assert keys <= Range(n) <==> outside == {};
  }

  lemma SameSize<T>(a: set<T>, b: set<T>)
    requires a <= b && |a| == |b|
    ensures a == b
  {
    assert b == a + (b - a) && |b| == |a| + |b - a|;
  }

  /** Every baseline row expected and as many of them as expected: the same map. */
  lemma SameBaselines(a: Baselines, b: Baselines)
    requires forall key :: key in a ==> key in b && a[key] == b[key]
    ensures |a| == |b| <==> a == b
  {
    assert |a.Keys| == |a| && |b.Keys| == |b|;
    if |a| == |b| {
      SameSize(a.Keys, b.Keys);
    }
  }

  lemma Least(s: set<nat>) returns (least: nat)
    requires s != {}
    ensures least in s && forall other: nat :: other in s ==> least <= other
    decreases |s|
  {
    least :| least in s;
    var rest := s - {least};
    if rest != {} {
      var next := Least(rest);
      assert forall other: nat :: other in s ==> other == least || other in rest;
      if next < least {
        least := next;
      }
    }
  }

  lemma CountGrows(keys: set<nat>, n: nat)
    ensures |keys * Range(n + 1)| == |keys * Range(n)| + if n in keys then 1 else 0
  {
    RangeGrows(n);
    assert keys * Range(n + 1) == if n in keys then keys * Range(n) + {n} else keys * Range(n);
  }

  /** The derived state once the scan has covered every joined row. */
  lemma DerivedAfterScan(identity: Identity, t: Tables, n: nat)
    requires t.events.Keys * t.decisions.Keys == Range(n) && RowsAgree(identity, t, n)
    ensures Derived(identity, t) <==>
            && t.completed == n && (n > 0 ==> (if t.lastSequence.Some? then t.lastSequence.value else 0) == n - 1)
            && |t.crossEdges| == n && |t.paths| == |t.paths.Keys * Range(n)| && |t.snapshots| == |t.snapshots.Keys * Range(n)|
            && t.baselines == ExpectedBaselines(t, n)
  {
    hide ExpectedBaselines, RowsAgree, DenseKeys, Range;
    CrossRows(identity, t, n);
    assert |t.paths.Keys| == |t.paths| && |t.snapshots.Keys| == |t.snapshots| && |t.crossEdges.Keys| == |t.crossEdges|;
    DenseCounts(t.events.Keys, t.decisions.Keys, t.crossEdges.Keys, t.paths.Keys, t.snapshots.Keys, n, t.completed);
  }

  lemma CrossRows(identity: Identity, t: Tables, n: nat)
    requires RowsAgree(identity, t, n)
    ensures Range(n) <= t.crossEdges.Keys
  {
    forall i | i in Range(n) ensures i in t.crossEdges {
      assert RowAgrees(identity, t, i);
    }
  }

  lemma DenseCounts(events: set<nat>, decisions: set<nat>, crossEdges: set<nat>, paths: set<nat>, snapshots: set<nat>, n: nat, completed: nat)
    requires events * decisions == Range(n) && Range(n) <= crossEdges
    ensures DenseKeys(events, decisions, crossEdges, paths, snapshots, completed) <==>
            completed == n && |crossEdges| == n && |paths| == |paths * Range(n)| && |snapshots| == |snapshots * Range(n)|
  {
    hide Range;
    CountBounds(paths, n);
    CountBounds(snapshots, n);
    assert completed != n ==> Range(completed) != Range(n);
    if |crossEdges| == n {
      SameSize(Range(n), crossEdges);
    }
  }

  datatype CommitError = TransactionIdentityMismatch | SnapshotConflict | EventConflict | SequenceConflict | NotCommitted | CommitUnknown

  class ReplayRepository {
    const identity: Identity
    var tables: Tables

    constructor (identity: Identity)
      ensures tables == NO_ROWS && this.identity == identity
    {
      this.identity, tables := identity, NO_ROWS;
    }

    /** One transaction. A database failure before the commit leaves the tables as
        they were; a failure reported by the commit itself leaves open whether it happened. */
    method CommitEvent(event: Event, decision: Decision, snapshot: Option<Snapshot>) returns (r: Result<(), CommitError>)
      modifies this
      ensures tables == old(tables) ||
              (&& (r == Ok(()) || r == Err(CommitUnknown))
               && tables == Inserted(identity, old(tables), event, decision, snapshot)
               && event.sequence == old(tables).completed)
      ensures r.Ok? ==> event.sequence in tables.events && tables.events[event.sequence] == event
                        && event.sequence in tables.decisions && tables.decisions[event.sequence].decision == decision
      ensures r.Ok? || tables != old(tables) ==>
                && decision.eventID == event.id && decision.sequence == event.sequence && decision.setting == identity.setting
    {
      if event.id == "" || decision.eventID != event.id || decision.sequence != event.sequence || decision.setting != identity.setting {
        return Err(TransactionIdentityMismatch);
      }
      if snapshot.Some? && snapshot.value != SnapshotOf(event, decision) {
        return Err(SnapshotConflict);
      }
      var failure: bool := *;
      if failure {
        return Err(NotCommitted);
      }
      var n := event.sequence;
      if n in tables.events && n in tables.decisions {
        var stored := if n in tables.snapshots then Some(tables.snapshots[n]) else None;
        if tables.events[n] == event && tables.decisions[n].decision == decision && stored == snapshot {
          return Ok(());
        }
        return Err(EventConflict);
      }
      if n != tables.completed {
        return Err(SequenceConflict);
      }
      // Primary keys and the unique event identifier.
      if n in tables.events || n in tables.decisions || exists i :: i in tables.events && tables.events[i].id == event.id {
        return Err(NotCommitted);
      }
      var committed: bool, reported: bool := *, *;
      if committed {
        tables := Inserted(identity, tables, event, decision, snapshot);
      }
      return if committed && reported then Ok(()) else Err(CommitUnknown);
    }

    /** One scan of the joined rows in sequence order: the rows must be numbered
        from zero without a gap, and agree one by one. */
    method ScanRows() returns (ok: bool, completed: nat, expected: Baselines, paths: nat, snapshots: nat)
      ensures ok ==> Scanned(identity, tables, {}, completed, expected, paths, snapshots)
      ensures !ok ==> Disagrees(identity, tables)
    {
      hide Range, ExpectedBaselines, RowAgrees, Scanned, RowsAgree, Disagrees;
      var t := tables;
      var pending := t.events.Keys * t.decisions.Keys;
      completed, expected, paths, snapshots := 0, map[], 0, 0;
      NothingScanned(identity, t);
      while pending != {}
        invariant Scanned(identity, t, pending, completed, expected, paths, snapshots)
        decreases pending
      {
        var sequence := LeastPending(pending);
        PendingJoined(identity, t, pending, completed, expected, paths, snapshots);
        if sequence != completed || !RowAgrees(identity, t, sequence) {
          ScanStuck(identity, t, pending, completed, expected, paths, snapshots, sequence);
          ok := false;
          return;
        }
        ScanStep(identity, t, pending, completed, expected, paths, snapshots);
        var event, decision := t.events[sequence], t.decisions[sequence].decision;
        expected := expected[(event.destination.chain, event.source.chain) := decision.baselineAfter];
        if decision.kind == TrustMap {
          paths := paths + 1;
        }
        if sequence in t.snapshots {
          snapshots := snapshots + 1;
        }
        completed := completed + 1;
        pending := pending - {sequence};
      }
      ok := true;
    }

    method BaselinesMatch(expected: Baselines) returns (ok: bool)
      ensures ok <==> tables.baselines == expected
    {
      var pending, actualCount := tables.baselines.Keys, 0;
      while pending != {}
        invariant pending <= tables.baselines.Keys
        invariant forall key :: key in tables.baselines && key !in pending ==> key in expected && tables.baselines[key] == expected[key]
        invariant actualCount == |tables.baselines.Keys - pending|
        decreases pending
      {
        var key :| key in pending;
        if key !in expected || expected[key] != tables.baselines[key] {
          return false;
        }
        assert tables.baselines.Keys - (pending - {key}) == tables.baselines.Keys - pending + {key};
        pending := pending - {key};
        actualCount := actualCount + 1;
      }
      assert tables.baselines.Keys - pending == tables.baselines.Keys;
      SameBaselines(tables.baselines, expected);
      ok := actualCount == |expected|;
    }

    /** The derived-state check. */
    method VerifyPersistedDerivedState() returns (ok: bool)
      ensures ok <==> Derived(identity, tables)
    {
      hide ExpectedBaselines, Derived, RowsAgree;
      var scanned, completed, expected, paths, snapshots := ScanRows();
      if !scanned {
        DerivedRows(identity, tables);
        return false;
      }
      DerivedAfterScan(identity, tables, completed);
      var last := if tables.lastSequence.Some? then tables.lastSequence.value else 0;
      if tables.completed != completed || (completed > 0 && last != completed - 1) {
        return false;
      }
      if |tables.crossEdges| != completed || |tables.paths| != paths || |tables.snapshots| != snapshots {
        return false;
      }
      ok := BaselinesMatch(expected);
    }
  }

  /** The join yields its rows in sequence order. */
  method LeastPending(pending: set<nat>) returns (sequence: nat)
    requires pending != {}
    ensures sequence in pending && forall other: nat :: other in pending ==> sequence <= other
  {
    ghost var least := Least(pending);
    sequence :| sequence in pending && forall other: nat :: other in pending ==> sequence <= other;
  }

  /** However many rows are taken, they are not a dense log whose rows agree. */
  ghost predicate Disagrees(identity: Identity, t: Tables) {
    forall n: nat :: t.events.Keys * t.decisions.Keys == Range(n) ==> !RowsAgree(identity, t, n)
  }

  /** The scan so far: rows below `completed` agree, the rest of the join is pending. */
  ghost predicate Scanned(identity: Identity, t: Tables, pending: set<nat>, completed: nat, expected: Baselines, paths: nat, snapshots: nat) {
    && Range(completed) + pending == t.events.Keys * t.decisions.Keys && Range(completed) !! pending
    && RowsAgree(identity, t, completed)
    && expected == ExpectedBaselines(t, completed)
    && paths == |t.paths.Keys * Range(completed)| && snapshots == |t.snapshots.Keys * Range(completed)|
  }

  lemma NothingScanned(identity: Identity, t: Tables)
    ensures Scanned(identity, t, t.events.Keys * t.decisions.Keys, 0, map[], 0, 0)
  {
    assert t.paths.Keys * Range(0) == {} && t.snapshots.Keys * Range(0) == {};
  }

  lemma PendingJoined(identity: Identity, t: Tables, pending: set<nat>, completed: nat, expected: Baselines, paths: nat, snapshots: nat)
    requires Scanned(identity, t, pending, completed, expected, paths, snapshots)
    ensures forall i :: i in pending ==> i in t.events && i in t.decisions
  {
    assert forall i :: i in pending ==> i in t.events.Keys * t.decisions.Keys;
  }

  lemma ScanStep(identity: Identity, t: Tables, pending: set<nat>, completed: nat, expected: Baselines, paths: nat, snapshots: nat)
    requires Scanned(identity, t, pending, completed, expected, paths, snapshots) && completed in pending
    requires completed in t.events && completed in t.decisions && RowAgrees(identity, t, completed)
    ensures var event, decision := t.events[completed], t.decisions[completed].decision;
            Scanned(identity, t, pending - {completed}, completed + 1,
                    expected[(event.destination.chain, event.source.chain) := decision.baselineAfter],
                    paths + if decision.kind == TrustMap then 1 else 0, snapshots + if completed in t.snapshots then 1 else 0)
  {
    hide Range, RowAgrees, RowsAgree, ExpectedBaselines;
    CountGrows(t.paths.Keys, completed);
    CountGrows(t.snapshots.Keys, completed);
    ScanRow(identity, t, completed);
    PendingShrinks(pending, completed);
  }

  lemma PendingShrinks(pending: set<nat>, n: nat)
    requires Range(n) !! pending && n in pending
    ensures Range(n + 1) + (pending - {n}) == Range(n) + pending && Range(n + 1) !! pending - {n}
  {
  }

  lemma ScanRow(identity: Identity, t: Tables, i: nat)
    requires RowsAgree(identity, t, i) && i in t.events && i in t.decisions && RowAgrees(identity, t, i)
    ensures RowsAgree(identity, t, i + 1)
    ensures i in t.paths <==> t.decisions[i].decision.kind == TrustMap
    ensures ExpectedBaselines(t, i + 1)
         == ExpectedBaselines(t, i)[(t.events[i].destination.chain, t.events[i].source.chain) := t.decisions[i].decision.baselineAfter]
  {
  }

  lemma ScanStuck(identity: Identity, t: Tables, pending: set<nat>, completed: nat, expected: Baselines, paths: nat, snapshots: nat, sequence: nat)
    requires Scanned(identity, t, pending, completed, expected, paths, snapshots)
    requires sequence in pending && forall other: nat :: other in pending ==> sequence <= other
    requires sequence in t.events && sequence in t.decisions
    requires sequence != completed || !RowAgrees(identity, t, sequence)
    ensures Disagrees(identity, t)
  {
    hide RowAgrees, ExpectedBaselines;
    forall n: nat | t.events.Keys * t.decisions.Keys == Range(n) ensures !RowsAgree(identity, t, n) {
      assert sequence in Range(n);
      assert completed in Range(n);
      assert sequence == completed;
    }
  }

  lemma DerivedRows(identity: Identity, t: Tables)
    ensures Derived(identity, t) ==> t.events.Keys * t.decisions.Keys == Range(t.completed) && RowsAgree(identity, t, t.completed)
  {
  }
}
