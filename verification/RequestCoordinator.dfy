/** The request coordinator: a loop that moves one request through its states, artifact first, state second. */
module RequestCoordinator {
  import opened Base
  import opened TrustGraph
  import opened PathProof
  import opened RequestStore
  import Merkle

  datatype CoordinatorError =
    | InvalidObservation
    | Database
    | NotFound
    | InvalidTransition
    | ConcurrentUpdate
    | RecordConflict
    | StaleAttempt
    | NotStorable
    | WorkMismatch
    | BuildFailed
    | EvidencePending
    | PlanningFailed

  class RequestDatabase {
    const config: Config
    var tables: Tables

    constructor (config: Config)
      ensures this.config == config && Sound(config, tables) && tables.requests == map[]
    {
      this.config, tables := config, Tables(map[], {}, map[], map[], {}, map[], map[]);
    }

    ghost predicate IsSound()
      reads this
    {
      Sound(config, tables)
    }

    /** Other components add observed requests, snapshots and proof materials. */
    method OthersRun()
      requires IsSound()
      modifies this
      ensures IsSound() && Evolves(old(tables), tables) && (old(PlansFollow(tables)) ==> PlansFollow(tables))
      ensures tables == old(tables).(requests := tables.requests, snapshots := tables.snapshots, materials := tables.materials)
      ensures Extends(old(tables).requests, tables.requests)
    {
      hide Sound, Evolves;
      var snapshots: map<Word, Snapshot>, materials: map<(Word, Word, nat, Word), Material> := *, *;
      var requests: map<Word, Request> := *;
      ghost var t := tables;
      SnapshotsGrow(config, t, snapshots, materials);
      tables := tables.(snapshots := snapshots + tables.snapshots, materials := materials + tables.materials);
      ObservedKeep(config, tables, requests);
      EvolvesTransitive(t, tables, WithObserved(tables, requests));
      tables := WithObserved(tables, requests);
    }

    method Observe(request: Request) returns (r: Result<Request, CoordinatorError>)
      requires IsSound() && request.state == Observed
      modifies this
      ensures IsSound() && Evolves(old(tables), tables) && (old(PlansFollow(tables)) ==> PlansFollow(tables))
      ensures r.Ok? ==> request.id in tables.requests && r.value == tables.requests[request.id] && SameIdentity(r.value, request)
    {
      hide Sound, Evolves;
      EvolvesReflexive(tables);
      var failure: bool := *;
      if failure {
        return Err(Database);
      }
      if request.id !in tables.requests {
        ObserveKeeps(config, tables, request);
        tables := tables.(requests := tables.requests[request.id := request]);
        var reported: bool := *;
        return if reported then Ok(request) else Err(Database);
      }
      if !SameIdentity(tables.requests[request.id], request) {
        return Err(RecordConflict);
      }
      return Ok(tables.requests[request.id]);
    }

    method LoadRequest(id: Word) returns (r: Result<Request, CoordinatorError>)
      ensures r.Ok? ==> id in tables.requests && r.value == tables.requests[id]
    {
      var failure: bool := *;
      if failure {
        return Err(Database);
      }
      if id !in tables.requests {
        return Err(NotFound);
      }
      return Ok(tables.requests[id]);
    }

    method LoadCurrentPlan(requestID: Word) returns (r: Result<Plan, CoordinatorError>)
      requires IsSound()
      ensures r.Ok? ==> requestID in tables.current && tables.current[requestID] in tables.plans && r.value == tables.plans[tables.current[requestID]]
      ensures r == Err(NotFound) ==> requestID !in tables.current
    {
      hide PlansKept, RequestsBacked, AllVerified;
      var failure: bool := *;
      if failure {
        return Err(Database);
      }
      if requestID !in tables.current {
        return Err(NotFound);
      }
      return Ok(tables.plans[tables.current[requestID]]);
    }

    /** Store a plan and make it current: never an older attempt, never a second plan for one attempt. */
    method SavePlan(plan: Plan) returns (r: Result<(), CoordinatorError>)
      requires IsSound()
      modifies this
      ensures Evolves(old(tables), tables)
      ensures Replannable(old(tables), plan.requestID) ==> IsSound()
      ensures plan.requestID in old(tables).requests && old(tables).requests[plan.requestID].state !in {Observed, Rejected} ==>
                (old(PlansFollow(tables)) ==> PlansFollow(tables))
      ensures tables == old(tables) || (NewAttempt(old(tables), plan) && tables == WithPlan(old(tables), plan))
      ensures r.Ok? ==> plan.requestID in tables.current && tables.current[plan.requestID] == plan.id && plan.id in tables.plans && tables.plans[plan.id] == plan
    {
      hide Evolves, Storable, Replannable, PlansKept, RequestsBacked, AllVerified;
      EvolvesReflexive(tables);
      if !Storable(config.ids, plan) {
        return Err(NotStorable);
      }
      var failure: bool := *;
      if failure {
        return Err(Database);
      }
      if plan.requestID in tables.current {
        var current := tables.plans[tables.current[plan.requestID]];
        if plan.attempt < current.attempt {
          return Err(StaleAttempt);
        }
        if plan.attempt == current.attempt {
          if tables.current[plan.requestID] != plan.id || current != plan {
            return Err(RecordConflict);
          }
          return Ok(());
        }
      }
      var bound: bool := *;
      if !bound || plan.snapshotID !in tables.snapshots || !tables.snapshots[plan.snapshotID].isSealed {
        return Err(NotStorable);
      }
      if plan.id in tables.plans {
        if tables.plans[plan.id] != plan {
          return Err(RecordConflict);
        }
        // Making a stored plan current again is never needed: its attempt is at most the current one.
        assert false;
      }
      if exists id :: id in tables.plans && tables.plans[id].requestID == plan.requestID && tables.plans[id].attempt == plan.attempt {
        return Err(RecordConflict);
      }
      PlanKeeps(config, tables, plan);
      tables := WithPlan(tables, plan);
      var reported: bool := *;
      return if reported then Ok(()) else Err(Database);
    }

    method Transition(id: Word, from: RequestState, to: RequestState) returns (r: Result<Request, CoordinatorError>)
      requires IsSound()
      modifies this
      ensures Evolves(old(tables), tables) && (old(PlansFollow(tables)) ==> PlansFollow(tables))
      ensures tables == old(tables) ||
              (id in old(tables).requests && old(tables).requests[id].state == from && Legal(from, to) && tables == Moved(old(tables), id, to))
      ensures r.Ok? ==> id in tables.requests && r.value == tables.requests[id] && r.value.state == to
      ensures (id in old(tables).requests ==> Backed(old(tables).plans, old(tables).current, old(tables).proofs, old(tables).requests[id].(state := to)))
              ==> IsSound()
    {
      hide Evolves, Sound, Backed, PlansFollow;
      EvolvesReflexive(tables);
      if from != to && !Legal(from, to) {
        return Err(InvalidTransition);
      }
      var failure: bool := *;
      if failure {
        return Err(Database);
      }
      if id !in tables.requests {
        return Err(NotFound);
      }
      if tables.requests[id].state == to {
        return Ok(tables.requests[id]);
      }
      if tables.requests[id].state != from {
        return Err(ConcurrentUpdate);
      }
      // The transition log holds each change of a request once.
      if (id, from, to) in tables.transitions {
        return Err(Database);
      }
      MoveKeeps(config, tables, id, to);
      MoveFollows(tables, id, to);
      tables := Moved(tables, id, to);
      var reported: bool := *;
      return if reported then Ok(tables.requests[id]) else Err(Database);
    }

    /** A stale plan sends the request back for another attempt. */
    method MarkRetryable(request: Request) returns (r: Result<(), CoordinatorError>)
      requires IsSound()
      modifies this
      ensures IsSound() && Evolves(old(tables), tables) && (old(PlansFollow(tables)) ==> PlansFollow(tables))
    {
      hide Evolves, Sound, PlansFollow;
      EvolvesReflexive(tables);
      var persisted := LoadRequest(request.id);
      if persisted.Err? {
        return Err(persisted.error);
      }
      if persisted.value.state == Retryable {
        return Ok(());
      }
      if persisted.value.state != request.state {
        return Err(ConcurrentUpdate);
      }
      var moved := Transition(request.id, persisted.value.state, Retryable);
      return if moved.Ok? then Ok(()) else Err(moved.error);
    }

    /** Build the proof for a stored path plan, verify it, and store it. */
    method BuildProof(planID: Word, sourceBlockHash: Word, expectedHomeTrustRoot: Word) returns (r: Result<Proof, CoordinatorError>)
      requires IsSound()
      modifies this
      ensures IsSound() && Evolves(old(tables), tables) && (old(PlansFollow(tables)) ==> PlansFollow(tables))
      ensures tables == old(tables).(proofs := tables.proofs)
      ensures r.Ok? ==>
                && r.value in tables.proofs && r.value.planID == planID && HasProof(tables.proofs, planID)
                && Merkle.AcceptsPath(config.h, r.value.baseTrustRoot, r.value.blockHashes, r.value.witnesses, expectedHomeTrustRoot, config.depth)
    {
      hide Evolves, Sound, Merkle.AcceptsPath, CompleteChain, Verified;
      EvolvesReflexive(tables);
      var failure: bool := *;
      if failure {
        return Err(Database);
      }
      var store := Store(tables.plans, tables.snapshots, tables.materials);
      var request := BuildRequest(planID, sourceBlockHash, expectedHomeTrustRoot);
      var built, materials := PathProof.Build(config.h, config.ids, store, request, config.depth);
      if built.Err? {
        return Err(BuildFailed);
      }
      BuiltIsVerified(config, tables, store, request, built.value, materials);
      ProofKeeps(config, tables, built.value);
      tables := tables.(proofs := tables.proofs + {built.value});
      var reported: bool := *;
      return if reported then Ok(built.value) else Err(Database);
    }
  }

  datatype Work = Work(request: Request, attempt: uint64, snapshotID: Word, expectedHomeTrustRoot: Word)

  datatype Outcome = Outcome(request: Request, plan: Option<Plan>, proof: Option<Proof>)

  /** The state rank the loop counts down. */
  function Rank(state: RequestState): nat {
    match state
    case Observed => 3
    case EvidenceReady => 2
    case Retryable => 2
    case Planned => 1
    case Replanned => 1
    case _ => 0
  }

  predicate BindsWork(ids: ContentIDs, work: Work, plan: Plan) {
    && plan.requestID == work.request.id && plan.attempt == work.attempt && plan.snapshotID == work.snapshotID
    && plan.id == ComputePlanID(ids, plan)
  }

  /** What a successful call hands to the worker: the durable current plan, bound to the
      work, and for a path plan a stored proof that verified against the expected home root. */
  ghost predicate Delivers(config: Config, t: Tables, work: Work, outcome: Outcome) {
    && outcome.request.id in t.requests && outcome.request == t.requests[outcome.request.id] && outcome.request.id == work.request.id
    && (outcome.request.state == Rejected ==> (outcome.plan.Some? <==> outcome.request.id in t.current))
    && (outcome.request.state == Rejected ||
        (&& outcome.plan.Some? && outcome.request.id in t.current && t.current[outcome.request.id] in t.plans
         && outcome.plan.value == t.plans[t.current[outcome.request.id]] && BindsWork(config.ids, work, outcome.plan.value)
         && match outcome.plan.value.kind
            case DirectPlan => outcome.request.state in {Planned, DirectFallback} && outcome.proof.None?
            case PathPlan =>
              && outcome.request.state == ProofReady && outcome.proof.Some? && outcome.proof.value in t.proofs
              && outcome.proof.value.planID == outcome.plan.value.id
              && Merkle.AcceptsPath(config.h, outcome.proof.value.baseTrustRoot, outcome.proof.value.blockHashes, outcome.proof.value.witnesses,
                                    work.expectedHomeTrustRoot, config.depth)))
  }

  class Coordinator {
    const database: RequestDatabase

    constructor (database: RequestDatabase)
      ensures this.database == database
    {
      this.database := database;
    }

    /** Plan, store the plan, and read it back. What the planner decides is arbitrary here. */
    method PlanFor(request: Request, work: Work) returns (r: Result<Plan, CoordinatorError>)
      requires database.IsSound() && Replannable(database.tables, request.id)
      requires request.id in database.tables.requests && database.tables.requests[request.id].state !in {Observed, Rejected}
      modifies database
      ensures database.IsSound() && Evolves(old(database.tables), database.tables) && (old(PlansFollow(database.tables)) ==> PlansFollow(database.tables))
      ensures database.tables.requests == old(database.tables).requests
      ensures r.Ok? ==> request.id in database.tables.current && database.tables.current[request.id] in database.tables.plans
                        && r.value == database.tables.plans[database.tables.current[request.id]] && r.value.requestID == request.id
    {
      hide Sound, Evolves, Replannable, PlansFollow;
      EvolvesReflexive(database.tables);
      var planned: bool := *;
      if !planned {
        return Err(PlanningFailed);
      }
      var plan: Plan := *;
      plan := plan.(requestID := request.id, attempt := work.attempt, snapshotID := work.snapshotID);
      var saved := database.SavePlan(plan);
      if saved.Err? {
        return Err(saved.error);
      }
      return Ok(plan);
    }

    /** Load or observe the request the work is about. */
    method Resume(work: Work) returns (r: Result<Request, CoordinatorError>)
      requires database.IsSound()
      modifies database
      ensures database.IsSound() && Evolves(old(database.tables), database.tables) && (old(PlansFollow(database.tables)) ==> PlansFollow(database.tables))
      ensures r.Ok? ==> work.request.id in database.tables.requests && r.value == database.tables.requests[work.request.id] && r.value.id == work.request.id
    {
      hide Sound, Evolves;
      EvolvesReflexive(database.tables);
      if work.request.id == 0 || work.snapshotID == 0 || work.request.sourceBlockHash == 0 {
        return Err(InvalidObservation);
      }
      if work.request.state == Observed {
        r := database.Observe(work.request);
        return;
      }
      r := database.LoadRequest(work.request.id);
      if r.Ok? && !SameIdentity(r.value, work.request) {
        return Err(InvalidObservation);
      }
    }

    /** The request as the loop holds it is the durable one. */
    ghost predicate Holds(request: Request)
      reads database
    {
      request.id in database.tables.requests && database.tables.requests[request.id] == request
    }

    /** Terminal states: return what is durable. */
    method Finish(work: Work, request: Request) returns (r: Result<Outcome, CoordinatorError>)
      requires database.IsSound() && Holds(request) && request.id == work.request.id && request.state in {Rejected, DirectFallback, ProofReady}
      modifies database
      ensures database.IsSound() && Evolves(old(database.tables), database.tables) && (old(PlansFollow(database.tables)) ==> PlansFollow(database.tables))
      ensures r.Ok? ==> Delivers(database.config, database.tables, work, r.value)
    {
      hide Sound, Evolves, Merkle.AcceptsPath, PlansFollow;
      EvolvesReflexive(database.tables);
      var loaded := database.LoadCurrentPlan(request.id);
      if request.state == Rejected {
        if loaded == Err(NotFound) {
          return Ok(Outcome(request, None, None));
        }
        if loaded.Err? {
          return Err(loaded.error);
        }
        return Ok(Outcome(request, Some(loaded.value), None));
      }
      if loaded.Err? {
        return Err(loaded.error);
      }
      var plan := loaded.value;
      if !BindsWork(database.config.ids, work, plan) {
        return Err(WorkMismatch);
      }
      PlanIDKept(database.config, database.tables, request.id);
      if request.state == DirectFallback {
        if plan.kind != DirectPlan || plan.fallback == NoFallback {
          return Err(WorkMismatch);
        }
        return Ok(Outcome(request, Some(plan), None));
      }
      if plan.kind != PathPlan {
        return Err(WorkMismatch);
      }
      var proof := database.BuildProof(plan.id, request.sourceBlockHash, work.expectedHomeTrustRoot);
      if proof.Err? {
        return Err(proof.error);
      }
      return Ok(Outcome(request, Some(plan), Some(proof.value)));
    }

    /** Planned and Replanned: a direct plan is delivered as it is, a path plan once its proof is stored. */
    method Prove(work: Work, request: Request) returns (r: Result<Outcome, CoordinatorError>)
      requires database.IsSound() && Holds(request) && request.id == work.request.id && request.state in {Planned, Replanned}
      modifies database
      ensures database.IsSound() && Evolves(old(database.tables), database.tables) && (old(PlansFollow(database.tables)) ==> PlansFollow(database.tables))
      ensures r.Ok? ==> Delivers(database.config, database.tables, work, r.value)
    {
      hide Sound, Evolves, Merkle.AcceptsPath, PlansFollow;
      ghost var t := database.tables;
      EvolvesReflexive(t);
      var loaded := database.LoadCurrentPlan(request.id);
      if loaded.Err? {
        return Err(loaded.error);
      }
      var plan := loaded.value;
      if (request.state == Replanned && plan.kind != PathPlan) || !BindsWork(database.config.ids, work, plan) {
        return Err(WorkMismatch);
      }
      PlanIDKept(database.config, database.tables, request.id);
      if plan.kind == DirectPlan {
        return Ok(Outcome(request, Some(plan), None));
      }
      var proof := database.BuildProof(plan.id, request.sourceBlockHash, work.expectedHomeTrustRoot);
      if proof.Err? {
        return Err(proof.error);
      }
      ghost var t1 := database.tables;
      var moved := database.Transition(request.id, request.state, ProofReady);
      EvolvesTransitive(t, t1, database.tables);
      if moved.Err? {
        return Err(moved.error);
      }
      return Ok(Outcome(moved.value, Some(plan), Some(proof.value)));
    }

    /** The states that only move on: gate the evidence, plan, or plan again. */
    method Advance(work: Work, request: Request) returns (r: Result<Request, CoordinatorError>)
      requires database.IsSound() && Holds(request) && request.id == work.request.id && request.state in {Observed, EvidenceReady, Retryable}
      modifies database
      ensures database.IsSound() && Evolves(old(database.tables), database.tables) && (old(PlansFollow(database.tables)) ==> PlansFollow(database.tables))
      ensures r.Ok? ==> Holds(r.value) && r.value.id == request.id && Rank(r.value.state) < Rank(request.state)
    {
      hide Sound, Evolves, PlansFollow;
      ghost var t := database.tables;
      EvolvesReflexive(t);
      if request.state == Observed {
        var ready: bool, invalid: bool := *, *;
        if !ready && !invalid {
          return Err(EvidencePending);
        }
        KeptIdentity(database.config, t, request);
        r := database.Transition(request.id, Observed, if ready then EvidenceReady else Rejected);
        return;
      }
      var plan: Plan;
      var found := false;
      if request.state == EvidenceReady {
        var loaded := database.LoadCurrentPlan(request.id);
        if loaded.Ok? {
          plan, found := loaded.value, true;
        } else if loaded.error != NotFound {
          return Err(loaded.error);
        } else {
          plan := *;
        }
      } else {
        plan := *;
      }
      if !found {
        var planned := PlanFor(request, work);
        if planned.Err? {
          return Err(planned.error);
        }
        plan := planned.value;
      }
      ghost var t1 := database.tables;
      if !BindsWork(database.config.ids, work, plan) {
        return Err(WorkMismatch);
      }
      KeptIdentity(database.config, t1, request);
      PlanIDKept(database.config, t1, request.id);
      var to := if request.state == EvidenceReady then Planned else if plan.kind == DirectPlan then DirectFallback else Replanned;
      r := database.Transition(request.id, request.state, to);
      EvolvesTransitive(t, t1, database.tables);
    }

    /** Restart-safe processing: artifact first, state second, so a crash anywhere leaves every state backed. */
    method Process(work: Work) returns (r: Result<Outcome, CoordinatorError>)
      requires database.IsSound()
      modifies database
      ensures database.IsSound() && Evolves(old(database.tables), database.tables) && (old(PlansFollow(database.tables)) ==> PlansFollow(database.tables))
      ensures r.Ok? ==> Delivers(database.config, database.tables, work, r.value)
    {
      hide Sound, Evolves, Delivers, PlansFollow;
      ghost var t := database.tables;
      var resumed := Resume(work);
      if resumed.Err? {
        return Err(resumed.error);
      }
      var request := resumed.value;
      while true
        invariant database.IsSound() && Evolves(t, database.tables) && Holds(request) && request.id == work.request.id
        invariant PlansFollow(t) ==> PlansFollow(database.tables)
        decreases Rank(request.state)
      {
        ghost var t0 := database.tables;
        database.OthersRun();
        ghost var t1 := database.tables;
        EvolvesTransitive(t, t0, t1);
        if request.state == Rejected || request.state == DirectFallback || request.state == ProofReady {
          r := Finish(work, request);
          EvolvesTransitive(t, t1, database.tables);
          return;
        }
        if request.state == Planned || request.state == Replanned {
          r := Prove(work, request);
          EvolvesTransitive(t, t1, database.tables);
          return;
        }
        var advanced := Advance(work, request);
        EvolvesTransitive(t, t1, database.tables);
        if advanced.Err? {
          return Err(advanced.error);
        }
        request := advanced.value;
      }
    }
  }

  /** The current plan of a request is stored under its own ID, and a direct plan names its reason. */
  lemma PlanIDKept(config: Config, t: Tables, requestID: Word)
    requires Sound(config, t)
    ensures requestID in t.current ==>
              && t.current[requestID] in t.plans
              && var plan := t.plans[t.current[requestID]];
                 && plan.id == t.current[requestID] && plan.requestID == requestID && (plan.kind == DirectPlan ==> plan.fallback != NoFallback)
  {
    hide RequestsBacked, AllVerified;
  }

  lemma KeptIdentity(config: Config, t: Tables, request: Request)
    requires Sound(config, t) && request.id in t.requests
    ensures t.requests[request.id].id == request.id
  {
    hide PlansKept, AllVerified;
  }

  lemma SnapshotsGrow(config: Config, t: Tables, snapshots: map<Word, Snapshot>, materials: map<(Word, Word, nat, Word), Material>)
    requires Sound(config, t)
    ensures var t' := t.(snapshots := snapshots + t.snapshots, materials := materials + t.materials); Sound(config, t') && Evolves(t, t')
  {
    hide PlansKept, CurrentIsLatest, RequestsBacked, Merkle.AcceptsPath;
    var t' := t.(snapshots := snapshots + t.snapshots, materials := materials + t.materials);
    forall proof | proof in t.proofs ensures Verified(config, t'.plans, t'.snapshots, proof) {
      assert Verified(config, t.plans, t.snapshots, proof);
    }
  }

  lemma BuiltIsVerified(config: Config, t: Tables, store: Store, request: BuildRequest, proof: Proof, materials: seq<Material>)
    requires store == Store(t.plans, t.snapshots, t.materials)
    requires Buildable(config.h, config.ids, store, request, config.depth, materials)
    requires proof.planID == request.planID
    requires Merkle.AcceptsPath(config.h, proof.baseTrustRoot, proof.blockHashes, proof.witnesses, request.expectedHomeTrustRoot, config.depth)
    ensures Verified(config, t.plans, t.snapshots, proof)
  {
    hide Merkle.AcceptsPath, CompleteChain;
  }
}
