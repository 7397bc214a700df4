/**
 The request worker joins the two protocols: the coordinator plans and proves a
 request, the executor stores and sends the submission that carries the plan out.
 */
module RequestWork {
  import opened Base
  import opened Executor
  import opened ExecutorProcess
  import TrustGraph
  import PathProof
  import Merkle
  import Requests = RequestStore
  import Coordination = RequestCoordinator

  // ---------------------------------------------------------------------
  // What a stored submission is about
  // ---------------------------------------------------------------------

  type ProofID = PathProof.Proof -> Word

  /** The submission carries out a stored plan of its request, attempt and snapshot, and for a path plan a stored proof. */
  ghost predicate Planned(proofID: ProofID, rt: Requests.Tables, c: Content) {
    && c.planID in rt.plans
    && var plan := rt.plans[c.planID];
       && plan.requestID == c.requestID && plan.attempt == c.attempt && plan.snapshotID == c.snapshotID
       && (c.planKind == PathPlan <==> plan.kind == TrustGraph.PathPlan)
       && (c.planKind == PathPlan ==> exists proof :: proof in rt.proofs && proof.planID == c.planID && c.proofID == Some(proofID(proof)))
  }

  ghost predicate AllPlanned(proofID: ProofID, rt: Requests.Tables, t: Tables) {
    forall id :: id in t.submissions ==> Planned(proofID, rt, t.submissions[id].content)
  }

  /** Plans and proofs are never lost, so what a submission is about stays. */
  lemma PlannedStays(proofID: ProofID, rt: Requests.Tables, rt': Requests.Tables, c: Content)
    requires Planned(proofID, rt, c) && Requests.Evolves(rt, rt')
    ensures Planned(proofID, rt', c)
  {
    if c.planKind == PathPlan {
      var proof :| proof in rt.proofs && proof.planID == c.planID && c.proofID == Some(proofID(proof));
      assert proof in rt'.proofs;
    }
  }

  lemma AllPlannedStays(proofID: ProofID, rt: Requests.Tables, rt': Requests.Tables, t: Tables, t': Tables)
    requires AllPlanned(proofID, rt, t) && Requests.Evolves(rt, rt') && Evolves(t, t')
    requires forall id :: id in t'.submissions && id !in t.submissions ==> Planned(proofID, rt', t'.submissions[id].content)
    ensures AllPlanned(proofID, rt', t')
  {
    hide Planned, Requests.Evolves;
    forall id | id in t'.submissions ensures Planned(proofID, rt', t'.submissions[id].content) {
      if id in t.submissions {
        PlannedStays(proofID, rt, rt', t.submissions[id].content);
      }
    }
  }

  /** Every stored path submission names a stored proof that was accepted against the home root of its snapshot. */
  lemma PathSubmissionsAreProved(config: Requests.Config, proofID: ProofID, rt: Requests.Tables, c: Content)
    requires Requests.Sound(config, rt) && Planned(proofID, rt, c) && c.planKind == PathPlan
    ensures c.snapshotID in rt.snapshots
    ensures exists proof :: && proof in rt.proofs && c.proofID == Some(proofID(proof)) && proof.planID == c.planID
                            && Merkle.AcceptsPath(config.h, proof.baseTrustRoot, proof.blockHashes, proof.witnesses,
                                                  rt.snapshots[c.snapshotID].homeTrustRoot, config.depth)
  {
    hide Merkle.AcceptsPath, Requests.PlansKept, Requests.CurrentIsLatest, Requests.RequestsBacked;
    var proof :| proof in rt.proofs && proof.planID == c.planID && c.proofID == Some(proofID(proof));
    assert Requests.Verified(config, rt.plans, rt.snapshots, proof);
  }

  function KindOf(kind: TrustGraph.PlanType): PlanKind {
    if kind == TrustGraph.PathPlan then PathPlan else DirectPlan
  }

  /** An intent built from what the coordinator delivered. */
  ghost predicate Intends(proofID: ProofID, work: Coordination.Work, outcome: Coordination.Outcome, intent: SubmissionIntent) {
    && outcome.plan.Some? && intent.requestID == work.request.id && intent.attempt == work.attempt
    && intent.planID == outcome.plan.value.id && intent.planKind == KindOf(outcome.plan.value.kind) && intent.snapshotID == work.snapshotID
    && intent.proofID == if outcome.plan.value.kind == TrustGraph.PathPlan && outcome.proof.Some? then Some(proofID(outcome.proof.value)) else None
  }

  /** A rejected request has no plan, so what is delivered with one can be submitted. */
  lemma DeliveredIsPlanned(config: Requests.Config, proofID: ProofID, rt: Requests.Tables, work: Coordination.Work, outcome: Coordination.Outcome,
                           intent: SubmissionIntent, c: Content)
    requires Requests.Sound(config, rt) && Requests.PlansFollow(rt) && Coordination.Delivers(config, rt, work, outcome)
    requires Intends(proofID, work, outcome, intent) && FromIntent(intent, c)
    ensures Planned(proofID, rt, c)
  {
    hide Merkle.AcceptsPath, Requests.Sound;
    Coordination.PlanIDKept(config, rt, work.request.id);
  }

  // ---------------------------------------------------------------------
  // Attempts
  // ---------------------------------------------------------------------

  /** Among the plans `among`, the one of the request's latest attempt, if it has any. */
  ghost predicate IsLatest(plans: map<Word, TrustGraph.Plan>, among: set<Word>, requestID: Word, latest: Option<Word>)
    requires among <= plans.Keys
  {
    match latest
    case None => forall id :: id in among ==> plans[id].requestID != requestID
    case Some(last) =>
      && last in among && plans[last].requestID == requestID
      && forall id :: id in among && plans[id].requestID == requestID ==> plans[id].attempt <= plans[last].attempt
  }

  /** The latest attempt that has a plan, one more after it was sent back, zero before the first. */
  ghost predicate IsNextAttempt(rt: Requests.Tables, requestID: Word, attempt: nat)
    requires requestID in rt.requests
  {
    exists latest :: && IsLatest(rt.plans, rt.plans.Keys, requestID, latest)
                     && attempt == AttemptAfter(rt, requestID, latest)
  }

  function AttemptAfter(rt: Requests.Tables, requestID: Word, latest: Option<Word>): nat
    requires requestID in rt.requests
  {
    if latest.None? || latest.value !in rt.plans then 0
    else rt.plans[latest.value].attempt + if rt.requests[requestID].state == Requests.Retryable then 1 else 0
  }

  /** A request sent back gets an attempt no plan has. */
  lemma RetriesAreNew(rt: Requests.Tables, requestID: Word, attempt: nat)
    requires requestID in rt.requests && IsNextAttempt(rt, requestID, attempt) && rt.requests[requestID].state == Requests.Retryable
    ensures forall id :: id in rt.plans && rt.plans[id].requestID == requestID ==> rt.plans[id].attempt != attempt
  {
    var latest :| IsLatest(rt.plans, rt.plans.Keys, requestID, latest) && attempt == AttemptAfter(rt, requestID, latest);
  }

  lemma AttemptsFit(config: Requests.Config, rt: Requests.Tables, id: Word)
    requires Requests.Sound(config, rt) && id in rt.plans
    ensures rt.plans[id].attempt < MAX_UINT64
  {
    hide Requests.CurrentIsLatest, Requests.RequestsBacked, Requests.AllVerified;
    assert Requests.Storable(config.ids, rt.plans[id]);
  }

  method NextAttempt(database: Coordination.RequestDatabase, requestID: Word) returns (r: Result<uint64, ExecError>)
    requires database.IsSound()
    ensures r.Ok? ==> requestID in database.tables.requests && IsNextAttempt(database.tables, requestID, r.value)
  {
    hide Requests.Sound;
    var failure: bool := *;
    if failure || requestID !in database.tables.requests {
      return Err(Database);
    }
    var plans := database.tables.plans;
    var latest: Option<Word>, pending := None, plans.Keys;
    while pending != {}
      invariant pending <= plans.Keys && IsLatest(plans, plans.Keys - pending, requestID, latest)
      decreases pending
    {
      var id :| id in pending;
      if plans[id].requestID == requestID && (latest.None? || plans[latest.value].attempt < plans[id].attempt) {
        latest := Some(id);
      }
      pending := pending - {id};
    }
    assert plans.Keys - pending == plans.Keys;
    if latest.Some? {
      AttemptsFit(database.config, database.tables, latest.value);
    }
    return Ok(AttemptAfter(database.tables, requestID, latest));
  }

  /** A selected request may get a row, whatever the indexer adds meanwhile. */
  lemma SelectedMayStore(t: Tables, t': Tables, history: seq<Action>, requests: map<Word, RequestRow>, id: Word)
    requires Idle(t) && FirstEligible(t, requests, requests.Keys, Some(id)) && t'.submissions == t.submissions
    ensures Exclusive(t', history) ==> MayStore(t', history, id)
  {
  }

  // ---------------------------------------------------------------------
  // The worker
  // ---------------------------------------------------------------------

  class RequestWorker {
    const submitter: TransactionSubmitter
    const coordinator: Coordination.Coordinator
    const proofID: ProofID

    constructor (submitter: TransactionSubmitter, coordinator: Coordination.Coordinator, proofID: ProofID)
      ensures this.submitter == submitter && this.coordinator == coordinator && this.proofID == proofID
    {
      this.submitter, this.coordinator, this.proofID := submitter, coordinator, proofID;
    }

    ghost predicate Valid()
      reads submitter.repository, coordinator.database
    {
      && submitter.Valid() && submitter.repository.IsSafe()
      && coordinator.database.IsSound() && Requests.PlansFollow(coordinator.database.tables)
      && AllPlanned(proofID, coordinator.database.tables, submitter.repository.tables)
    }

    /** What selecting work reads of the requests. */
    function Rows(): map<Word, RequestRow>
      reads coordinator.database
    {
      var requests := coordinator.database.tables.requests;
      map id | id in requests :: RequestRow(requests[id].createdAt, requests[id].state == Requests.Rejected)
    }

    /** Observe the endpoints, seal a snapshot, and let the coordinator plan and prove. */
    method Deliver(requestID: Word) returns (r: Result<(Coordination.Work, Coordination.Outcome), ExecError>)
      requires coordinator.database.IsSound() && Requests.PlansFollow(coordinator.database.tables)
      modifies coordinator.database
      ensures coordinator.database.IsSound() && Requests.PlansFollow(coordinator.database.tables)
      ensures Requests.Evolves(old(coordinator.database.tables), coordinator.database.tables)
      ensures r.Ok? ==>
                && r.value.0.request.id == requestID
                && Coordination.Delivers(coordinator.database.config, coordinator.database.tables, r.value.0, r.value.1)
    {
      hide Requests.Sound, Requests.Evolves, Requests.PlansFollow, Coordination.Delivers;
      var database := coordinator.database;
      ghost var rt := database.tables;
      Requests.EvolvesReflexive(rt);
      var attempt := NextAttempt(database, requestID);
      if attempt.Err? {
        return Err(attempt.error);
      }
      var request := database.tables.requests[requestID];
      Coordination.KeptIdentity(database.config, rt, request.(id := requestID));
      var observed: bool, snapshotID: Word, homeTrustRoot: Word := *, *, *;
      if !observed {
        return Err(Network);
      }
      database.OthersRun();
      ghost var rt1 := database.tables;
      var work := Coordination.Work(request, attempt.value, snapshotID, homeTrustRoot);
      var processed := coordinator.Process(work);
      Requests.EvolvesTransitive(rt, rt1, database.tables);
      return if processed.Ok? then Ok((work, processed.value)) else Err(Database);
    }

    /** Recover, select, plan, submit. Every stored submission carries out a stored plan of its request. */
    method Step() returns (r: Result<bool, ExecError>)
      requires Valid()
      modifies submitter.repository, coordinator.database
      ensures Valid() && Requests.Evolves(old(coordinator.database.tables), coordinator.database.tables)
      ensures Kept(submitter.repository.hashes, old(submitter.repository.tables), old(submitter.repository.history),
                   submitter.repository.tables, submitter.repository.history)
      ensures NewlyDeep(submitter.confirmationDepth, old(submitter.repository.tables), submitter.repository.tables)
    {
      hide Kept, Exclusive, Evolves, Safe, Requests.Sound, Requests.Evolves, Requests.PlansFollow, Coordination.Delivers, AllPlanned, Planned;
      hide FirstEligible, Idle, MayStore, Rows;
      var repository, database := submitter.repository, coordinator.database;
      ghost var hashes, t, history, rt := repository.hashes, repository.tables, repository.history, database.tables;
      Requests.EvolvesReflexive(rt);
      var recovered := submitter.Recover();
      ghost var t1, h1 := repository.tables, repository.history;
      KeptIsSafe(hashes, t, history, t1, h1);
      AllPlannedStays(proofID, rt, rt, t, t1);
      if recovered.Err? {
        return Err(recovered.error);
      }
      var next := repository.NextRequest(Rows());
      if next.Err? || next.value.None? {
        return if next.Err? then Err(next.error) else Ok(false);
      }
      repository.IndexerRuns();
      ghost var t2 := repository.tables;
      SelectedMayStore(t1, t2, h1, Rows(), next.value.value);
      StepKept(hashes, t1, h1, t2, h1);
      KeptTransitive(hashes, t, history, t1, h1, t2, h1);
      var delivered := Deliver(next.value.value);
      ghost var rt1 := database.tables;
      AllPlannedStays(proofID, rt, rt1, t1, t2);
      if delivered.Err? {
        return Err(delivered.error);
      }
      var (work, outcome) := delivered.value;
      if outcome.plan.None? {
        return Err(InvalidSubmission);
      }
      r := SubmitPlan(work, outcome);
      StepKept(hashes, t2, h1, repository.tables, repository.history);
      KeptTransitive(hashes, t, history, t2, h1, repository.tables, repository.history);
      Requests.EvolvesTransitive(rt, rt1, database.tables);
    }

    /** Build the call, store and send it; a stale root sends the request back. */
    method SubmitPlan(work: Coordination.Work, outcome: Coordination.Outcome) returns (r: Result<bool, ExecError>)
      requires Valid() && outcome.plan.Some?
      requires Coordination.Delivers(coordinator.database.config, coordinator.database.tables, work, outcome)
      modifies submitter.repository, coordinator.database
      ensures Valid() && Requests.Evolves(old(coordinator.database.tables), coordinator.database.tables)
      ensures Evolves(old(submitter.repository.tables), submitter.repository.tables) && old(submitter.repository.history) <= submitter.repository.history
      ensures old(MayStore(submitter.repository.tables, submitter.repository.history, work.request.id))
              ==> Exclusive(submitter.repository.tables, submitter.repository.history)
      ensures submitter.repository.tables.confirmed == old(submitter.repository.tables).confirmed
    {
      hide Exclusive, Evolves, Safe, Idle, HasConfirmed, Requests.Sound, Requests.Evolves, Requests.PlansFollow, Coordination.Delivers, AllPlanned, Planned;
      var repository, database := submitter.repository, coordinator.database;
      ghost var t, rt := repository.tables, database.tables;
      Requests.EvolvesReflexive(rt);
      EvolvesReflexive(t);
      var plan := outcome.plan.value;
      var built: bool, gateway: Word, calldata: Bytes := *, *, *;
      if !built {
        return Err(Network);
      }
      var proof := if plan.kind == TrustGraph.PathPlan && outcome.proof.Some? then Some(proofID(outcome.proof.value)) else None;
      var intent := SubmissionIntent(work.request.id, work.attempt, plan.id, KindOf(plan.kind), work.snapshotID, proof,
                                     work.request.homeChainID, gateway, submitter.sender, calldata);
      var submitted := submitter.Submit(intent);
      forall id | id in repository.tables.submissions && id !in t.submissions
        ensures Planned(proofID, rt, repository.tables.submissions[id].content)
      {
        DeliveredIsPlanned(database.config, proofID, rt, work, outcome, intent, repository.tables.submissions[id].content);
      }
      AllPlannedStays(proofID, rt, rt, t, repository.tables);
      if submitted == Err(StaleHomeTrustRoot) {
        ghost var t1 := repository.tables;
        var retried := database.MarkRetryable(outcome.request);
        EvolvesReflexive(t1);
        AllPlannedStays(proofID, rt, database.tables, t1, t1);
        return if retried.Ok? then Ok(false) else Err(Database);
      }
      if submitted.Err? {
        return if submitted.error == HomeBlockBoundary then Ok(false) else Err(submitted.error);
      }
      return Ok(true);
    }

    /** Any number of steps, with restarts in between. */
    method Run(steps: nat)
      requires Valid() && Exclusive(submitter.repository.tables, submitter.repository.history)
      requires AllDeep(submitter.confirmationDepth, submitter.repository.tables)
      modifies submitter.repository, coordinator.database
      ensures Valid() && Requests.Evolves(old(coordinator.database.tables), coordinator.database.tables)
      ensures Kept(submitter.repository.hashes, old(submitter.repository.tables), old(submitter.repository.history),
                   submitter.repository.tables, submitter.repository.history)
      ensures Exclusive(submitter.repository.tables, submitter.repository.history)
      ensures AllDeep(submitter.confirmationDepth, submitter.repository.tables)
    {
      hide Kept, Exclusive, Evolves, Valid, Safe, AllDeep, Requests.Evolves;
      var repository, database := submitter.repository, coordinator.database;
      ghost var hashes, t, history, rt := repository.hashes, repository.tables, repository.history, database.tables;
      ValidIsSafe();
      KeptReflexive(hashes, t, history);
      Requests.EvolvesReflexive(rt);
      for i := 0 to steps
        invariant Valid() && Kept(hashes, t, history, repository.tables, repository.history)
        invariant Requests.Evolves(rt, database.tables) && AllDeep(submitter.confirmationDepth, repository.tables)
      {
        ghost var t1, h1, rt1 := repository.tables, repository.history, database.tables;
        var _ := Step();
        KeptIsSafe(hashes, t1, h1, repository.tables, repository.history);
        StaysDeep(submitter.confirmationDepth, t1, repository.tables);
        KeptTransitive(hashes, t, history, t1, h1, repository.tables, repository.history);
        Requests.EvolvesTransitive(rt, rt1, database.tables);
      }
      KeptExclusive(hashes, t, history, repository.tables, repository.history);
    }

    lemma ValidIsSafe()
      requires Valid()
      ensures submitter.repository.IsSafe()
    {
    }
  }
}
