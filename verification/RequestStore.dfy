/**
 The request coordinator's durable tables: requests and their transition log,
 plans with one current plan per request, and verified path proofs.
 */
module RequestStore {
  import opened Base
  import opened TrustGraph
  import opened PathProof
  import Merkle

  datatype RequestState = Observed | EvidenceReady | Planned | ProofReady | Rejected | Retryable | Replanned | DirectFallback

  /** A request: its identity never changes, its state does. */
  datatype Request = Request(id: Word, homeChainID: Word, sourceBlockHash: Word, otherFields: seq<Word>, state: RequestState, createdAt: int)

  predicate SameIdentity(a: Request, b: Request) {
    a.(state := Observed, createdAt := 0) == b.(state := Observed, createdAt := 0)
  }

  predicate Legal(from: RequestState, to: RequestState) {
    || (from == Observed && (to == EvidenceReady || to == Rejected))
    || (from == EvidenceReady && to == Planned)
    || (from == Planned && (to == ProofReady || to == Retryable))
    || (from == ProofReady && to == Retryable)
    || (from == DirectFallback && to == Retryable)
    || (from == Retryable && (to == Replanned || to == DirectFallback))
    || (from == Replanned && to == ProofReady)
  }

  datatype Tables = Tables(
    requests: map<Word, Request>,
    transitions: set<(Word, RequestState, RequestState)>,
    plans: map<Word, Plan>,
    current: map<Word, Word>,
    proofs: set<Proof>,
    snapshots: map<Word, Snapshot>,
    materials: map<(Word, Word, nat, Word), Material>)

  /** What the deployment fixes. */
  datatype Config = Config(h: Merkle.PairHash, ids: ContentIDs, depth: nat)

  const MAX_INT64: nat := 0x7fff_ffff_ffff_ffff

  predicate Fits(cost: Option<uint64>) {
    cost.None? || cost.value <= MAX_INT64
  }

  /** What the plan table accepts. */
  predicate Storable(ids: ContentIDs, plan: Plan) {
    && plan.id == ComputePlanID(ids, plan) && plan.id != 0 && plan.requestID != 0 && plan.snapshotID != 0
    && plan.homeNodeID != 0 && plan.targetNodeID != 0
    && plan.attempt <= MAX_INT64 && plan.pathStepCost <= MAX_INT64 && Fits(plan.pathCost) && Fits(plan.directCost)
    && (if plan.hops != [] then plan.pathStepCost != 0 && plan.pathCost == Some(|plan.hops| * plan.pathStepCost)
        else plan.pathCost.None? && plan.pathStepCost == 0)
    && (plan.kind == PathPlan ==> plan.hops != [] && plan.directCost.Some? && plan.fallback == NoFallback)
    && (plan.kind == DirectPlan ==> plan.fallback != NoFallback)
  }

  // ---------------------------------------------------------------------
  // What every step keeps
  // ---------------------------------------------------------------------

  /** The proof was accepted against the home root of its plan's snapshot. */
  ghost predicate Verified(config: Config, plans: map<Word, Plan>, snapshots: map<Word, Snapshot>, proof: Proof) {
    && proof.planID in plans && plans[proof.planID].snapshotID in snapshots
    && Merkle.AcceptsPath(config.h, proof.baseTrustRoot, proof.blockHashes, proof.witnesses,
                          snapshots[plans[proof.planID].snapshotID].homeTrustRoot, config.depth)
  }

  ghost predicate AllVerified(config: Config, plans: map<Word, Plan>, snapshots: map<Word, Snapshot>, proofs: set<Proof>) {
    forall proof :: proof in proofs ==> Verified(config, plans, snapshots, proof)
  }

  ghost predicate HasProof(proofs: set<Proof>, planID: Word) {
    exists proof :: proof in proofs && proof.planID == planID
  }

  predicate NeedsPlan(state: RequestState) {
    state == Planned || state == ProofReady || state == Replanned || state == DirectFallback
  }

  /** The durable artifact a state promises. */
  ghost predicate Backed(plans: map<Word, Plan>, current: map<Word, Word>, proofs: set<Proof>, request: Request) {
    NeedsPlan(request.state) ==>
      && request.id in current && current[request.id] in plans
      && var plan := plans[current[request.id]];
         && (request.state == ProofReady || request.state == Replanned ==> plan.kind == PathPlan)
         && (request.state == ProofReady ==> HasProof(proofs, plan.id))
         && (request.state == DirectFallback ==> plan.kind == DirectPlan && plan.fallback != NoFallback)
  }

  ghost predicate PlansKept(ids: ContentIDs, plans: map<Word, Plan>) {
    && (forall id :: id in plans ==> plans[id].id == id && Storable(ids, plans[id]))
    && (forall x, y :: x in plans && y in plans && plans[x].requestID == plans[y].requestID && plans[x].attempt == plans[y].attempt ==> x == y)
  }

  /** The current plan is the one of the latest attempt. */
  ghost predicate CurrentIsLatest(plans: map<Word, Plan>, current: map<Word, Word>) {
    && (forall r :: r in current ==> current[r] in plans && plans[current[r]].requestID == r)
    && (forall id :: id in plans ==> plans[id].requestID in current && plans[id].attempt <= plans[current[plans[id].requestID]].attempt)
  }

  ghost predicate RequestsBacked(requests: map<Word, Request>, plans: map<Word, Plan>, current: map<Word, Word>, proofs: set<Proof>) {
    forall id :: id in requests ==> requests[id].id == id && Backed(plans, current, proofs, requests[id])
  }

  ghost predicate Sound(config: Config, t: Tables) {
    && PlansKept(config.ids, t.plans) && CurrentIsLatest(t.plans, t.current)
    && RequestsBacked(t.requests, t.plans, t.current, t.proofs)
    && AllVerified(config, t.plans, t.snapshots, t.proofs)
  }

  /** Only requests past their evidence have a plan. */
  ghost predicate PlansFollow(t: Tables) {
    forall r :: r in t.current ==> r in t.requests && t.requests[r].state != Observed && t.requests[r].state != Rejected
  }

  ghost predicate Extends<K(!new), V(!new)>(m: map<K, V>, m': map<K, V>) {
    forall k :: k in m ==> k in m' && m'[k] == m[k]
  }

  /** Later tables: plans, proofs, snapshots and identities stay, current attempts only grow. */
  ghost predicate Evolves(t: Tables, t': Tables) {
    && (forall id :: id in t.requests ==> id in t'.requests && SameIdentity(t'.requests[id], t.requests[id]))
    && t.transitions <= t'.transitions && Extends(t.plans, t'.plans) && t.proofs <= t'.proofs
    && Extends(t.snapshots, t'.snapshots) && Extends(t.materials, t'.materials)
    && (forall r :: r in t.current && t.current[r] in t.plans ==>
          r in t'.current && t'.current[r] in t'.plans && t.plans[t.current[r]].attempt <= t'.plans[t'.current[r]].attempt)
  }

  lemma EvolvesReflexive(t: Tables)
    ensures Evolves(t, t)
  {
  }

  lemma EvolvesTransitive(t1: Tables, t2: Tables, t3: Tables)
    requires Evolves(t1, t2) && Evolves(t2, t3)
    ensures Evolves(t1, t3)
  {
  }

  // ---------------------------------------------------------------------
  // The atomic changes
  // ---------------------------------------------------------------------

  /** States in which a new current plan contradicts nothing. */
  predicate Replannable(t: Tables, requestID: Word) {
    requestID in t.requests ==> t.requests[requestID].state !in {ProofReady, Replanned, DirectFallback}
  }

  function WithPlan(t: Tables, plan: Plan): Tables {
    t.(plans := t.plans[plan.id := plan], current := t.current[plan.requestID := plan.id])
  }

  ghost predicate NewAttempt(t: Tables, plan: Plan) {
    && plan.id !in t.plans
    && (plan.requestID in t.current && t.current[plan.requestID] in t.plans ==> t.plans[t.current[plan.requestID]].attempt < plan.attempt)
  }

  lemma PlanKeepsPlans(ids: ContentIDs, t: Tables, plan: Plan)
    requires PlansKept(ids, t.plans) && CurrentIsLatest(t.plans, t.current) && Storable(ids, plan) && NewAttempt(t, plan)
    ensures PlansKept(ids, t.plans[plan.id := plan])
  {
    hide Storable;
    var plans' := t.plans[plan.id := plan];
    forall x | x in t.plans ensures !(t.plans[x].requestID == plan.requestID && t.plans[x].attempt == plan.attempt) {
    }
  }

  lemma PlanIsLatest(t: Tables, plan: Plan)
    requires CurrentIsLatest(t.plans, t.current) && NewAttempt(t, plan)
    ensures CurrentIsLatest(t.plans[plan.id := plan], t.current[plan.requestID := plan.id])
  {
  }

  lemma PlanKeepsRequests(t: Tables, plan: Plan)
    requires RequestsBacked(t.requests, t.plans, t.current, t.proofs) && CurrentIsLatest(t.plans, t.current)
    requires Replannable(t, plan.requestID) && plan.id !in t.plans
    ensures RequestsBacked(t.requests, t.plans[plan.id := plan], t.current[plan.requestID := plan.id], t.proofs)
  {
    hide HasProof;
    var plans', current' := t.plans[plan.id := plan], t.current[plan.requestID := plan.id];
    forall id | id in t.requests ensures t.requests[id].id == id && Backed(plans', current', t.proofs, t.requests[id]) {
      assert Backed(t.plans, t.current, t.proofs, t.requests[id]);
    }
  }

  lemma PlanEvolves(t: Tables, plan: Plan)
    requires CurrentIsLatest(t.plans, t.current) && NewAttempt(t, plan)
    ensures Evolves(t, WithPlan(t, plan))
  {
  }

  lemma PlanKeeps(config: Config, t: Tables, plan: Plan)
    requires Sound(config, t) && Storable(config.ids, plan) && NewAttempt(t, plan)
    ensures Evolves(t, WithPlan(t, plan))
    ensures Replannable(t, plan.requestID) ==> Sound(config, WithPlan(t, plan))
  {
    hide Storable, PlansKept, CurrentIsLatest, RequestsBacked, AllVerified, Evolves, Replannable, NewAttempt;
    PlanKeepsPlans(config.ids, t, plan);
    PlanIsLatest(t, plan);
    PlanEvolves(t, plan);
    if Replannable(t, plan.requestID) {
      PlanIsNew(t, plan);
      PlanKeepsRequests(t, plan);
      ProofsStay(config, t.plans, t.plans[plan.id := plan], t.snapshots, t.proofs);
    }
  }

  lemma PlanIsNew(t: Tables, plan: Plan)
    requires NewAttempt(t, plan)
    ensures plan.id !in t.plans && Extends(t.plans, t.plans[plan.id := plan])
  {
  }

  lemma ProofsStay(config: Config, plans: map<Word, Plan>, plans': map<Word, Plan>, snapshots: map<Word, Snapshot>, proofs: set<Proof>)
    requires Extends(plans, plans') && AllVerified(config, plans, snapshots, proofs)
    ensures AllVerified(config, plans', snapshots, proofs)
  {
    hide Merkle.AcceptsPath;
    forall proof | proof in proofs ensures Verified(config, plans', snapshots, proof) {
      assert Verified(config, plans, snapshots, proof);
    }
  }

  function Moved(t: Tables, id: Word, to: RequestState): Tables
    requires id in t.requests
  {
    t.(requests := t.requests[id := t.requests[id].(state := to)], transitions := t.transitions + {(id, t.requests[id].state, to)})
  }

  /** A transition keeps everything when the new state is backed. */
  lemma MoveKeeps(config: Config, t: Tables, id: Word, to: RequestState)
    requires Sound(config, t) && id in t.requests
    ensures Evolves(t, Moved(t, id, to))
    ensures Backed(t.plans, t.current, t.proofs, t.requests[id].(state := to)) ==> Sound(config, Moved(t, id, to))
  {
    hide PlansKept, CurrentIsLatest, AllVerified, Backed;
  }

  lemma ProofKeepsRequests(t: Tables, proof: Proof)
    requires RequestsBacked(t.requests, t.plans, t.current, t.proofs)
    ensures RequestsBacked(t.requests, t.plans, t.current, t.proofs + {proof}) && HasProof(t.proofs + {proof}, proof.planID)
  {
    assert proof in t.proofs + {proof};
    forall id | id in t.requests ensures t.requests[id].id == id && Backed(t.plans, t.current, t.proofs + {proof}, t.requests[id]) {
      assert Backed(t.plans, t.current, t.proofs, t.requests[id]);
    }
  }

  lemma ProofKeeps(config: Config, t: Tables, proof: Proof)
    requires Sound(config, t) && Verified(config, t.plans, t.snapshots, proof)
    ensures var t' := t.(proofs := t.proofs + {proof});
            Sound(config, t') && Evolves(t, t') && HasProof(t'.proofs, proof.planID)
  {
    hide PlansKept, CurrentIsLatest, Verified, RequestsBacked, HasProof;
    ProofKeepsRequests(t, proof);
  }

  lemma ObserveKeeps(config: Config, t: Tables, request: Request)
    requires Sound(config, t) && request.id !in t.requests && request.state == Observed
    ensures var t' := t.(requests := t.requests[request.id := request]); Sound(config, t') && Evolves(t, t')
  {
    hide PlansKept, CurrentIsLatest, AllVerified;
    assert Backed(t.plans, t.current, t.proofs, request);
  }

  /** The observed requests of others join those already there. */
  function WithObserved(t: Tables, others: map<Word, Request>): Tables {
    t.(requests := (map id | id in others && others[id].id == id && others[id].state == Observed :: others[id]) + t.requests)
  }

  lemma ObservedKeep(config: Config, t: Tables, others: map<Word, Request>)
    requires Sound(config, t)
    ensures Sound(config, WithObserved(t, others)) && Evolves(t, WithObserved(t, others))
    ensures PlansFollow(t) ==> PlansFollow(WithObserved(t, others))
  {
    hide PlansKept, CurrentIsLatest, AllVerified, Backed;
    var t' := WithObserved(t, others);
    forall id | id in t'.requests ensures t'.requests[id].id == id && Backed(t.plans, t.current, t.proofs, t'.requests[id]) {
      if id !in t.requests {
        ObservedIsBacked(t, t'.requests[id]);
      }
    }
  }

  lemma ObservedIsBacked(t: Tables, request: Request)
    requires request.state == Observed
    ensures Backed(t.plans, t.current, t.proofs, request)
  {
  }

  /** No transition takes a plan's request back to where it had none. */
  lemma MoveFollows(t: Tables, id: Word, to: RequestState)
    requires id in t.requests && Legal(t.requests[id].state, to)
    ensures PlansFollow(t) ==> PlansFollow(Moved(t, id, to))
  {
  }
}
