/** The submission repository, the transaction submitter and the request worker as objects. */
module ExecutorProcess {
  import opened Base
  import opened Executor

  datatype ExecError =
    | Database
    | Network
    | NotFound
    | InvalidSubmission
    | InvalidTransition
    | ConcurrentUpdate
    | RecordConflict
    | BundlePending
    | BroadcastAmbiguous
    | StaleHomeTrustRoot
    | HomeBlockBoundary

  /** What selecting work reads of a request. */
  datatype RequestRow = RequestRow(createdAt: int, rejected: bool)

  /** Still to be executed: not rejected, not resolved, not confirmed. */
  predicate Eligible(t: Tables, requests: map<Word, RequestRow>, id: Word) {
    id in requests && !requests[id].rejected && id !in t.resolutions && !HasConfirmed(t, id)
  }

  /** Oldest first, then by ID. */
  predicate Before(requests: map<Word, RequestRow>, a: Word, b: Word)
    requires a in requests && b in requests
  {
    requests[a].createdAt < requests[b].createdAt || (requests[a].createdAt == requests[b].createdAt && a < b)
  }

  /** The first eligible request, or none if there is none. */
  ghost predicate FirstEligible(t: Tables, requests: map<Word, RequestRow>, among: set<Word>, r: Option<Word>) {
    match r
    case None => forall id :: id in among ==> !Eligible(t, requests, id)
    case Some(first) =>
      && first in among && Eligible(t, requests, first)
      && forall id :: id in among && Eligible(t, requests, id) ==> id == first || Before(requests, first, id)
  }

  class TransactionRepository {
    const hashes: Hashes
    var tables: Tables
    ghost var history: seq<Action>

    constructor (hashes: Hashes)
      ensures tables == Tables(map[], {}, map[], {}, map[]) && history == [] && this.hashes == hashes
      ensures IsSafe() && Exclusive(tables, history)
    {
      this.hashes, tables, history := hashes, Tables(map[], {}, map[], {}, map[]), [];
    }

    ghost predicate IsSafe()
      reads this
    {
      Safe(hashes, tables, history)
    }

    /** The indexer commits some receipts and resolutions of its own. */
    method IndexerRuns()
      requires IsSafe()
      modifies this
      ensures IsSafe() && Evolves(old(tables), tables) && history == old(history)
      ensures tables.submissions == old(tables).submissions && tables.confirmed == old(tables).confirmed
      ensures old(Exclusive(tables, history)) ==> Exclusive(tables, history)
    {
      hide Safe, Evolves, Exclusive;
      var receipts: set<IndexedReceipt>, resolutions: map<Word, Resolution> := *, *;
      IndexKeeps(hashes, tables, history, receipts, resolutions);
      tables := Indexed(tables, receipts, resolutions);
    }

    /** Some row already owns the ID, the transaction hash, the request and attempt, or the active nonce. */
    predicate Conflicts(s: Submission)
      reads this
    {
      || s.id in tables.submissions
      || exists id :: id in tables.submissions &&
                      (|| !Apart(s.content, tables.submissions[id].content)
                       || (Active(tables.submissions[id].state) && SameNonce(s.content, tables.submissions[id].content)))
    }

    method SavePrepared(s: Submission) returns (r: Result<Submission, ExecError>)
      requires IsSafe()
      modifies this
      ensures IsSafe() && Evolves(old(tables), tables)
      ensures (tables == old(tables) && history == old(history)) ||
              (s.id !in old(tables).submissions && tables == Inserted(old(tables), s) && history == old(history) + [Stored(s.id)])
      ensures r.Ok? ==>
                && s.id in tables.submissions && r.value == tables.submissions[s.id] && ValidPrepared(hashes, s)
                && r.value.content.requestID == s.content.requestID && r.value.content.txHash == s.content.txHash
      ensures old(MayStore(tables, history, s.content.requestID)) ==> Exclusive(tables, history)
    {
      hide Safe, Evolves, Exclusive, ValidPrepared, HasConfirmed, Idle;
      EvolvesReflexive(tables);
      if !ValidPrepared(hashes, s) {
        return Err(InvalidSubmission);
      }
      var failure: bool := *;
      if failure {
        return Err(Database);
      }
      if !Conflicts(s) {
        InsertKeeps(hashes, tables, history, s);
        tables := Inserted(tables, s);
        history := history + [Stored(s.id)];
      }
      var interrupted: bool := *;
      if interrupted {
        return Err(Database);
      }
      if s.id !in tables.submissions {
        return Err(NotFound);
      }
      var loaded := tables.submissions[s.id];
      if hashes.submission(loaded.content) != s.id || loaded.content.requestID != s.content.requestID || loaded.content.txHash != s.content.txHash {
        return Err(RecordConflict);
      }
      return Ok(loaded);
    }

    method Transition(id: Word, from: ExecutionState, to: ExecutionState) returns (r: Result<Submission, ExecError>)
      requires IsSafe()
      modifies this
      ensures history == old(history)
      ensures tables == old(tables) ||
              (&& id in old(tables).submissions && old(tables).submissions[id].state == from && Legal(from, to)
               && tables == Moved(old(tables), id, to))
      ensures r.Ok? ==> id in tables.submissions && r.value == tables.submissions[id] && r.value.state == to
      ensures to != Confirmed ==>
                && IsSafe() && Evolves(old(tables), tables)
                && (old(Exclusive(tables, history)) ==> Exclusive(tables, history))
      ensures IsSafe() <==> to != Confirmed || tables == old(tables)
    {
      hide Safe, Evolves, Exclusive;
      EvolvesReflexive(tables);
      if from == to || !Legal(from, to) {
        return Err(InvalidTransition);
      }
      var failure: bool := *;
      if failure {
        return Err(Database);
      }
      if id !in tables.submissions {
        return Err(NotFound);
      }
      var current := tables.submissions[id];
      if current.state == to {
        return Ok(current);
      }
      if current.state != from {
        return Err(ConcurrentUpdate);
      }
      // The transition log holds each change of a submission once.
      if (id, from, to) in tables.transitions {
        return Err(Database);
      }
      MoveIsSafeExactly(hashes, tables, history, id, to);
      MoveChanges(tables, id, to);
      if to != Confirmed {
        MoveKeeps(hashes, tables, history, id, to);
      }
      tables := Moved(tables, id, to);
      var interrupted: bool := *;
      if interrupted {
        return Err(Database);
      }
      return Ok(tables.submissions[id]);
    }

    method Confirm(receipt: ConfirmedReceipt, succeeded: bool) returns (r: Result<(), ExecError>)
      requires IsSafe()
      modifies this
      ensures IsSafe() && Evolves(old(tables), tables)
      ensures (tables == old(tables) && history == old(history)) ||
              (&& Confirmable(old(tables), receipt) && succeeded && receipt.confirmations != 0
               && tables == Settled(old(tables), receipt) && history == old(history) + [Concluded(receipt.submissionID)])
      ensures r.Ok? ==> receipt.submissionID in tables.submissions && tables.submissions[receipt.submissionID].state == Confirmed
      ensures old(Exclusive(tables, history)) ==> Exclusive(tables, history)
    {
      hide Safe, Evolves, Exclusive;
      EvolvesReflexive(tables);
      var id := receipt.submissionID;
      if id == 0 || receipt.requestID == 0 || receipt.txHash == 0 || receipt.blockHash == 0 || !succeeded || receipt.confirmations == 0 {
        return Err(InvalidSubmission);
      }
      var failure: bool := *;
      if failure {
        return Err(Database);
      }
      if id !in tables.submissions {
        return Err(NotFound);
      }
      var submission := tables.submissions[id];
      if submission.content.requestID != receipt.requestID || submission.content.txHash != receipt.txHash
         || (submission.state != Submitted && submission.state != Confirmed) {
        return Err(RecordConflict);
      }
      if !Bundled(tables, submission.content.homeChainID, receipt) {
        return Err(BundlePending);
      }
      if submission.state == Confirmed {
        if id !in tables.confirmed || tables.confirmed[id].blockHash != receipt.blockHash {
          return Err(RecordConflict);
        }
        return Ok(());
      }
      if id in tables.confirmed || (id, Submitted, Confirmed) in tables.transitions {
        return Err(Database);
      }
      ConfirmKeeps(hashes, tables, history, receipt);
      tables := Settled(tables, receipt);
      history := history + [Concluded(id)];
      var interrupted: bool := *;
      if interrupted {
        return Err(Database);
      }
      return Ok(());
    }

    /** Every active row, in some order. */
    method ListRecoverable() returns (r: Result<seq<Submission>, ExecError>)
      ensures r.Ok? ==> forall s :: s in r.value <==> exists id :: id in tables.submissions && tables.submissions[id] == s && Active(s.state)
    {
      var failure: bool := *;
      if failure {
        return Err(Database);
      }
      var items, pending := [], tables.submissions.Keys;
      while pending != {}
        invariant pending <= tables.submissions.Keys
        invariant forall s :: s in items <==> exists id :: id in tables.submissions && id !in pending && tables.submissions[id] == s && Active(s.state)
        decreases pending
      {
        var id :| id in pending;
        ghost var before := items;
        if Active(tables.submissions[id].state) {
          items := items + [tables.submissions[id]];
        }
        assert forall s :: s in items <==> s in before || (s == tables.submissions[id] && Active(s.state));
        pending := pending - {id};
      }
      return Ok(items);
    }

    /** The work to do next: nothing while a row is active, else the first eligible request. */
    method NextRequest(requests: map<Word, RequestRow>) returns (r: Result<Option<Word>, ExecError>)
      ensures r.Err? ==> r.error == Database
      ensures r.Ok? && !Idle(tables) ==> r.value == None
      ensures r.Ok? && Idle(tables) ==> FirstEligible(tables, requests, requests.Keys, r.value)
    {
      hide HasConfirmed;
      var failure: bool := *;
      if failure {
        return Err(Database);
      }
      if !Idle(tables) {
        return Ok(None);
      }
      var first: Option<Word>, pending := None, requests.Keys;
      while pending != {}
        invariant pending <= requests.Keys
        invariant FirstEligible(tables, requests, requests.Keys - pending, first)
        decreases pending
      {
        var id :| id in pending;
        if Eligible(tables, requests, id) && (first.None? || Before(requests, id, first.value)) {
          first := Some(id);
        }
        pending := pending - {id};
      }
      assert requests.Keys - pending == requests.Keys;
      return Ok(first);
    }
  }

  /** What every step of the process keeps, whether it returns normally or stops half way. */
  ghost predicate Kept(hashes: Hashes, t: Tables, history: seq<Action>, t': Tables, history': seq<Action>) {
    Safe(hashes, t', history') && Evolves(t, t') && history <= history' && (Exclusive(t, history) ==> Exclusive(t', history'))
  }

  lemma KeptTransitive(hashes: Hashes, t1: Tables, h1: seq<Action>, t2: Tables, h2: seq<Action>, t3: Tables, h3: seq<Action>)
    requires Kept(hashes, t1, h1, t2, h2) && Kept(hashes, t2, h2, t3, h3)
    ensures Kept(hashes, t1, h1, t3, h3)
  {
    hide Safe, Evolves, Exclusive;
    EvolvesTransitive(t1, t2, t3);
  }

  /** A row as the process once read it: the content is still the stored one. */
  ghost predicate Known(t: Tables, item: Submission) {
    item.id in t.submissions && t.submissions[item.id].content == item.content
  }

  lemma KnownEvolves(t: Tables, t': Tables, item: Submission)
    requires Known(t, item) && Evolves(t, t')
    ensures Known(t', item)
  {
  }

  datatype SubmissionIntent = SubmissionIntent(requestID: Word, attempt: uint64, planID: Word, planKind: PlanKind, snapshotID: Word, proofID: Option<Word>,
                                               homeChainID: Word, gateway: Word, sender: Word, calldata: Bytes)

  /** The content carries out the intent. */
  predicate FromIntent(intent: SubmissionIntent, c: Content) {
    && c.requestID == intent.requestID && c.attempt == intent.attempt && c.planID == intent.planID && c.planKind == intent.planKind
    && c.snapshotID == intent.snapshotID && c.proofID == intent.proofID && c.homeChainID == intent.homeChainID
    && c.gateway == intent.gateway && c.sender == intent.sender
  }

  lemma OneNewRow(t: Tables, t1: Tables, t2: Tables, s: Submission, intent: SubmissionIntent)
    requires t1 == t || (s.id !in t.submissions && t1 == Inserted(t, s))
    requires FromIntent(intent, s.content) && Evolves(t1, t2) && t2.submissions.Keys == t1.submissions.Keys
    ensures forall id :: id in t2.submissions && id !in t.submissions ==> FromIntent(intent, t2.submissions[id].content)
  {
    forall id | id in t2.submissions && id !in t.submissions ensures FromIntent(intent, t2.submissions[id].content) {
      assert id in t1.submissions.Keys;
    }
  }

  /** The chain's answer to a receipt query. */
  datatype Receipt = Receipt(txHash: Word, blockNumber: Option<uint64>, blockHash: Word, succeeded: bool)

  class TransactionSubmitter {
    const repository: TransactionRepository
    const chainID: Word
    const sender: Word
    const confirmationDepth: uint64

    constructor (repository: TransactionRepository, chainID: Word, sender: Word, confirmationDepth: uint64)
      requires confirmationDepth != 0
      ensures this.repository == repository && this.confirmationDepth == confirmationDepth && Valid()
    {
      this.repository, this.chainID, this.sender, this.confirmationDepth := repository, chainID, sender, confirmationDepth;
    }

    ghost predicate Valid() {
      confirmationDepth != 0
    }

    /** Hand the bytes to the network, and look the hash up if the answer is an error. */
    method SendTransaction(item: Submission, raw: Bytes) returns (accepted: bool)
      requires repository.IsSafe() && Known(repository.tables, item) && repository.hashes.keccak(raw) == item.content.txHash
      modifies repository
      ensures repository.tables == old(repository.tables) && repository.history == old(repository.history) + [Sent(item.id, raw)]
      ensures Kept(repository.hashes, old(repository.tables), old(repository.history), repository.tables, repository.history)
    {
      hide Safe, Evolves, Exclusive;
      SendKeeps(repository.hashes, repository.tables, repository.history, item.id, raw);
      EvolvesReflexive(repository.tables);
      repository.history := repository.history + [Sent(item.id, raw)];
      accepted := *;
    }

    method BroadcastPrepared(item: Submission, raw: Bytes) returns (r: Result<Submission, ExecError>)
      requires repository.IsSafe() && Known(repository.tables, item) && repository.hashes.keccak(raw) == item.content.txHash
      modifies repository
      ensures Kept(repository.hashes, old(repository.tables), old(repository.history), repository.tables, repository.history)
      ensures r.Ok? ==> r.value.state == Submitted
      ensures repository.tables.confirmed == old(repository.tables).confirmed
      ensures repository.tables.submissions.Keys == old(repository.tables).submissions.Keys
    {
      hide Kept, Exclusive;
      ghost var hashes, t, history := repository.hashes, repository.tables, repository.history;
      var accepted := SendTransaction(item, raw);
      ghost var h1 := repository.history;
      if !accepted {
        return Err(BroadcastAmbiguous);
      }
      if item.state == Submitted {
        return Ok(item);
      }
      if item.state != Prepared && item.state != Retryable {
        return Err(InvalidTransition);
      }
      KeptIsSafe(hashes, t, history, t, h1);
      var moved := repository.Transition(item.id, item.state, Submitted);
      StepKept(hashes, t, h1, repository.tables, repository.history);
      KeptTransitive(hashes, t, history, t, h1, repository.tables, repository.history);
      return moved;
    }

    /** One durable submission against the chain. */
    method Reconcile(item: Submission) returns (r: Result<(), ExecError>)
      requires Valid() && repository.IsSafe() && Known(repository.tables, item)
      modifies repository
      ensures Kept(repository.hashes, old(repository.tables), old(repository.history), repository.tables, repository.history)
      ensures Reconciles(confirmationDepth, old(repository.tables), repository.tables)
    {
      hide Kept, Exclusive, Evolves, Safe;
      ghost var hashes, t, history := repository.hashes, repository.tables, repository.history;
      NothingConfirmed(confirmationDepth, t, t);
      KeptReflexive(hashes, t, history);
      var answer: Option<Receipt>, receiptError: bool := *, *;
      if answer.Some? {
        r := ReconcileReceipt(item, answer.value);
        return;
      }
      if receiptError {
        return Err(Network);
      }
      var visible: bool, lookupError: bool := *, *;
      if visible {
        if item.state != Submitted {
          var moved := repository.Transition(item.id, item.state, Submitted);
          StepKept(hashes, t, history, repository.tables, repository.history);
          NothingConfirmed(confirmationDepth, t, repository.tables);
          return if moved.Ok? then Ok(()) else Err(moved.error);
        }
        return Ok(());
      }
      if lookupError {
        return Err(Network);
      }
      // The durable bytes must decode to a transaction with the durable hash.
      var decodes: bool := *;
      if !decodes || repository.hashes.keccak(item.content.raw) != item.content.txHash {
        return Err(InvalidSubmission);
      }
      var sent := BroadcastPrepared(item, item.content.raw);
      NothingConfirmed(confirmationDepth, t, repository.tables);
      if sent == Err(BroadcastAmbiguous) {
        return Ok(());
      }
      return if sent.Ok? then Ok(()) else Err(sent.error);
    }

    method ReconcileReceipt(item: Submission, receipt: Receipt) returns (r: Result<(), ExecError>)
      requires Valid() && repository.IsSafe() && Known(repository.tables, item)
      modifies repository
      ensures Kept(repository.hashes, old(repository.tables), old(repository.history), repository.tables, repository.history)
      ensures Reconciles(confirmationDepth, old(repository.tables), repository.tables)
    {
      hide Kept, Exclusive, Evolves, Safe;
      ghost var hashes, t, history := repository.hashes, repository.tables, repository.history;
      NothingConfirmed(confirmationDepth, t, t);
      KeptReflexive(hashes, t, history);
      if receipt.txHash != item.content.txHash || receipt.blockNumber.None? || receipt.blockHash == 0 {
        return Err(InvalidSubmission);
      }
      if !receipt.succeeded {
        if item.state == Reverted {
          return Ok(());
        }
        var moved := repository.Transition(item.id, item.state, Reverted);
        StepKept(hashes, t, history, repository.tables, repository.history);
        NothingConfirmed(confirmationDepth, t, repository.tables);
        return if moved.Ok? then Ok(()) else Err(moved.error);
      }
      if item.state != Submitted {
        var moved := repository.Transition(item.id, item.state, Submitted);
        StepKept(hashes, t, history, repository.tables, repository.history);
        NothingConfirmed(confirmationDepth, t, repository.tables);
        if moved.Err? {
          return Err(moved.error);
        }
      }
      ghost var t1, h1 := repository.tables, repository.history;
      KeptIsSafe(hashes, t, history, t1, h1);
      var block := receipt.blockNumber.value;
      var head: uint64, headError: bool := *, *;
      if headError || !PassesDepth(confirmationDepth, block, head) {
        return Ok(());
      }
      var canonical: bool, resolved: bool, resolvedError: bool := *, *, *;
      if !canonical {
        return Ok(());
      }
      if resolvedError {
        return Err(Network);
      }
      if !resolved {
        return Ok(());
      }
      repository.IndexerRuns();
      StepKept(hashes, t1, h1, repository.tables, repository.history);
      ghost var t2 := repository.tables;
      KeptIsSafe(hashes, t1, h1, t2, h1);
      var confirmations := CountConfirmations(block, head);
      var confirmed := repository.Confirm(
        ConfirmedReceipt(item.id, item.content.requestID, item.content.txHash, block, receipt.blockHash, confirmations), receipt.succeeded);
      StepKept(hashes, t2, h1, repository.tables, repository.history);
      KeptTransitive(hashes, t1, h1, t2, h1, repository.tables, repository.history);
      KeptTransitive(hashes, t, history, t1, h1, repository.tables, repository.history);
      if confirmed == Err(BundlePending) {
        return Ok(());
      }
      return confirmed;
    }

    /** Check every durable active submission before any new work. */
    method Recover() returns (r: Result<(), ExecError>)
      requires Valid() && repository.IsSafe()
      modifies repository
      ensures Kept(repository.hashes, old(repository.tables), old(repository.history), repository.tables, repository.history)
      ensures Reconciles(confirmationDepth, old(repository.tables), repository.tables)
    {
      hide Kept, Exclusive, Evolves, Safe, Reconciles;
      ghost var hashes, t, history := repository.hashes, repository.tables, repository.history;
      KeptReflexive(hashes, t, history);
      NothingConfirmed(confirmationDepth, t, t);
      var listed := repository.ListRecoverable();
      if listed.Err? {
        return Err(listed.error);
      }
      var items := listed.value;
      ListedAreKnown(hashes, t, history, items);
      for i := 0 to |items|
        invariant Kept(hashes, t, history, repository.tables, repository.history)
        invariant Reconciles(confirmationDepth, t, repository.tables)
      {
        ghost var t1, h1 := repository.tables, repository.history;
        KeptIsSafe(hashes, t, history, t1, h1);
        KnownEvolves(t, t1, items[i]);
        var reconciled := Reconcile(items[i]);
        KeptIsSafe(hashes, t1, h1, repository.tables, repository.history);
        ReconcilesTransitive(confirmationDepth, t, t1, repository.tables);
        KeptTransitive(hashes, t, history, t1, h1, repository.tables, repository.history);
        if reconciled.Err? {
          return reconciled;
        }
      }
      return Ok(());
    }

    /** Sign, store the exact bytes, and only then send them. */
    method Submit(intent: SubmissionIntent) returns (r: Result<Submission, ExecError>)
      requires repository.IsSafe()
      modifies repository
      ensures Safe(repository.hashes, repository.tables, repository.history)
      ensures Evolves(old(repository.tables), repository.tables) && old(repository.history) <= repository.history
      ensures old(MayStore(repository.tables, repository.history, intent.requestID)) ==> Exclusive(repository.tables, repository.history)
      ensures repository.tables.confirmed == old(repository.tables).confirmed
      ensures forall id :: id in repository.tables.submissions && id !in old(repository.tables).submissions ==>
                FromIntent(intent, repository.tables.submissions[id].content)
    {
      hide Kept, Exclusive, Evolves, Safe, Idle, HasConfirmed;
      ghost var hashes, t, history := repository.hashes, repository.tables, repository.history;
      EvolvesReflexive(t);
      if intent.requestID == 0 || intent.homeChainID != chainID || intent.gateway == 0 || intent.sender != sender || |intent.calldata| == 0
         || (intent.planKind == DirectPlan && intent.proofID.Some?) || (intent.planKind == PathPlan && intent.proofID.None?) {
        return Err(InvalidSubmission);
      }
      var guarded := RootGuard();
      if guarded.Err? {
        return Err(guarded.error);
      }
      var nonce: uint64, tip: nat, baseFee: nat, gas: uint64, answered: bool := *, *, *, *, *;
      if !answered || gas == 0 {
        return Err(Network);
      }
      guarded := RootGuard();
      if guarded.Err? {
        return Err(guarded.error);
      }
      // The signed encoding, whose hash is the transaction hash.
      var raw: Bytes := *;
      var content := Content(intent.requestID, intent.attempt, intent.planID, intent.planKind, intent.snapshotID, intent.proofID,
                             intent.homeChainID, intent.gateway, intent.sender, nonce, repository.hashes.keccak(intent.calldata),
                             raw, repository.hashes.keccak(raw), 2 * baseFee + tip, tip, gas);
      var submission := Submission(repository.hashes.submission(content), content, Prepared);
      var saved := repository.SavePrepared(submission);
      ghost var t1, h1 := repository.tables, repository.history;
      if saved.Err? {
        return Err(saved.error);
      }
      SavedIsKnown(hashes, t1, h1, submission.id);
      r := BroadcastPrepared(saved.value, raw);
      KeptIsSafe(hashes, t1, h1, repository.tables, repository.history);
      KeptExclusive(hashes, t1, h1, repository.tables, repository.history);
      EvolvesTransitive(t, t1, repository.tables);
      OneNewRow(t, t1, repository.tables, submission, intent);
    }

    /** The home root guard's answer. */
    method RootGuard() returns (r: Result<(), ExecError>)
      ensures r.Ok? || r.error in {StaleHomeTrustRoot, HomeBlockBoundary, Network}
    {
      var answer: nat := *;
      return if answer == 0 then Ok(()) else if answer == 1 then Err(StaleHomeTrustRoot) else if answer == 2 then Err(HomeBlockBoundary) else Err(Network);
    }
  }

  lemma ListedAreKnown(hashes: Hashes, t: Tables, history: seq<Action>, items: seq<Submission>)
    requires Safe(hashes, t, history)
    requires forall s :: s in items ==> exists id :: id in t.submissions && t.submissions[id] == s && Active(s.state)
    ensures forall i :: 0 <= i < |items| ==> Known(t, items[i])
  {
    forall i | 0 <= i < |items| ensures Known(t, items[i]) {
      assert items[i] in items;
      var id :| id in t.submissions && t.submissions[id] == items[i] && Active(items[i].state);
      StoredHash(hashes, t, id);
    }
  }

  lemma SavedIsKnown(hashes: Hashes, t: Tables, history: seq<Action>, id: Word)
    requires Safe(hashes, t, history) && id in t.submissions
    ensures Known(t, t.submissions[id]) && hashes.keccak(t.submissions[id].content.raw) == t.submissions[id].content.txHash
  {
    StoredHash(hashes, t, id);
  }

  lemma KeptExclusive(hashes: Hashes, t: Tables, history: seq<Action>, t': Tables, history': seq<Action>)
    requires Kept(hashes, t, history, t', history')
    ensures Exclusive(t, history) ==> Exclusive(t', history')
    ensures history <= history'
  {
  }

  /** The depth test, in 64 bits. */
  predicate PassesDepth(depth: uint64, block: uint64, head: uint64) {
    head >= (block + depth - 1) % TWO_64
  }

  /** The confirmations recorded, in 64 bits. */
  function CountConfirmations(block: uint64, head: uint64): uint64 {
    (head - block + 1) % TWO_64
  }

  /** Every head that passes the test with a non-zero count has the configured depth, exactly
      when the test itself does not wrap. A zero count is refused when confirming. */
  lemma DepthTestExact(depth: uint64, block: uint64)
    requires depth != 0
    ensures (forall head: uint64 ::
               PassesDepth(depth, block, head) && CountConfirmations(block, head) != 0
               ==> CountConfirmations(block, head) >= depth)
            <==> block + depth - 1 < TWO_64
  {
    if block + depth - 1 < TWO_64 {
      forall head: uint64 | PassesDepth(depth, block, head) && CountConfirmations(block, head) != 0
        ensures CountConfirmations(block, head) >= depth
      {
        assert head - block + 1 == TWO_64 || (head - block + 1) % TWO_64 == head - block + 1;
      }
    } else {
      WrappedTestIsShallow(depth, block);
    }
  }

  /** When the test wraps, the receipt's own block passes it, with one confirmation. */
  lemma WrappedTestIsShallow(depth: uint64, block: uint64)
    requires block + depth - 1 >= TWO_64
    ensures PassesDepth(depth, block, block) && CountConfirmations(block, block) == 1 < depth
  {
    assert (block + depth - 1) % TWO_64 == block + depth - 1 - TWO_64;
  }

  /** The receipt has the configured number of confirmations, unless its block number is within that of 2^64. */
  predicate Deep(depth: uint64, receipt: ConfirmedReceipt) {
    receipt.confirmations >= depth || receipt.blockNumber + depth - 1 >= TWO_64
  }

  /** Every row confirmed in between is deep enough. */
  ghost predicate NewlyDeep(depth: uint64, t: Tables, t': Tables) {
    forall id :: id in t'.confirmed && id !in t.confirmed ==> Deep(depth, t'.confirmed[id])
  }

  /** The same, and no row is added. */
  ghost predicate Reconciles(depth: uint64, t: Tables, t': Tables) {
    t'.submissions.Keys == t.submissions.Keys && NewlyDeep(depth, t, t')
  }

  lemma NothingConfirmed(depth: uint64, t: Tables, t': Tables)
    ensures t'.confirmed == t.confirmed && t'.submissions.Keys == t.submissions.Keys ==> Reconciles(depth, t, t')
  {
  }

  lemma ReconcilesTransitive(depth: uint64, t1: Tables, t2: Tables, t3: Tables)
    requires Reconciles(depth, t1, t2) && Reconciles(depth, t2, t3) && Evolves(t2, t3)
    ensures Reconciles(depth, t1, t3)
  {
  }

  /** Every confirmed row is deep enough. */
  ghost predicate AllDeep(depth: uint64, t: Tables) {
    forall id :: id in t.confirmed ==> Deep(depth, t.confirmed[id])
  }

  lemma StaysDeep(depth: uint64, t: Tables, t': Tables)
    requires AllDeep(depth, t) && Evolves(t, t') && NewlyDeep(depth, t, t')
    ensures AllDeep(depth, t')
  {
  }

  lemma KeptReflexive(hashes: Hashes, t: Tables, history: seq<Action>)
    requires Safe(hashes, t, history)
    ensures Kept(hashes, t, history, t, history)
  {
    hide Safe, Evolves, Exclusive;
    EvolvesReflexive(t);
  }

  lemma KeptIsSafe(hashes: Hashes, t: Tables, history: seq<Action>, t': Tables, history': seq<Action>)
    requires Kept(hashes, t, history, t', history')
    ensures Safe(hashes, t', history') && Evolves(t, t')
  {
  }

  lemma StepKept(hashes: Hashes, t: Tables, history: seq<Action>, t': Tables, history': seq<Action>)
    requires Safe(hashes, t', history') && Evolves(t, t') && history <= history' && (Exclusive(t, history) ==> Exclusive(t', history'))
    ensures Kept(hashes, t, history, t', history')
  {
  }

  lemma MoveChanges(t: Tables, id: Word, to: ExecutionState)
    requires id in t.submissions && t.submissions[id].state != to
    ensures Moved(t, id, to) != t
  {
    assert Moved(t, id, to).submissions[id].state == to;
  }

  predicate SameNonce(c: Content, d: Content) {
    c.homeChainID == d.homeChainID && c.sender == d.sender && c.nonce == d.nonce
  }

  lemma EvolvesReflexive(t: Tables)
    ensures Evolves(t, t)
  {
  }
}
