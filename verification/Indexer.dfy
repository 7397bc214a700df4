/**
 The confirmed-event indexer's step: which blocks it visits, in which order, and
 what it leaves behind when anything goes wrong. Every RPC answer is arbitrary.
 */
module Indexer {
  import opened Base
  import opened CanonicalCursor
  import opened IndexerStore

  datatype StepError = Transient | IndexerDegraded | Deterministic | Store

  /** An RPC header: a hash and a parent hash, or no usable answer. */
  datatype Header = Header(hash: Word, parentHash: Word) | Unavailable | Malformed

  /** The numbers from `a` to `b`, each once and in order. */
  function Numbers(a: nat, b: int): (r: seq<nat>)
    ensures |r| == if b < a then 0 else b - a + 1
    ensures forall i :: 0 <= i < |r| ==> r[i] == a + i
    decreases b
  {
    if b < a then [] else Numbers(a, b - 1) + [b]
  }

  /** The next block number, in 64 bits. */
  function Successor(height: uint64): (r: uint64)
    ensures height < MAX_UINT64 ==> r == height + 1
  {
    (height + 1) % TWO_64
  }

  /** The last block of a range, in 64 bits: wrap-around is caught and the safe head never passed. */
  function ChunkEnd(rangeStart: uint64, maxBlockRange: uint64, safeHead: uint64): (r: uint64)
    requires maxBlockRange != 0 && rangeStart <= safeHead
    ensures rangeStart <= r <= safeHead && r - rangeStart < maxBlockRange
    ensures r == safeHead || r == rangeStart + maxBlockRange - 1
  {
    var end := (rangeStart + maxBlockRange - 1) % TWO_64;
    if end < rangeStart || end > safeHead then safeHead else end
  }

  class ConfirmedEventIndexer {
    const store: Repository
    const confirmations: uint64
    const maxBlockRange: uint64
    var validated: bool

    constructor (store: Repository, confirmations: uint64, maxBlockRange: uint64)
      requires confirmations != 0 && maxBlockRange != 0
      ensures this.store == store && this.confirmations == confirmations && this.maxBlockRange == maxBlockRange && Configured() && !validated
    {
      this.store, this.confirmations, this.maxBlockRange, validated := store, confirmations, maxBlockRange, false;
    }

    ghost predicate Configured() {
      confirmations != 0 && maxBlockRange != 0
    }

    /** The cursor a step works with is the healthy durable one. */
    ghost predicate At(cursor: Cursor)
      reads store
    {
      store.tables.cursor == Some(cursor) && cursor.state.Healthy?
    }

    /** Degrade before reporting a deterministic failure. */
    method FailClosed() returns (r: StepError)
      requires store.Valid()
      modifies store
      ensures store.Valid() && Grows(old(store.tables), old(store.applied), store.tables, store.applied)
      ensures store.applied == old(store.applied)
    {
      hide Consistent, Grows;
      var degraded := store.DegradeIndexer();
      return if degraded.Ok? then Deterministic else Store;
    }

    method HeaderAt(number: uint64) returns (header: Header)
    {
      header := *;
    }

    method ClassifyRPCError(header: Header) returns (r: StepError)
      requires store.Valid()
      modifies store
      ensures store.Valid() && Grows(old(store.tables), old(store.applied), store.tables, store.applied)
      ensures store.applied == old(store.applied)
    {
      hide Consistent, Grows;
      GrowsReflexive(store.tables, store.applied);
      if header.Malformed? {
        r := FailClosed();
        return;
      }
      return Transient;
    }

    /** Recheck the cursor, fetch the next header, prepare the block and apply it. */
    method ApplyNext(cursor: Cursor, number: uint64) returns (r: Result<Cursor, StepError>)
      requires store.Valid() && At(cursor) && number == cursor.height + 1 && number < MAX_UINT64
      modifies store
      ensures store.Valid() && Grows(old(store.tables), old(store.applied), store.tables, store.applied)
      ensures r.Ok? ==>
                && At(r.value) && r.value.height == number && |store.applied| == |old(store.applied)| + 1
                && store.applied[..|old(store.applied)|] == old(store.applied)
                && store.applied[|old(store.applied)|].height == number
    {
      hide Consistent, EdgesFold, Chain, Extends;
      ghost var t, a := store.tables, store.applied;
      GrowsReflexive(t, a);
      var rechecked := HeaderAt(cursor.height);
      if !rechecked.Header? {
        var error := ClassifyRPCError(rechecked);
        return Err(error);
      }
      if rechecked.hash != cursor.hash {
        var error := FailClosed();
        return Err(error);
      }
      var header := HeaderAt(number);
      if !header.Header? {
        var error := ClassifyRPCError(header);
        return Err(error);
      }
      if header.parentHash != cursor.hash {
        var error := FailClosed();
        return Err(error);
      }
      var prepared: bool, transient: bool := *, *;
      if !prepared {
        if transient {
          return Err(Transient);
        }
        var error := FailClosed();
        return Err(error);
      }
      var block: ConfirmedBlock := *;
      block := block.(number := number, hash := header.hash, parentHash := header.parentHash, expected := cursor);
      var applied := store.ApplyConfirmedBlock(block);
      if applied.Err? {
        if applied.error == DeterministicConflict {
          ghost var t1, a1 := store.tables, store.applied;
          var error := FailClosed();
          GrowsTransitive(t, a, t1, a1, store.tables, store.applied);
          return Err(error);
        }
        return Err(Store);
      }
      ChainOf(store.config, t, a);
      return Ok(Cursor(store.config.chainID, number, header.hash, Healthy));
    }

    /** One range: every block of it, in order. */
    method ApplyRange(first: Cursor, rangeStart: uint64, rangeEnd: uint64) returns (r: Result<Cursor, StepError>, ghost visited: seq<nat>)
      requires store.Valid() && At(first) && rangeStart == first.height + 1 && rangeStart <= rangeEnd < MAX_UINT64
      modifies store
      ensures store.Valid() && Grows(old(store.tables), old(store.applied), store.tables, store.applied)
      ensures r.Ok? ==> At(r.value) && r.value.height == rangeEnd && visited == Numbers(rangeStart, rangeEnd)
      ensures r.Ok? ==> NewHeights(old(store.applied), store.applied, visited)
    {
      hide Consistent, Grows, Numbers;
      ghost var t, a := store.tables, store.applied;
      GrowsReflexive(t, a);
      var cursor, number := first, rangeStart;
      visited := [];
      NumbersGrow(rangeStart, rangeStart - 1);
      while number <= rangeEnd
        invariant rangeStart <= number <= rangeEnd + 1
        invariant store.Valid() && At(cursor) && cursor.height == number - 1
        invariant Grows(t, a, store.tables, store.applied)
        invariant visited == Numbers(rangeStart, number - 1) && NewHeights(a, store.applied, visited)
      {
        ghost var t1, a1 := store.tables, store.applied;
        var next := ApplyNext(cursor, number);
        GrowsTransitive(t, a, t1, a1, store.tables, store.applied);
        if next.Err? {
          r := Err(next.error);
          return;
        }
        NewHeightsGrow(a, a1, visited, store.applied, number);
        visited := visited + [number as nat];
        NumbersGrow(rangeStart, number);
        cursor := next.value;
        number := number + 1;
      }
      r := Ok(cursor);
    }

    /** All ranges up to the safe head. The chunk arithmetic is in 64 bits. */
    method ApplyRanges(first: Cursor, safeHead: uint64) returns (r: Result<Cursor, StepError>, ghost visited: seq<nat>)
      requires Configured() && store.Valid() && At(first) && first.height <= safeHead < MAX_UINT64
      modifies store
      ensures store.Valid() && Grows(old(store.tables), old(store.applied), store.tables, store.applied)
      ensures r.Ok? ==> At(r.value) && r.value.height == safeHead && visited == Numbers(first.height + 1, safeHead)
      ensures r.Ok? ==> NewHeights(old(store.applied), store.applied, visited)
    {
      hide Consistent, Grows, Numbers, NewHeights, ChunkEnd, Successor;
      ghost var t, a := store.tables, store.applied;
      GrowsReflexive(t, a);
      NothingNew(a);
      var cursor := first;
      var start := Successor(first.height);
      var rangeStart := start;
      visited := [];
      NumbersGrow(start, first.height);
      while start != 0 && rangeStart <= safeHead
        invariant start == first.height + 1 <= rangeStart <= safeHead + 1
        invariant store.Valid() && At(cursor) && cursor.height == rangeStart - 1
        invariant Grows(t, a, store.tables, store.applied)
        invariant visited == Numbers(start, rangeStart - 1) && NewHeights(a, store.applied, visited)
        decreases safeHead + 1 - rangeStart
      {
        var rangeEnd := ChunkEnd(rangeStart, maxBlockRange, safeHead);
        var logs: bool, malformed: bool := *, *;
        if !logs {
          r := Err(Transient);
          return;
        }
        ghost var t1, a1 := store.tables, store.applied;
        if malformed {
          var error := FailClosed();
          GrowsTransitive(t, a, t1, a1, store.tables, store.applied);
          r := Err(error);
          return;
        }
        var ranged, seen := ApplyRange(cursor, rangeStart, rangeEnd);
        GrowsTransitive(t, a, t1, a1, store.tables, store.applied);
        if ranged.Err? {
          r := ranged;
          return;
        }
        NewHeightsConcat(a, a1, visited, store.applied, seen);
        NumbersConcat(start, rangeStart - 1, rangeEnd);
        visited := visited + seen;
        cursor := ranged.value;
        // At the largest 64-bit number the loop would be left instead of wrapping around; at least one
        // confirmation keeps the safe head, and so every range, below it.
        rangeStart := rangeEnd + 1;
      }
      r := Ok(cursor);
    }

    /** The durable cursor, created at the deployment block if there is none. */
    method LoadCursor() returns (r: Result<Cursor, StepError>)
      requires store.Valid() && store.config.deployment <= MAX_UINT64
      modifies store
      ensures store.Valid() && Grows(old(store.tables), old(store.applied), store.tables, store.applied)
      ensures r.Ok? ==> store.tables.cursor == Some(r.value)
      ensures r.Ok? && old(store.tables).cursor.Some? ==> store.tables == old(store.tables) && store.applied == old(store.applied)
      ensures r.Ok? && old(store.tables).cursor.None? ==> r.value.height == store.config.deployment
    {
      hide Consistent, Grows;
      ghost var t, a := store.tables, store.applied;
      GrowsReflexive(t, a);
      var failure: bool := *;
      if failure {
        return Err(Store);
      }
      if store.tables.cursor.Some? {
        return Ok(store.tables.cursor.value);
      }
      var header := HeaderAt(store.config.deployment);
      if !header.Header? {
        var error := ClassifyRPCError(header);
        return Err(error);
      }
      var error := ValidateDeployment();
      if error.Some? {
        return Err(error.value);
      }
      var cursor := Cursor(store.config.chainID, store.config.deployment, header.hash, Healthy);
      var initialized := store.Initialize(cursor);
      if initialized.Err? {
        if initialized.error == DeterministicConflict {
          ghost var t1, a1 := store.tables, store.applied;
          var failed := FailClosed();
          GrowsTransitive(t, a, t1, a1, store.tables, store.applied);
          return Err(failed);
        }
        return Err(Store);
      }
      return Ok(cursor);
    }

    /** Chain ID and hash-bound code: a mismatch fails closed. */
    method ValidateDeployment() returns (error: Option<StepError>)
      requires store.Valid()
      modifies store
      ensures store.Valid() && Grows(old(store.tables), old(store.applied), store.tables, store.applied)
      ensures error.None? ==> store.tables == old(store.tables) && store.applied == old(store.applied)
    {
      hide Consistent, Grows;
      GrowsReflexive(store.tables, store.applied);
      var transient: bool, mismatch: bool := *, *;
      if transient {
        return Some(Transient);
      }
      if mismatch {
        var failed := FailClosed();
        return Some(failed);
      }
      return None;
    }

    /** One step. Without an error it has visited exactly the blocks after the
        cursor up to the safe head, each once and in order. */
    method Step(head: uint64) returns (r: Result<(), StepError>, ghost visited: seq<nat>)
      requires Configured() && store.Valid()
      modifies this, store
      ensures store.Valid() && Grows(old(store.tables), old(store.applied), store.tables, store.applied)
      ensures r.Ok? ==> visited == Pending(confirmations, head, store.config.deployment, old(store.tables).cursor)
      ensures r.Ok? && old(store.tables).cursor.Some? ==> NewHeights(old(store.applied), store.applied, visited)
      ensures r.Ok? && visited != [] ==> store.tables.cursor.Some? && store.tables.cursor.value.height == head - confirmations
      ensures old(store.tables).cursor.Some? && old(store.tables).cursor.value.state.Degraded? ==> store.applied == old(store.applied)
    {
      hide Consistent, Numbers, NewHeights, Extends;
      ghost var t, a := store.tables, store.applied;
      GrowsReflexive(t, a);
      NothingNew(a);
      visited := [];
      if head < confirmations {
        return Ok(()), visited;
      }
      var safeHead := head - confirmations;
      if store.config.deployment > safeHead {
        DeploymentFirst(store.config, t, a, safeHead);
        return Ok(()), visited;
      }
      var existed := store.tables.cursor.Some?;
      var loaded := LoadCursor();
      if loaded.Err? {
        return Err(loaded.error), visited;
      }
      var cursor := loaded.value;
      ghost var t1, a1 := store.tables, store.applied;
      ChainOf(store.config, t1, a1);
      if cursor.state.Degraded? {
        return Err(IndexerDegraded), visited;
      }
      if cursor.height > MAX_UINT64 {
        var error := FailClosed();
        GrowsTransitive(t, a, t1, a1, store.tables, store.applied);
        return Err(error), visited;
      }
      // The cursor's chain, hash and lower bound are checked again; a durable cursor always passes.
      if cursor.height > safeHead {
        NumbersGrow(cursor.height + 1, safeHead);
        return Ok(()), visited;
      }
      if !validated {
        var rechecked := HeaderAt(cursor.height);
        if !rechecked.Header? {
          var error := ClassifyRPCError(rechecked);
          GrowsTransitive(t, a, t1, a1, store.tables, store.applied);
          return Err(error), visited;
        }
        if rechecked.hash != cursor.hash {
          var error := FailClosed();
          GrowsTransitive(t, a, t1, a1, store.tables, store.applied);
          return Err(error), visited;
        }
        if existed {
          var error := ValidateDeployment();
          GrowsTransitive(t, a, t1, a1, store.tables, store.applied);
          if error.Some? {
            return Err(error.value), visited;
          }
        }
      }
      var ranged, seen := ApplyRanges(cursor, safeHead);
      GrowsTransitive(t, a, t1, a1, store.tables, store.applied);
      if ranged.Err? {
        return Err(ranged.error), visited;
      }
      visited := seen;
      if !validated {
        var marked: bool, deterministic: bool := *, *;
        if !marked {
          if deterministic {
            ghost var t2, a2 := store.tables, store.applied;
            var error := FailClosed();
            GrowsTransitive(t, a, t2, a2, store.tables, store.applied);
            return Err(error), visited;
          }
          return Err(Store), visited;
        }
        validated := true;
      }
      r := Ok(());
    }

    /** Activate one validated dependency of another chain, unless the indexer is degraded. */
    method StepRemoteEvidence(v: RemoteValidation) returns (r: Result<(), StepError>)
      requires store.Valid()
      modifies store
      ensures store.Valid() && Grows(old(store.tables), old(store.applied), store.tables, store.applied) && store.applied == old(store.applied)
      ensures store.tables == old(store.tables) || Admissible(store.config, v)
      ensures r.Ok? ==> RemoteDependency(store.config.ids, v) in store.tables.edges.Values
    {
      hide Consistent, Grows, Admissible;
      GrowsReflexive(store.tables, store.applied);
      var available: bool := *;
      if !available {
        return Err(Transient);
      }
      if store.tables.degraded || (store.tables.cursor.Some? && store.tables.cursor.value.state.Degraded?) {
        return Err(IndexerDegraded);
      }
      var activated := store.ActivateRemote(v);
      return if activated.Ok? then Ok(()) else Err(Store);
    }

    /** Any number of steps, with restarts and remote activations in between: the chain stays
        linked from the deployment block, and a degraded cursor is never left or moved. */
    method Run(heads: seq<uint64>)
      requires Configured() && store.Valid()
      modifies this, store
      ensures store.Valid() && Grows(old(store.tables), old(store.applied), store.tables, store.applied)
    {
      hide Consistent, Grows, Pending, NewHeights;
      ghost var t, a := store.tables, store.applied;
      GrowsReflexive(t, a);
      for i := 0 to |heads|
        invariant store.Valid() && Grows(t, a, store.tables, store.applied)
      {
        ghost var t1, a1 := store.tables, store.applied;
        var restarted: bool := *;
        if restarted {
          validated := false;
        }
        var _, _ := Step(heads[i]);
        GrowsTransitive(t, a, t1, a1, store.tables, store.applied);
        ghost var t2, a2 := store.tables, store.applied;
        var v: RemoteValidation := *;
        var _ := StepRemoteEvidence(v);
        GrowsTransitive(t, a, t2, a2, store.tables, store.applied);
      }
    }
  }

  /** What an error-free step has to visit. */
  ghost function Pending(confirmations: uint64, head: uint64, deployment: Word, cursor: Option<Cursor>): seq<nat> {
    var safeHead := head - confirmations;
    var last := if cursor.Some? then cursor.value.height else deployment;
    if safeHead < 0 || deployment > safeHead then [] else Numbers(last + 1, safeHead)
  }

  /** Below the deployment block there is nothing to visit, and no cursor either. */
  lemma DeploymentFirst(config: Config, t: Tables, applied: seq<BlockRef>, safeHead: uint64)
    requires Consistent(config, t, applied) && safeHead < config.deployment
    ensures t.cursor.Some? ==> safeHead < t.cursor.value.height
  {
    ChainOf(config, t, applied);
  }

  lemma ChainOf(config: Config, t: Tables, applied: seq<BlockRef>)
    requires Consistent(config, t, applied)
    ensures t.cursor.Some? ==> t.cursor.value.chainID == config.chainID && t.cursor.value.hash != 0 && config.deployment <= t.cursor.value.height
  {
    if t.cursor.Some? {
      ChainHeight(applied, |applied| - 1);
    }
  }

  /** The blocks added to the chain have exactly the visited heights. */
  ghost predicate NewHeights(applied: seq<BlockRef>, applied': seq<BlockRef>, visited: seq<nat>) {
    && |applied'| == |applied| + |visited| && applied'[..|applied|] == applied
    && forall i :: 0 <= i < |visited| ==> applied'[|applied| + i].height == visited[i]
  }

  lemma NothingNew(applied: seq<BlockRef>)
    ensures NewHeights(applied, applied, [])
  {
  }

  lemma NewHeightsGrow(a: seq<BlockRef>, a1: seq<BlockRef>, visited: seq<nat>, a2: seq<BlockRef>, number: nat)
    requires NewHeights(a, a1, visited) && |a2| == |a1| + 1 && a2[..|a1|] == a1 && a2[|a1|].height == number
    ensures NewHeights(a, a2, visited + [number])
  {
    assert a2[..|a|] == a1[..|a|];
    forall i | 0 <= i < |visited| ensures a2[|a| + i].height == visited[i] {
      assert a2[|a| + i] == a1[|a| + i];
    }
  }

  lemma NewHeightsConcat(a: seq<BlockRef>, a1: seq<BlockRef>, visited: seq<nat>, a2: seq<BlockRef>, seen: seq<nat>)
    requires NewHeights(a, a1, visited) && NewHeights(a1, a2, seen)
    ensures NewHeights(a, a2, visited + seen)
  {
    assert a2[..|a|] == a1[..|a|];
    forall i | 0 <= i < |visited + seen| ensures a2[|a| + i].height == (visited + seen)[i] {
      if i < |visited| {
        assert a2[|a| + i] == a1[|a| + i];
      } else {
        assert a2[|a1| + (i - |visited|)].height == seen[i - |visited|];
      }
    }
  }

  lemma NumbersGrow(a: nat, b: int)
    ensures b < a ==> Numbers(a, b) == []
    ensures a <= b ==> Numbers(a, b) == Numbers(a, b - 1) + [b]
  {
  }

  lemma NumbersConcat(a: nat, b: int, c: int)
    requires a - 1 <= b <= c && 0 <= b + 1
    ensures Numbers(a, b) + Numbers(b + 1, c) == Numbers(a, c)
  {
  }
}
