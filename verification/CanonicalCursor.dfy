/** The canonical cursor: one block at a time, and never back from degraded. */
module CanonicalCursor {
  import opened Base

  datatype CursorState = Healthy | Degraded

  datatype Cursor = Cursor(chainID: Word, height: Word, hash: Word, state: CursorState)

  /** A confirmed block's place in its chain. */
  datatype BlockRef = BlockRef(height: Word, hash: Word, parentHash: Word)

  datatype CursorError = CursorDegraded | CanonicalMismatch | NonMonotonic

  function Advance(cursor: Cursor, recheckedHash: Word, next: BlockRef): (r: Result<Cursor, CursorError>)
    ensures r.Ok? <==> cursor.state.Healthy? && recheckedHash == cursor.hash == next.parentHash && next.height == cursor.height + 1 && next.hash != 0
    ensures r.Ok? ==> r.value == Cursor(cursor.chainID, next.height, next.hash, Healthy)
    ensures r.Err? ==> (r.error == CursorDegraded <==> cursor.state.Degraded?)
  {
    if cursor.state.Degraded? then Err(CursorDegraded)
    else if recheckedHash != cursor.hash then Err(CanonicalMismatch)
    else if next.parentHash != recheckedHash then Err(CanonicalMismatch)
    else if next.height != cursor.height + 1 || next.hash == 0 then Err(NonMonotonic)
    else Ok(cursor.(height := next.height, hash := next.hash))
  }

  function Degrade(cursor: Cursor): Cursor {
    cursor.(state := Degraded)
  }

  /** A chain of applied blocks: contiguous heights, each block naming its predecessor. */
  ghost predicate Chain(blocks: seq<BlockRef>) {
    forall i, j :: 0 <= i && j == i + 1 && j < |blocks| ==> Follows(blocks[i], blocks[j])
  }

  predicate Follows(block: BlockRef, next: BlockRef) {
    next.height == block.height + 1 && next.parentHash == block.hash
  }

  /** Heights in a chain count up from its first block. */
  lemma {:induction false} ChainHeight(blocks: seq<BlockRef>, i: nat)
    requires Chain(blocks) && i < |blocks|
    ensures blocks[i].height == blocks[0].height + i
  {
    if i > 0 {
      ChainHeight(blocks, i - 1);
      assert Follows(blocks[i - 1], blocks[i]);
    }
  }

  lemma ChainSnoc(blocks: seq<BlockRef>, next: BlockRef)
    requires Chain(blocks) && (blocks != [] ==> Follows(blocks[|blocks| - 1], next))
    ensures Chain(blocks + [next])
  {
    var blocks' := blocks + [next];
    forall i, j | 0 <= i && j == i + 1 && j < |blocks'| ensures Follows(blocks'[i], blocks'[j]) {
      if j < |blocks| {
        assert Follows(blocks[i], blocks[j]);
      }
    }
  }

  /** The cursor stands at the last block of the chain. */
  ghost predicate EndsAt(blocks: seq<BlockRef>, cursor: Cursor) {
    blocks != [] && blocks[|blocks| - 1].height == cursor.height && blocks[|blocks| - 1].hash == cursor.hash
  }

  /** A healthy cursor whose block is still canonical advances to a named block exactly when that
      block continues the chain, and then stands at it; a degraded or orphaned one never moves. */
  lemma AdvanceExtendsChain(blocks: seq<BlockRef>, cursor: Cursor, recheckedHash: Word, next: BlockRef)
    requires Chain(blocks) && EndsAt(blocks, cursor)
    ensures var r := Advance(cursor, recheckedHash, next);
            && (r.Ok? <==> cursor.state.Healthy? && recheckedHash == cursor.hash && next.hash != 0 && Chain(blocks + [next]))
            && (r.Ok? ==> EndsAt(blocks + [next], r.value) && r.value.state.Healthy? && r.value.chainID == cursor.chainID)
  {
    var blocks' := blocks + [next];
    if Follows(blocks[|blocks| - 1], next) {
      ChainSnoc(blocks, next);
    } else {
      assert !Follows(blocks'[|blocks| - 1], blocks'[|blocks|]);
    }
  }
}
