/** Log positions and the exporter's two-part cursor, in the source's uint64 and int64 arithmetic. */
module Positions {

  const TWO63: nat := 0x8000_0000_0000_0000
  const TWO64: nat := 0x1_0000_0000_0000_0000
  const MAX_UINT64: nat := TWO64 - 1

  datatype Position = Position(block: nat, index: nat)

  /** Lexicographic (block, log index) order. */
  predicate Less(a: Position, b: Position) {
    a.block < b.block || (a.block == b.block && a.index < b.index)
  }

  predicate AtMost(a: Position, b: Position) {
    a == b || Less(a, b)
  }

  predicate IsUint64(p: Position) {
    p.block < TWO64 && p.index < TWO64
  }

  /** completed is the last finished block; lastIndex is the last log index delivered of the
      block after it, or negative when none of that block was. */
  datatype Cursor = Cursor(completed: nat, lastIndex: int)

  predicate IsCursor(c: Cursor) {
    c.completed < TWO64 && -1 <= c.lastIndex < TWO63
  }

  /** The order in which the two fields are compared when they are read as a pair. */
  predicate CursorLess(a: Cursor, b: Cursor) {
    a.completed < b.completed || (a.completed == b.completed && a.lastIndex < b.lastIndex)
  }

  /** The bound of a store query: only positions strictly after it are wanted. The sum wraps. */
  function CursorBound(c: Cursor): Position {
    if c.lastIndex < 0 then Position(c.completed, MAX_UINT64)
    else Position((c.completed + 1) % TWO64, c.lastIndex)
  }

  function BlockBefore(b: nat): nat {
    if b == 0 then 0 else b - 1
  }

  /** Go's conversion of a uint64 to an int64. */
  function ToInt64(x: nat): int {
    if x < TWO63 then x else x - TWO64
  }

  /** The cursor written once the log at p has been delivered. */
  function CursorAfterLog(p: Position): Cursor {
    Cursor(BlockBefore(p.block), ToInt64(p.index))
  }

  /** The cursor written once every block up to `to` has been scanned. */
  function CursorAfterRange(to: nat): Cursor {
    Cursor(to, -1)
  }

  /** The cursor with which an exporter starts, given its row and its start block. */
  function Resume(row: Cursor, startBlock: nat): Cursor {
    if startBlock > 0 && row.completed < startBlock then Cursor(startBlock - 1, -1) else row
  }

  /** The bound embeds the order of cursors into the order of positions, both ways. */
  lemma BoundEmbedsCursorOrder(a: Cursor, b: Cursor)
    requires IsCursor(a) && IsCursor(b)
    requires a.completed < MAX_UINT64 && b.completed < MAX_UINT64
    ensures CursorLess(a, b) <==> Less(CursorBound(a), CursorBound(b))
    ensures a == b <==> CursorBound(a) == CursorBound(b)
  {
    assert CursorBound(a).block == if a.lastIndex < 0 then a.completed else a.completed + 1;
    assert CursorBound(b).block == if b.lastIndex < 0 then b.completed else b.completed + 1;
  }

  /** Delivering a log and resuming from the written cursor comes back to exactly that log,
      precisely when its block is not 0 and its index fits an int64 (or in the one degenerate
      position whose two overflows cancel). */
  lemma BoundUndoesDelivery(p: Position)
    requires IsUint64(p)
    ensures CursorBound(CursorAfterLog(p)) == p <==>
              (p.block >= 1 && p.index < TWO63) || p == Position(0, MAX_UINT64)
  {
    if p.block >= 1 && p.index < TWO63 {
      assert (p.block - 1 + 1) % TWO64 == p.block;
    } else if p.index < TWO63 {
      assert (0 + 1) % TWO64 == 1;
    }
  }

  /** A log index of 2^63 or more turns the cursor back to the end of the previous block, so
      the block is replayed; a log in block 0 moves the bound into block 1, so later logs of
      block 0 and the first logs of block 1 are passed over. */
  lemma BoundWhenDeliveryIsNotUndone(p: Position)
    requires IsUint64(p)
    ensures p.block >= 1 && p.index >= TWO63 ==>
              CursorBound(CursorAfterLog(p)) == Position(p.block - 1, MAX_UINT64)
    ensures p.block == 0 && p.index < TWO63 ==>
              CursorBound(CursorAfterLog(p)) == Position(1, p.index)
  {
    assert (0 + 1) % TWO64 == 1;
  }

  /** No cursor that starts between blocks ever asks for a log of block 0. */
  lemma BlockZeroIsNeverAskedFor(c: Cursor, p: Position)
    requires IsCursor(c) && IsUint64(p) && c.completed < MAX_UINT64
    requires Less(CursorBound(c), p)
    ensures p.block >= 1
  {
    if c.lastIndex >= 0 {
      assert CursorBound(c).block == c.completed + 1;
    }
  }

  /** Writing the cursor of any log asked for, and writing the cursor of a finished range,
      both move the bound strictly forward. */
  lemma CursorStrictlyIncreases(c: Cursor, p: Position, to: nat)
    requires IsCursor(c) && IsUint64(p) && c.completed < MAX_UINT64
    requires Less(CursorBound(c), p) && p.index < TWO63
    requires p.block <= to < TWO64
    ensures CursorBound(CursorAfterLog(p)) == p
    ensures CursorLess(c, CursorAfterLog(p))
    ensures Less(p, CursorBound(CursorAfterRange(to)))
  {
    BlockZeroIsNeverAskedFor(c, p);
    BoundUndoesDelivery(p);
    if c.lastIndex >= 0 {
      assert CursorBound(c).block == c.completed + 1;
    }
  }

  /** A restart asks for exactly what the row's cursor asks for, unless the row is still below
      the start block: then the whole of block startBlock is asked for again. */
  lemma ResumeIsExact(row: Cursor, startBlock: nat)
    requires IsCursor(row) && startBlock < TWO64
    ensures CursorBound(Resume(row, startBlock)) == CursorBound(row) <==>
              startBlock == 0 || row.completed >= startBlock
              || (row.completed == startBlock - 1 && row.lastIndex < 0)
  {
    if startBlock > 0 && row.completed < startBlock && row.lastIndex >= 0 {
      assert CursorBound(row).index < TWO63;
    }
  }

  /** The clamp can only go back inside block startBlock, never skip a block the row had not
      finished, once the row is not more than one block short of it. */
  lemma ResumeNeverSkips(row: Cursor, startBlock: nat)
    requires IsCursor(row) && startBlock < TWO64
    requires startBlock == 0 || startBlock - 1 <= row.completed
    ensures AtMost(CursorBound(Resume(row, startBlock)), CursorBound(row))
  {
    if startBlock > 0 && row.completed < startBlock && row.lastIndex >= 0 {
      assert CursorBound(row) == Position(startBlock % TWO64, row.lastIndex);
      assert startBlock % TWO64 == startBlock;
    }
  }

  /** The start block itself is exported exactly when the initial row lies below it: it is for
      a row that begins at 0 with a positive start block, and it is not for a row that begins
      at the start block. */
  lemma StartBlockIsExported(syncBlock: nat, startBlock: nat, p: Position)
    requires syncBlock < TWO64 && startBlock < TWO64
    requires IsUint64(p) && p.block == startBlock
    ensures Less(CursorBound(Resume(Cursor(syncBlock, -1), startBlock)), p) <==> syncBlock < startBlock
  {
  }
}
