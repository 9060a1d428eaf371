/** The bitmap allocator as the kernel runs it: a cell array and a counter updated in place. */
module BitmapAllocator {
  import opened BitmapSpec

  const HEADER_BYTES: nat := 32

  class Bitmap {
    var bitmap: array<Cell>
    var usedBlocksCount: nat
    var realMemStart: nat

    ghost function Value(): Manager
      reads this, bitmap
    {
      Manager(bitmap[..], usedBlocksCount, realMemStart)
    }

    ghost predicate Ok()
      reads this, bitmap
    {
      Valid(Value())
    }

    constructor (blockCount: nat, bitmapStart: nat)
      requires 0 < blockCount
      ensures fresh(bitmap) && Ok()
      ensures Value() == Manager(seq(blockCount, _ => FREE), 0, bitmapStart + blockCount)
    {
      bitmap := new Cell[blockCount];
      usedBlocksCount := 0;
      realMemStart := bitmapStart + blockCount;
      new;
      var i := 0;
      while i < bitmap.Length
        invariant 0 <= i <= bitmap.Length == blockCount && fresh(bitmap)
        invariant forall k :: 0 <= k < i ==> bitmap[k] == FREE
        invariant usedBlocksCount == 0 && realMemStart == bitmapStart + blockCount
        modifies bitmap
      {
        bitmap[i] := FREE;
        i := i + 1;
      }
      assert bitmap[..] == seq(blockCount, _ => FREE);
      TakenUniform(bitmap[..], false);
    }

    /** mm_create: one byte of bitmap and BLOCK_SIZE bytes of memory for every block after the header. */
    static method Create(startAddress: nat, totalSize: nat) returns (manager: Bitmap?)
      ensures manager == null <==> totalSize < 32 + 64 + 1
      ensures manager != null ==>
                var n := (totalSize - 32) / 65;
                && fresh(manager) && fresh(manager.bitmap) && manager.Ok()
                && manager.Value() == Manager(seq(n, _ => FREE), 0, startAddress + 32 + n)
                && n * 65 + 32 <= totalSize
    {
      if totalSize <= HEADER_BYTES {
        return null;
      }
      var blockCount := (totalSize - HEADER_BYTES) / (BLOCK_SIZE + 1);
      if blockCount == 0 {
        return null;
      }
      manager := new Bitmap(blockCount, startAddress + HEADER_BYTES);
    }

    /** mm_alloc */
    method MmAlloc(bytes: nat) returns (address: nat)
      requires Ok()
      modifies this`usedBlocksCount, bitmap
      ensures Ok() && (Value(), address) == Alloc(old(Value()), bytes)
    {
      if bytes == 0 || bytes > MAX_REQUEST {
        return 0;
      }
      ghost var before := Value();
      var blocksNeeded := (bytes + (BLOCK_SIZE - 1)) / BLOCK_SIZE;
      if blocksNeeded > bitmap.Length - usedBlocksCount {
        forall s: nat ensures !FreeRun(before.row, s, blocksNeeded) {
          if FreeRun(before.row, s, blocksNeeded) {
            FreeRunFits(before.row, s, blocksNeeded);
          }
        }
        FirstRunIs(before.row, blocksNeeded, -1);
        return 0;
      }
      var freeBlocks := 0;
      var i := 0;
      while i < bitmap.Length
        invariant 0 <= i <= bitmap.Length && 0 <= freeBlocks <= i && freeBlocks < blocksNeeded
        invariant forall k :: i - freeBlocks <= k < i ==> bitmap[k] == FREE
        invariant freeBlocks < i ==> bitmap[i - freeBlocks - 1] != FREE
        invariant forall s: nat :: s + blocksNeeded <= i ==> !FreeRun(before.row, s, blocksNeeded)
        invariant Value() == before
      {
        if bitmap[i] == FREE {
          freeBlocks := freeBlocks + 1;
          if freeBlocks == blocksNeeded {
            var start := i - freeBlocks + 1;
            FirstRunIs(before.row, blocksNeeded, start);
            MarkValid(before, start, blocksNeeded);
            hide FreeRun, FirstRun, Valid;
            MarkRun(start, i);
            usedBlocksCount := usedBlocksCount + blocksNeeded;
            return realMemStart + start * BLOCK_SIZE;
          }
        } else {
          freeBlocks := 0;
        }
        i := i + 1;
      }
      FirstRunIs(before.row, blocksNeeded, -1);
      return 0;
    }

    /** The two stores of mm_alloc: BORDER at the start of the run, USED over the rest. */
    method MarkRun(start: nat, last: nat)
      requires start <= last < bitmap.Length
      modifies bitmap
      ensures bitmap[..] == Mark(old(bitmap[..]), start, last - start + 1)
    {
      ghost var row := bitmap[..];
      bitmap[start] := BORDER;
      var j := start + 1;
      while j <= last
        invariant start < j <= last + 1
        invariant forall k: nat :: k < bitmap.Length ==>
                    bitmap[k] == if k == start then BORDER else if start < k < j then USED else row[k]
      {
        bitmap[j] := USED;
        j := j + 1;
      }
      MarkCells(row, start, last - start + 1);
    }

    /** mm_free's clearing of the run that starts at index. */
    method ClearRun(index: nat)
      requires index < bitmap.Length && bitmap[index] == BORDER && usedBlocksCount >= RunEnd(bitmap[..], index) - index
      modifies this`usedBlocksCount, bitmap
      ensures bitmap[..] == Wipe(old(bitmap[..]), index, RunEnd(old(bitmap[..]), index))
      ensures usedBlocksCount == old(usedBlocksCount) - (RunEnd(old(bitmap[..]), index) - index)
    {
      ghost var row := bitmap[..];
      ghost var end := RunEnd(row, index);
      WipeCells(row, index, end);
      hide Wipe;
      bitmap[index] := FREE;
      usedBlocksCount := usedBlocksCount - 1;
      var i := index + 1;
      while i < bitmap.Length && bitmap[i] == USED
        invariant index < i <= end
        invariant forall k: nat :: k < bitmap.Length ==> bitmap[k] == if index <= k < i then FREE else row[k]
        invariant usedBlocksCount == old(usedBlocksCount) - (i - index)
        decreases bitmap.Length - i
      {
        bitmap[i] := FREE;
        usedBlocksCount := usedBlocksCount - 1;
        i := i + 1;
      }
      assert bitmap[..] == Wipe(row, index, end);
    }

    /** mm_free, for any pointer. */
    method MmFree(ptr: nat)
      requires Ok()
      modifies this`usedBlocksCount, bitmap
      ensures Ok() && Value() == Free(old(Value()), ptr)
    {
      if ptr == 0 {
        return;
      }
      if ptr < realMemStart {
        return;
      }
      var index := (ptr - realMemStart) / BLOCK_SIZE;
      if index >= bitmap.Length {
        return;
      }
      if bitmap[index] != BORDER {
        return;
      }
      ghost var before := Value();
      WipeValid(before, index);
      hide Valid, Wipe;
      ClearRun(index);
    }

    /** mm_info, in blocks. */
    method MmInfo() returns (size: nat, taken: nat, free: nat)
      requires Ok()
      ensures size == |Value().row| && taken == Taken(Value().row) && free == size - taken
    {
      size := bitmap.Length;
      taken := usedBlocksCount;
      free := size - taken;
    }
  }
}
