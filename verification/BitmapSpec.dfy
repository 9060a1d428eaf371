/** The bitmap allocator on values: first fit over a row of cells, each allocated run led by a BORDER cell. */
module BitmapSpec {
  import AbstractHeap

  datatype Cell = FREE | USED | BORDER

  type Row = seq<Cell>

  const BLOCK_SIZE: nat := 64
  const MAX_REQUEST: nat := 0x2_0000

  function Taken(row: Row): (r: nat)
    ensures r <= |row|
  {
    if row == [] then 0 else Taken(row[1..]) + if row[0] != FREE then 1 else 0
  }

  /** Every USED cell continues the run of the cell before it. */
  ghost predicate Chained(row: Row) {
    forall i: nat :: i < |row| && row[i] == USED ==> i > 0 && row[i - 1] != FREE
  }

  datatype Manager = Manager(row: Row, used: nat, memStart: nat)

  ghost predicate Valid(b: Manager) {
    Chained(b.row) && b.used == Taken(b.row) && 0 < b.memStart
  }

  /** The n cells from s on exist and are FREE. */
  ghost predicate FreeRun(row: Row, s: nat, n: nat) {
    s + n <= |row| && forall i :: s <= i < s + n ==> row[i] == FREE
  }

  /** The first start, at or after s, of n FREE cells; -1 if there is none. */
  ghost function FirstRun(row: Row, n: nat, s: nat): int
    decreases |row| - s
  {
    if s + n > |row| then -1 else if FreeRun(row, s, n) then s else FirstRun(row, n, s + 1)
  }

  lemma {:induction false} FirstRunLowest(row: Row, n: nat, s: nat)
    ensures var r := FirstRun(row, n, s);
            && (r != -1 ==> r >= s && FreeRun(row, r, n))
            && forall k: nat :: s <= k && (r == -1 || k < r) ==> !FreeRun(row, k, n)
    decreases |row| - s
  {
    if s + n <= |row| && !FreeRun(row, s, n) {
      FirstRunLowest(row, n, s + 1);
    }
  }

  lemma FirstRunIs(row: Row, n: nat, r: int)
    requires r != -1 ==> r >= 0 && FreeRun(row, r, n)
    requires forall k: nat :: (r == -1 || k < r) ==> !FreeRun(row, k, n)
    requires r >= -1
    ensures FirstRun(row, n, 0) == r
  {
    FirstRunLowest(row, n, 0);
  }

  function Mark(row: Row, s: nat, n: nat): (r: Row)
    requires 0 < n && s + n <= |row|
    ensures |r| == |row|
  {
    row[..s] + [BORDER] + seq(n - 1, _ => USED) + row[s + n..]
  }

  /** Where the run led by cell i ends. */
  function RunEnd(row: Row, i: nat): (j: nat)
    requires i < |row|
    ensures i < j <= |row| && (j < |row| ==> row[j] != USED) && forall k :: i < k < j ==> row[k] == USED
    decreases |row| - i
  {
    if i + 1 < |row| && row[i + 1] == USED then RunEnd(row, i + 1) else i + 1
  }

  lemma {:induction false} RunEndIs(row: Row, i: nat, j: nat)
    requires i < j <= |row| && (j < |row| ==> row[j] != USED)
    requires forall k :: i < k < j ==> row[k] == USED
    ensures RunEnd(row, i) == j
    decreases j - i
  {
    if i + 1 < j {
      RunEndIs(row, i + 1, j);
    }
  }

  function Wipe(row: Row, i: nat, j: nat): (r: Row)
    requires i <= j <= |row|
    ensures |r| == |row|
  {
    row[..i] + seq(j - i, _ => FREE) + row[j..]
  }

  function BlocksFor(bytes: nat): nat {
    (bytes + (BLOCK_SIZE - 1)) / BLOCK_SIZE
  }

  /** mm_alloc: the new state and the returned address, 0 for NULL. */
  ghost function Alloc(b: Manager, bytes: nat): (Manager, nat) {
    var n := BlocksFor(bytes);
    var s := FirstRun(b.row, n, 0);
    if bytes == 0 || bytes > MAX_REQUEST || s == -1 then (b, 0)
    else
      FirstRunLowest(b.row, n, 0);
      (b.(row := Mark(b.row, s, n), used := b.used + n), b.memStart + s * BLOCK_SIZE)
  }

  /** The cell whose run a pointer names, if it names one. */
  predicate Names(b: Manager, p: nat, i: nat) {
    && p != 0 && b.memStart <= p && i == (p - b.memStart) / BLOCK_SIZE
    && i < |b.row| && b.row[i] == BORDER
  }

  /** mm_free, for any pointer whatever. */
  function Free(b: Manager, p: nat): Manager {
    if p == 0 || p < b.memStart then b
    else
      var i := (p - b.memStart) / BLOCK_SIZE;
      if i < |b.row| && b.row[i] == BORDER && RunEnd(b.row, i) - i <= b.used then
        b.(row := Wipe(b.row, i, RunEnd(b.row, i)), used := b.used - (RunEnd(b.row, i) - i))
      else b
  }

  // ---------------------------------------------------------------- counting

  lemma {:induction false} TakenAppend(a: Row, b: Row)
    ensures Taken(a + b) == Taken(a) + Taken(b)
  {
    if a == [] {
      assert a + b == b;
    } else {
      assert (a + b)[1..] == a[1..] + b;
      TakenAppend(a[1..], b);
    }
  }

  lemma {:induction false} TakenUniform(a: Row, busy: bool)
    requires forall i :: 0 <= i < |a| ==> (a[i] != FREE) == busy
    ensures Taken(a) == if busy then |a| else 0
  {
    if a != [] {
      TakenUniform(a[1..], busy);
    }
  }

  lemma TakenThree(a: Row, b: Row, c: Row)
    ensures Taken(a + b + c) == Taken(a) + Taken(b) + Taken(c)
  {
    TakenAppend(a + b, c);
    TakenAppend(a, b);
  }

  lemma TakenSplit(row: Row, i: nat, j: nat)
    requires i <= j <= |row|
    ensures Taken(row) == Taken(row[..i]) + Taken(row[i..j]) + Taken(row[j..])
  {
    hide Taken;
    assert row[..j] == row[..i] + row[i..j];
    assert row == row[..j] + row[j..];
    TakenAppend(row[..i], row[i..j]);
    TakenAppend(row[..j], row[j..]);
  }

  /** The early exit is safe: a free run is never longer than the number of free cells. */
  lemma FreeRunFits(row: Row, s: nat, n: nat)
    requires FreeRun(row, s, n)
    ensures n <= |row| - Taken(row)
  {
    hide Taken;
    TakenSplit(row, s, s + n);
    TakenUniform(row[s..s + n], false);
  }

  // ---------------------------------------------------------------- what the operations keep

  lemma MarkCells(row: Row, s: nat, n: nat)
    requires 0 < n && s + n <= |row|
    ensures forall i: nat :: i < |row| ==>
              Mark(row, s, n)[i] == if i == s then BORDER else if s < i < s + n then USED else row[i]
  {
  }

  lemma MarkedRunEnd(row: Row, s: nat, n: nat)
    requires Chained(row) && 0 < n && FreeRun(row, s, n)
    ensures RunEnd(Mark(row, s, n), s) == s + n
  {
    MarkCells(row, s, n);
    assert row[s + n - 1] == FREE;
    RunEndIs(Mark(row, s, n), s, s + n);
  }

  lemma MarkTaken(row: Row, s: nat, n: nat)
    requires 0 < n && FreeRun(row, s, n)
    ensures Taken(Mark(row, s, n)) == Taken(row) + n
  {
    hide Taken;
    var mid := [BORDER] + seq(n - 1, _ => USED);
    assert Mark(row, s, n) == row[..s] + mid + row[s + n..];
    TakenSplit(row, s, s + n);
    TakenThree(row[..s], mid, row[s + n..]);
    TakenUniform(row[s..s + n], false);
    TakenUniform(mid, true);
  }

  lemma MarkValid(b: Manager, s: nat, n: nat)
    requires Valid(b) && 0 < n && FreeRun(b.row, s, n)
    ensures Valid(b.(row := Mark(b.row, s, n), used := b.used + n))
  {
    MarkCells(b.row, s, n);
    MarkTaken(b.row, s, n);
  }

  lemma WipeCells(row: Row, i: nat, j: nat)
    requires i <= j <= |row|
    ensures forall k: nat :: k < |row| ==> Wipe(row, i, j)[k] == if i <= k < j then FREE else row[k]
  {
  }

  lemma WipeTaken(row: Row, i: nat, j: nat)
    requires i <= j <= |row| && forall k :: i <= k < j ==> row[k] != FREE
    ensures Taken(row) == Taken(Wipe(row, i, j)) + (j - i)
  {
    hide Taken;
    var mid := seq(j - i, _ => FREE);
    assert Wipe(row, i, j) == row[..i] + mid + row[j..];
    hide Wipe;
    TakenSplit(row, i, j);
    TakenThree(row[..i], mid, row[j..]);
    TakenUniform(row[i..j], true);
    TakenUniform(mid, false);
  }

  lemma WipeChained(row: Row, i: nat)
    requires Chained(row) && i < |row| && row[i] == BORDER
    ensures Chained(Wipe(row, i, RunEnd(row, i)))
  {
    WipeCells(row, i, RunEnd(row, i));
  }

  lemma WipeValid(b: Manager, i: nat)
    requires Valid(b) && i < |b.row| && b.row[i] == BORDER
    ensures var j := RunEnd(b.row, i);
            j - i <= b.used && Valid(b.(row := Wipe(b.row, i, j), used := b.used - (j - i)))
  {
    var j := RunEnd(b.row, i);
    WipeTaken(b.row, i, j);
    WipeChained(b.row, i);
  }

  lemma AllocValid(b: Manager, bytes: nat)
    requires Valid(b)
    ensures Valid(Alloc(b, bytes).0)
  {
    var n := BlocksFor(bytes);
    FirstRunLowest(b.row, n, 0);
    if bytes != 0 && bytes <= MAX_REQUEST && FirstRun(b.row, n, 0) != -1 {
      MarkValid(b, FirstRun(b.row, n, 0), n);
    }
  }

  /** The cells from i up to j, which are one run, become FREE; all others stay as they are. */
  ghost predicate Clearing(row: Row, row': Row, i: nat, j: nat) {
    && |row'| == |row| && i < j <= |row| && row[i] == BORDER && (forall k :: i < k < j ==> row[k] == USED)
    && (j < |row| ==> row[j] != USED)
    && forall k: nat :: k < |row| ==> row'[k] == if i <= k < j then FREE else row[k]
  }

  /**
   mm_free, exactly, of any pointer: one into the first 64 bytes of a run clears that run, and any other is ignored.
   */
  lemma FreeValid(b: Manager, p: nat)
    requires Valid(b)
    ensures Valid(Free(b, p))
    ensures var i := (p - b.memStart) / 64;
            if p != 0 && b.memStart <= p && i < |b.row| && b.row[i] == BORDER
            then exists j: nat :: Clearing(b.row, Free(b, p).row, i, j) && Free(b, p).used == b.used - (j - i)
                                  && Free(b, p).memStart == b.memStart
            else Free(b, p) == b
  {
    FreeClears(b, p);
    var i := (p - b.memStart) / BLOCK_SIZE;
    if p != 0 && b.memStart <= p && i < |b.row| && b.row[i] == BORDER {
      assert Names(b, p, i);
      WipeCells(b.row, i, RunEnd(b.row, i));
      assert Clearing(b.row, Free(b, p).row, i, RunEnd(b.row, i));
    }
  }

  lemma FreeClears(b: Manager, p: nat)
    requires Valid(b)
    ensures Valid(Free(b, p))
    ensures (forall i: nat :: !Names(b, p, i)) ==> Free(b, p) == b
    ensures forall i: nat :: Names(b, p, i) ==>
              && Free(b, p).used == b.used - (RunEnd(b.row, i) - i)
              && Free(b, p).row == Wipe(b.row, i, RunEnd(b.row, i))
  {
    if p != 0 && b.memStart <= p {
      var i := (p - b.memStart) / BLOCK_SIZE;
      if i < |b.row| && b.row[i] == BORDER {
        assert Names(b, p, i);
        WipeValid(b, i);
      }
    }
  }

  lemma BlockIndex(memStart: nat, s: nat)
    ensures (memStart + s * BLOCK_SIZE - memStart) / BLOCK_SIZE == s
  {
  }

  lemma MarkThenWipe(row: Row, s: nat, n: nat)
    requires FreeRun(row, s, n) && n > 0
    ensures Wipe(Mark(row, s, n), s, s + n) == row
  {
    MarkCells(row, s, n);
    WipeCells(Mark(row, s, n), s, s + n);
  }

  /** Freeing what was just allocated restores the allocator exactly. */
  lemma AllocThenFree(b: Manager, bytes: nat)
    requires Valid(b) && Alloc(b, bytes).1 != 0
    ensures Free(Alloc(b, bytes).0, Alloc(b, bytes).1) == b
  {
    var (b', p) := Alloc(b, bytes);
    var n := BlocksFor(bytes);
    var s := FirstRun(b.row, n, 0);
    FirstRunLowest(b.row, n, 0);
    MarkCells(b.row, s, n);
    AllocValid(b, bytes);
    BlockIndex(b.memStart, s);
    assert Names(b', p, s);
    MarkedRunEnd(b.row, s, n);
    MarkThenWipe(b.row, s, n);
    hide Valid, RunEnd, FirstRun, Mark, Wipe, FreeRun;
    FreeClears(b', p);
  }

  // ---------------------------------------------------------------- refinement of the abstract heap

  /** The blocks that callers hold, in cells of BLOCK_SIZE bytes. */
  ghost function HeapOf(row: Row): AbstractHeap.Heap {
    map i: nat | i < |row| && row[i] == BORDER :: RunEnd(row, i) - i
  }

  lemma HeapDisjoint(row: Row)
    ensures AbstractHeap.Disjoint(HeapOf(row))
    ensures forall i :: i in HeapOf(row) ==> i + HeapOf(row)[i] <= |row|
  {
    forall i, j | i in HeapOf(row) && j in HeapOf(row) && i < j
      ensures i + HeapOf(row)[i] <= j
    {
      assert row[j] != USED;
    }
  }

  lemma MarkOtherRun(row: Row, s: nat, n: nat, i: nat)
    requires Chained(row) && 0 < n && FreeRun(row, s, n) && i < |row| && row[i] == BORDER
    ensures i != s && Mark(row, s, n)[i] == BORDER && RunEnd(Mark(row, s, n), i) == RunEnd(row, i)
  {
    var row' := Mark(row, s, n);
    MarkCells(row, s, n);
    var j := RunEnd(row, i);
    assert row[j - 1] != FREE;
    forall k | i < k < j ensures row'[k] == USED {
      assert row[k] == USED;
    }
    RunEndIs(row', i, j);
  }

  lemma MarkHeapAt(row: Row, s: nat, n: nat, i: nat)
    requires Chained(row) && 0 < n && FreeRun(row, s, n)
    ensures var h, h' := HeapOf(row), HeapOf(Mark(row, s, n));
            && s !in h && s in h' && h'[s] == n
            && (i != s ==> (i in h' <==> i in h) && (i in h ==> h'[i] == h[i]))
  {
    MarkCells(row, s, n);
    MarkedRunEnd(row, s, n);
    if i < |row| && row[i] == BORDER {
      MarkOtherRun(row, s, n, i);
    }
  }

  lemma MapPlus(h: map<nat, nat>, h': map<nat, nat>, s: nat)
    requires s in h' && forall i: nat :: i != s ==> (i in h' <==> i in h) && (i in h ==> h'[i] == h[i])
    ensures h' == h[s := h'[s]]
  {
  }

  lemma MapMinus(h: map<nat, nat>, h': map<nat, nat>, s: nat)
    requires forall i: nat :: (i in h' <==> i in h && i != s) && (i in h' ==> h'[i] == h[i])
    ensures h' == h - {s}
  {
  }

  lemma MarkHeap(row: Row, s: nat, n: nat)
    requires Chained(row) && 0 < n && FreeRun(row, s, n)
    ensures s !in HeapOf(row)
    ensures HeapOf(Mark(row, s, n)) == HeapOf(row)[s := n]
  {
    assert s + n <= |row|;
    hide *;
    var h, h' := HeapOf(row), HeapOf(Mark(row, s, n));
    forall i: nat
      ensures s !in h && s in h' && h'[s] == n
      ensures i != s ==> (i in h' <==> i in h) && (i in h ==> h'[i] == h[i])
    {
      MarkHeapAt(row, s, n, i);
    }
    MapPlus(h, h', s);
  }

  lemma RoundsUp(bytes: nat)
    ensures var n := BlocksFor(bytes); bytes <= n * 64 && (0 < bytes ==> 0 < n && (n - 1) * 64 < bytes)
  {
  }

  lemma ShorterRun(row: Row, s: nat, n: nat, k: nat)
    requires FreeRun(row, s, k) && n <= k
    ensures FreeRun(row, s, n)
  {
  }

  /** Cells s .. s+n-1, FREE before, become one run of BORDER and USED cells; all others stay as they are. */
  ghost predicate Taking(row: Row, row': Row, s: nat, n: nat) {
    && |row'| == |row| && s + n <= |row|
    && forall i: nat :: i < |row| ==>
         if s <= i < s + n then row[i] == FREE && row'[i] == (if i == s then BORDER else USED) else row'[i] == row[i]
  }

  /**
   mm_alloc, exactly: NULL if and only if no run of FREE cells of 64 bytes holds the request, or it is for 0 or more than
   2^17 bytes; otherwise the lowest run that does, of as few cells as possible.
   */
  lemma AllocLowest(b: Manager, bytes: nat)
    requires Valid(b)
    ensures var (b', p) := Alloc(b, bytes);
            && (p == 0 <==> bytes == 0 || bytes > 0x2_0000 || forall s: nat, k: nat :: bytes <= k * 64 ==> !FreeRun(b.row, s, k))
            && (p == 0 ==> b' == b)
            && (p != 0 ==> exists s: nat, n: nat ::
                  && (n - 1) * 64 < bytes <= n * 64 && p == b.memStart + s * 64
                  && Taking(b.row, b'.row, s, n) && b'.used == b.used + n && b'.memStart == b.memStart
                  && forall k: nat :: k < s ==> !FreeRun(b.row, k, n))
  {
    var n := BlocksFor(bytes);
    var s := FirstRun(b.row, n, 0);
    RoundsUp(bytes);
    FirstRunLowest(b.row, n, 0);
    forall t: nat, k: nat | bytes <= k * 64 && FreeRun(b.row, t, k) ensures FreeRun(b.row, t, n) {
      ShorterRun(b.row, t, n, k);
    }
    if 0 < bytes <= MAX_REQUEST && s != -1 {
      MarkCells(b.row, s, n);
      assert Taking(b.row, Alloc(b, bytes).0.row, s, n);
    }
  }

  /** mm_alloc is an allocation of the abstract heap. */
  lemma AllocRefines(b: Manager, bytes: nat)
    requires Valid(b)
    ensures var (b', p) := Alloc(b, bytes);
            var s := (p - b.memStart) / BLOCK_SIZE;
            && (p != 0 ==> s >= 0 && p == b.memStart + s * BLOCK_SIZE)
            && AbstractHeap.Allocates(HeapOf(b.row), BlocksFor(bytes), p != 0, if p == 0 then 0 else s, HeapOf(b'.row))
  {
    var (b', p) := Alloc(b, bytes);
    var n := BlocksFor(bytes);
    var s := FirstRun(b.row, n, 0);
    hide HeapOf, Mark, FirstRun, RunEnd, FreeRun, BlocksFor;
    FirstRunLowest(b.row, n, 0);
    if p != 0 {
      BlockIndex(b.memStart, s);
      hide Alloc;
      MarkAllocates(b.row, s, n);
    }
  }

  lemma MarkAllocates(row: Row, s: nat, n: nat)
    requires Chained(row) && 0 < n && FreeRun(row, s, n)
    ensures AbstractHeap.Allocates(HeapOf(row), n, true, s, HeapOf(Mark(row, s, n)))
  {
    MarkHeap(row, s, n);
    HeapDisjoint(Mark(row, s, n));
    hide HeapOf, Mark, FreeRun, Chained;
  }

  lemma WipeOtherRun(row: Row, i: nat, k: nat)
    requires i < |row| && row[i] == BORDER && k < |row| && row[k] == BORDER && k != i
    ensures var row' := Wipe(row, i, RunEnd(row, i));
            row'[k] == BORDER && RunEnd(row', k) == RunEnd(row, k)
  {
    var e, j := RunEnd(row, i), RunEnd(row, k);
    var row' := Wipe(row, i, e);
    WipeCells(row, i, e);
    assert k < i ==> j <= i;
    assert i < k ==> e <= k;
    forall c | k < c < j ensures row'[c] == USED {
      assert row[c] == USED;
    }
    RunEndIs(row', k, j);
  }

  lemma WipeHeapAt(row: Row, i: nat, k: nat)
    requires i < |row| && row[i] == BORDER
    ensures var h, h' := HeapOf(row), HeapOf(Wipe(row, i, RunEnd(row, i)));
            && (k in h' <==> k in h && k != i)
            && (k in h' ==> h'[k] == h[k])
  {
    WipeCells(row, i, RunEnd(row, i));
    if k < |row| && row[k] == BORDER && k != i {
      WipeOtherRun(row, i, k);
    }
  }

  lemma WipeHeap(row: Row, i: nat)
    requires i < |row| && row[i] == BORDER
    ensures i in HeapOf(row)
    ensures HeapOf(Wipe(row, i, RunEnd(row, i))) == HeapOf(row) - {i}
  {
    assert i in HeapOf(row);
    hide *;
    var h, h' := HeapOf(row), HeapOf(Wipe(row, i, RunEnd(row, i)));
    forall k: nat
      ensures (k in h' <==> k in h && k != i) && (k in h' ==> h'[k] == h[k])
    {
      WipeHeapAt(row, i, k);
    }
    MapMinus(h, h', i);
  }

  /** mm_free removes the block whose first cell the pointer falls in, and does nothing for any other pointer. */
  lemma FreeRefines(b: Manager, p: nat)
    requires Valid(b)
    ensures var i := (p - b.memStart) / BLOCK_SIZE;
            if p != 0 && b.memStart <= p && i in HeapOf(b.row)
            then AbstractHeap.Frees(HeapOf(b.row), i, HeapOf(Free(b, p).row))
            else Free(b, p) == b
  {
    FreeValid(b, p);
    if p != 0 && b.memStart <= p {
      var i := (p - b.memStart) / BLOCK_SIZE;
      if i < |b.row| && b.row[i] == BORDER {
        assert Names(b, p, i);
        WipeHeap(b.row, i);
      }
    }
  }

  // ---------------------------------------------------------------- whole runs

  datatype Op = AllocOp(bytes: nat) | FreeOp(p: nat)

  ghost function Run(b: Manager, ops: seq<Op>): Manager
    decreases |ops|
  {
    if ops == [] then b
    else match ops[0]
      case AllocOp(bytes) => Run(Alloc(b, bytes).0, ops[1..])
      case FreeOp(p) => Run(Free(b, p), ops[1..])
  }

  /** Any calls, with any sizes and any pointers, keep the row well formed and the blocks disjoint and inside the region. */
  lemma {:induction false} EveryRun(b: Manager, ops: seq<Op>)
    requires Valid(b)
    ensures var v := Run(b, ops);
            && Valid(v) && |v.row| == |b.row|
            && AbstractHeap.Disjoint(HeapOf(v.row))
            && forall i :: i in HeapOf(v.row) ==> i + HeapOf(v.row)[i] <= |v.row|
    decreases |ops|
  {
    HeapDisjoint(b.row);
    if ops != [] {
      match ops[0]
      case AllocOp(bytes) =>
        AllocValid(b, bytes);
        FirstRunLowest(b.row, BlocksFor(bytes), 0);
        EveryRun(Alloc(b, bytes).0, ops[1..]);
      case FreeOp(p) =>
        FreeValid(b, p);
        EveryRun(Free(b, p), ops[1..]);
    }
  }
}
