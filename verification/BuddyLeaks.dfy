/** The branch of mm_alloc that marks a block USED and then returns NULL: when it is taken, and what it costs. */
module BuddyLeaks {
  import opened Words
  import opened BuddyTree
  import opened BuddyGeometry
  import opened BuddySpec
  import opened BuddyRuns

  /** The request passes the guard and the search, and then the block turns out to start past the region. */
  predicate Leaks(b: Manager, size: nat)
    requires Shape(b.maxExp, b.tree) && Fits(b, size)
  {
    !Refused(b, size) && Search(b, size) != -1
    && (LevelInTree(b.maxExp, b.tree, Search(b, size)); Start(b.maxExp, Search(b, size)) >= b.size)
  }

  /** Such a call returns NULL and gives its caller nothing, but one more node is USED and the counter goes up. */
  lemma LeakingCall(b: Manager, size: nat)
    requires Valid(b) && Fits(b, size) && Leaks(b, size)
    ensures var n, (b', p) := Search(b, size), Alloc(b, size);
            && 0 <= n && Level(n) <= b.maxExp && Start(b.maxExp, n) >= b.size && n !in UsedNodes(b.tree)
            && p == 0 && HeapOf(b') == HeapOf(b)
            && UsedNodes(b'.tree) == UsedNodes(b.tree) + {n} && b'.used == U64(b.used + Size(b.maxExp, n))
  {
    var n := AllocTakes(b, size);
    AllocHeap(b, size);
  }

  // ---------------------------------------------------------------- a leaked node is lost for good

  /** USED nodes whose blocks start past the region: no caller can free them. */
  ghost function Lost(b: Manager): set<nat> {
    set u | u in UsedNodes(b.tree) && Level(u) <= b.maxExp && Start(b.maxExp, u) >= b.size
  }

  /** The call is allowed, and what it frees is live. */
  ghost predicate CanDo(w: World, op: Op) {
    WorldInv(w) && Allowed(w, op) && (op.FreeOp? && op.address != 0 ==> Live(w.b, op.address))
  }

  ghost predicate LeaksNow(w: World, op: Op)
    requires WorldInv(w) && Allowed(w, op)
  {
    op.AllocOp? && Leaks(w.b, op.size)
  }

  lemma LostByAlloc(w: World, size: nat)
    requires WorldInv(w) && Fits(w.b, size)
    ensures var b' := Step(w, AllocOp(size)).b;
            && Lost(w.b) <= Lost(b')
            && (if Leaks(w.b, size) then Lost(b') != {} else Lost(b') == Lost(w.b))
  {
    if !Refused(w.b, size) && Search(w.b, size) != -1 {
      var n := AllocTakes(w.b, size);
      var b' := Alloc(w.b, size).0;
      hide Alloc, Search, U64, Inv, Start, Valid, WorldInv;
      if Start(w.b.maxExp, n) >= w.b.size {
        assert n in Lost(b');
      }
    }
  }

  lemma LostByFree(w: World, p: nat)
    requires WorldInv(w) && Allowed(w, FreeOp(p)) && p != 0 && Live(w.b, p)
    ensures Lost(Step(w, FreeOp(p)).b) == Lost(w.b)
  {
    var u := FreeReleases(w.b, p);
  }

  lemma LostStep(w: World, op: Op)
    requires CanDo(w, op)
    ensures WorldInv(Step(w, op))
    ensures Lost(Step(w, op).b) == {} <==> Lost(w.b) == {} && !LeaksNow(w, op)
  {
    StepKeeps(w, op);
    match op
    case AllocOp(size) => LostByAlloc(w, size);
    case FreeOp(p) => if p != 0 { LostByFree(w, p); }
  }

  /** Some mm_alloc of the run took the branch. */
  ghost predicate RunLeaks(w: World, ops: seq<Op>)
    requires WorldInv(w) && AllowedRun(w, ops)
    decreases |ops|
  {
    ops != [] && (LeaksNow(w, ops[0]) || (StepKeeps(w, ops[0]); RunLeaks(Step(w, ops[0]), ops[1..])))
  }

  lemma {:induction false} LostInRun(w: World, ops: seq<Op>)
    requires WorldInv(w) && AllowedRun(w, ops)
    ensures Lost(Run(w, ops).b) == {} <==> Lost(w.b) == {} && !RunLeaks(w, ops)
    decreases |ops|
  {
    if ops != [] {
      StepKeeps(w, ops[0]);
      LostStep(w, ops[0]);
      hide Lost, WorldInv, LeaksNow, Step, Allowed;
      LostInRun(Step(w, ops[0]), ops[1..]);
    }
  }

  /** Once nothing is held, the tree is all FREE exactly if nothing was lost. */
  lemma HeldNothing(w: World)
    requires WorldInv(w) && w.live == map[]
    ensures w.b.tree == AllFree(|w.b.tree|) <==> Lost(w.b) == {}
  {
    AllFreeInv(w.b.maxExp, AllFree(|w.b.tree|));
    if Lost(w.b) == {} {
      forall u | u in UsedNodes(w.b.tree) ensures false {
        LevelInTree(w.b.maxExp, w.b.tree, u);
        assert u !in Lost(w.b);
        HeapAt(w.b, u, Start(w.b.maxExp, u));
      }
      Canonical(w.b.tree, AllFree(|w.b.tree|));
    }
  }

  lemma RunKeepsPlace(w: World, ops: seq<Op>)
    requires WorldInv(w) && AllowedRun(w, ops)
    ensures var v := Run(w, ops); v.b.size == w.b.size && v.b.maxExp == w.b.maxExp && |v.b.tree| == |w.b.tree|
    decreases |ops|
  {
    if ops != [] {
      StepKeeps(w, ops[0]);
      StepKeepsPlace(w, ops[0]);
      hide Step, WorldInv, Allowed;
      RunKeepsPlace(Step(w, ops[0]), ops[1..]);
    }
  }

  lemma StepKeepsPlace(w: World, op: Op)
    requires CanDo(w, op) && WorldInv(Step(w, op))
    ensures var v := Step(w, op);
            v.b.size == w.b.size && v.b.maxExp == w.b.maxExp && |v.b.tree| == |w.b.tree| && v.b.treeStart == w.b.treeStart
  {
  }

  /**
   Freeing everything, in any order, gives back the tree of mm_create if and only if no mm_alloc of the run took the
   leaking branch.
   */
  lemma AllFreedIsFresh(w: World, ops: seq<Op>)
    requires Fresh(w) && WorldInv(w) && AllowedRun(w, ops) && Run(w, ops).live == map[]
    ensures Run(w, ops).b.tree == w.b.tree <==> !RunLeaks(w, ops)
  {
    AllFreeInv(w.b.maxExp, w.b.tree);
    assert Lost(w.b) == {};
    LostInRun(w, ops);
    RunKeeps(w, ops);
    HeldNothing(Run(w, ops));
    RunKeepsPlace(w, ops);
  }

  // ---------------------------------------------------------------- regions that cannot leak

  lemma StartFits(m: nat, n: nat)
    requires Level(n) + MIN_EXP <= m
    ensures Start(m, n) + 16 <= Pow2(m)
  {
    assert Pow2(MIN_EXP) == 16;
    Pow2Monotone(MIN_EXP, Exp(m, n));
    assert Start(m, 0) == 0 && Size(m, 0) == Pow2(m);
    if n > 0 {
      RootAbove(n);
      AboveInside(m, 0, n);
    }
  }

  /** When even the last 16-byte block of the tree starts within the region, no call leaks. */
  lemma RoomyNeverLeaks(b: Manager, size: nat)
    requires Valid(b) && Fits(b, size) && b.size + 16 > Pow2(b.maxExp)
    ensures !Leaks(b, size)
  {
    if !Refused(b, size) && Search(b, size) != -1 {
      LevelInTree(b.maxExp, b.tree, Search(b, size));
      StartFits(b.maxExp, Search(b, size));
    }
  }

  lemma {:induction false} RoomyRunNeverLeaks(w: World, ops: seq<Op>)
    requires WorldInv(w) && AllowedRun(w, ops) && w.b.size + 16 > Pow2(w.b.maxExp)
    ensures !RunLeaks(w, ops)
    decreases |ops|
  {
    if ops != [] {
      StepKeeps(w, ops[0]);
      StepKeepsPlace(w, ops[0]);
      if ops[0].AllocOp? {
        RoomyNeverLeaks(w.b, ops[0].size);
      }
      hide Step, WorldInv, Pow2, Leaks;
      RoomyRunNeverLeaks(Step(w, ops[0]), ops[1..]);
    }
  }

  // ---------------------------------------------------------------- regions that do leak

  /** The i-th node of the lowest level, which stands for 16 bytes. */
  function Leaf(m: nat, i: nat): nat
    requires MIN_EXP <= m
  {
    Pow2(m - MIN_EXP) - 1 + i
  }

  lemma LeafPlace(m: nat, i: nat)
    requires MIN_EXP <= m && i < Pow2(m - MIN_EXP)
    ensures Level(Leaf(m, i)) == m - MIN_EXP && Start(m, Leaf(m, i)) == 16 * i && Size(m, Leaf(m, i)) == 16
  {
    var n := Leaf(m, i);
    LevelUnique(n, m - MIN_EXP);
    SlotFormula(n);
    assert Pow2(MIN_EXP) == 16;
    assert Slot(n) == i && Size(m, n) == 16;
    hide Pow2, Slot, Start, Size, Leaf;
    StartFormula(m, n);
  }

  predicate IsLeaf(m: nat, lo: nat, hi: nat, n: nat)
    requires MIN_EXP <= m
  {
    Leaf(m, lo) <= n < Leaf(m, hi)
  }

  /** In use are the leaves lo .. hi - 1 and nothing else. */
  ghost predicate Packed(b: Manager, lo: nat, hi: nat)
    requires MIN_EXP <= b.maxExp
  {
    forall n: nat :: n in UsedNodes(b.tree) <==> IsLeaf(b.maxExp, lo, hi, n)
  }

  lemma SameLevelApart(m: nat, i: nat, j: nat)
    requires Level(i) == Level(j) <= m && i != j
    ensures Apart(m, i, j)
  {
    var a, c := if i < j then i else j, if i < j then j else i;
    if Above(a, c) {
      AboveInside(m, a, c);
    }
    UnrelatedApart(m, a, c);
  }

  lemma LeafNode(m: nat, n: nat)
    requires MIN_EXP <= m && Leaf(m, 0) <= n < Leaf(m, Pow2(m - MIN_EXP))
    ensures Level(n) == m - MIN_EXP
  {
    LeafPlace(m, n - Leaf(m, 0));
  }

  lemma LeafClear(b: Manager, lo: nat, hi: nat, k: nat)
    requires Valid(b) && Packed(b, lo, hi) && k < Pow2(b.maxExp - MIN_EXP) && hi <= Pow2(b.maxExp - MIN_EXP)
    requires k < lo || hi <= k
    ensures Leaf(b.maxExp, k) < |b.tree| && Clear(b.tree, Leaf(b.maxExp, k))
  {
    var m := b.maxExp;
    var n := Leaf(m, k);
    assert Pow2(m - MIN_EXP + 1) == 2 * Pow2(m - MIN_EXP);
    LeafPlace(m, k);
    ClearIsAvailable(m, b.tree, n);
    forall u: nat | u < |b.tree| && b.tree[u] == USED
      ensures Level(u) <= m && Apart(m, u, n)
    {
      assert u in UsedNodes(b.tree) && IsLeaf(m, lo, hi, u);
      LeafNode(m, u);
      SameLevelApart(m, u, n);
    }
    hide Inv, Clear, Apart;
  }

  lemma SmallExp(b: Manager, size: nat)
    requires MIN_EXP <= b.maxExp && size <= 16
    ensures FitExp(size, MIN_EXP) == MIN_EXP && Fits(b, size)
  {
    assert Pow2(MIN_EXP) == 16;
    Pow2Monotone(MIN_EXP, b.maxExp);
  }

  lemma LeavesBusy(b: Manager, lo: nat, hi: nat)
    requires MIN_EXP <= b.maxExp && Packed(b, lo, hi)
    ensures forall n: nat :: n < |b.tree| && Clear(b.tree, n) ==> !IsLeaf(b.maxExp, lo, hi, n)
  {
    forall n: nat | n < |b.tree| && Clear(b.tree, n) ensures !IsLeaf(b.maxExp, lo, hi, n) {
      assert n !in UsedNodes(b.tree);
    }
  }

  /** Leaves are handed out lowest first. */
  lemma NextLeaf(b: Manager, size: nat, lo: nat, hi: nat, k: nat)
    requires Valid(b) && Packed(b, lo, hi) && hi <= Pow2(b.maxExp - MIN_EXP) && 0 < size <= 16
    requires lo <= hi && k < Pow2(b.maxExp - MIN_EXP) && k == if lo > 0 then 0 else hi
    ensures FitExp(size, MIN_EXP) == MIN_EXP && Fits(b, size) && Search(b, size) == Leaf(b.maxExp, k)
  {
    SmallExp(b, size);
    SearchFirst(b, size);
    LeafClear(b, lo, hi, k);
    LeafPlace(b.maxExp, k);
    var n := Search(b, size);
    LevelBounds(n);
    LeavesBusy(b, lo, hi);
  }

  lemma LeafAlloc(b: Manager, size: nat, lo: nat, hi: nat, k: nat)
    requires Valid(b) && Packed(b, lo, hi) && hi <= Pow2(b.maxExp - MIN_EXP) && 0 < size <= 16
    requires lo <= hi && k < Pow2(b.maxExp - MIN_EXP) && k == if lo > 0 then 0 else hi
    requires size <= U64(b.size - b.used)
    ensures Fits(b, size) && (Leaks(b, size) <==> 16 * k >= b.size)
    ensures var v := Alloc(b, size).0;
            && v == b.(tree := v.tree, used := U64(b.used + 16)) && |v.tree| == |b.tree|
            && UsedNodes(v.tree) == UsedNodes(b.tree) + {Leaf(b.maxExp, k)}
  {
    hide Packed, Leaf, Start, Inv, Pow2, Search, Alloc;
    NextLeaf(b, size, lo, hi, k);
    LeafPlace(b.maxExp, k);
    var n := AllocTakes(b, size);
  }

  /** What a granted or leaking request for at most 16 bytes does to a packed tree. */
  lemma TakeLeaf(w: World, size: nat, lo: nat, hi: nat, k: nat)
    requires WorldInv(w) && Packed(w.b, lo, hi) && hi <= Pow2(w.b.maxExp - MIN_EXP) && 0 < size <= 16
    requires lo <= hi && k < Pow2(w.b.maxExp - MIN_EXP) && k == if lo > 0 then 0 else hi
    requires size <= U64(w.b.size - w.b.used)
    ensures Allowed(w, AllocOp(size))
    ensures Leaks(w.b, size) <==> 16 * k >= w.b.size
    ensures var v := Step(w, AllocOp(size)).b;
            && v == w.b.(tree := v.tree, used := U64(w.b.used + 16)) && |v.tree| == |w.b.tree|
            && UsedNodes(v.tree) == UsedNodes(w.b.tree) + {Leaf(w.b.maxExp, k)}
  {
    hide Agrees, Covered, Inv, Packed, Leaf, U64, FitExp, Pow2, Alloc, Leaks;
    LeafAlloc(w.b, size, lo, hi, k);
  }

  lemma Prefixed(w: World, op: Op, ops: seq<Op>)
    requires CanDo(w, op) && WorldInv(Step(w, op)) && AllowedRun(Step(w, op), ops)
    ensures AllowedRun(w, [op] + ops) && Run(w, [op] + ops) == Run(Step(w, op), ops)
  {
    assert ([op] + ops)[1..] == ops;
  }

  /** After this run, this request leaks. */
  ghost predicate LeakAfter(w: World, ops: seq<Op>, size: nat) {
    WorldInv(w) && AllowedRun(w, ops) && Fits(Run(w, ops).b, size)
    && (RunKeeps(w, ops); Leaks(Run(w, ops).b, size))
  }

  lemma LeakNext(w: World, op: Op, ops: seq<Op>, size: nat)
    requires CanDo(w, op) && LeakAfter(Step(w, op), ops, size)
    ensures LeakAfter(w, [op] + ops, size)
  {
    Prefixed(w, op, ops);
  }

  /** Filled to within 16 bytes of the end, with the counter past the end: the unsigned guard lets everything through. */
  lemma PastTheEnd(w: World, hi: nat)
    requires WorldInv(w) && Packed(w.b, 0, hi) && hi < Pow2(w.b.maxExp - MIN_EXP) && 16 * hi >= w.b.size
    requires 1 <= U64(w.b.size - w.b.used)
    ensures LeakAfter(w, [], 1)
  {
    TakeLeaf(w, 1, 0, hi, hi);
  }

  lemma PackedGrows(b: Manager, c: Manager, lo: nat, hi: nat, k: nat)
    requires MIN_EXP <= b.maxExp == c.maxExp && Packed(b, lo, hi) && lo <= hi
    requires UsedNodes(c.tree) == UsedNodes(b.tree) + {Leaf(b.maxExp, k)}
    ensures k == hi ==> Packed(c, lo, hi + 1)
    ensures lo == 1 && k == 0 ==> Packed(c, 0, hi)
  {
  }

  lemma WrapPast(size: nat, a: nat)
    requires size < TWO_64 && size < a < size + 100
    ensures U64(size - U64(a)) >= TWO_64 - 100
  {
  }

  /** The region is filled and 1 .. 15 bytes are left over. */
  lemma LeakWithRest(w: World, hi: nat) returns (ops: seq<Op>)
    requires WorldInv(w) && Packed(w.b, 0, hi) && w.b.used == 16 * hi < w.b.size < 16 * hi + 16
    requires w.b.size + 16 <= Pow2(w.b.maxExp)
    ensures LeakAfter(w, ops, 1)
  {
    var op := AllocOp(w.b.size - 16 * hi);
    LeafCount(w.b.maxExp);
    TakeRest(w, hi);
    WrapPast(w.b.size, 16 * hi + 16);
    hide WorldInv, Packed, Step, Allowed, LeakAfter, Pow2, U64;
    PastTheEnd(Step(w, op), hi + 1);
    LeakNext(w, op, [], 1);
    ops := [op];
    assert [op] + [] == [op];
  }

  lemma RestWraps(size: nat, used: nat)
    requires used < size < TWO_64
    ensures U64(size - used) == size - used
  {
  }

  lemma TakeRest(w: World, hi: nat)
    requires WorldInv(w) && Packed(w.b, 0, hi) && w.b.used == 16 * hi < w.b.size < 16 * hi + 16
    requires hi < Pow2(w.b.maxExp - MIN_EXP)
    ensures var op := AllocOp(w.b.size - 16 * hi);
            && CanDo(w, op) && WorldInv(Step(w, op)) && Packed(Step(w, op).b, 0, hi + 1)
            && Step(w, op).b == w.b.(tree := Step(w, op).b.tree, used := U64(16 * hi + 16))
  {
    var op := AllocOp(w.b.size - 16 * hi);
    RestWraps(w.b.size, 16 * hi);
    hide Step, U64, Agrees, Covered, Inv, Fits, Pow2, Packed, Leaks;
    TakeLeaf(w, w.b.size - 16 * hi, 0, hi, hi);
    StepKeeps(w, op);
    PackedGrows(w.b, Step(w, op).b, 0, hi, hi);
  }

  lemma LeafCount(m: nat)
    requires MIN_EXP <= m
    ensures 16 * Pow2(m - MIN_EXP) == Pow2(m)
  {
    Pow2Add(MIN_EXP, m - MIN_EXP);
    assert Pow2(MIN_EXP) == 16;
  }

  lemma FirstLeafOwns(b: Manager, hi: nat)
    requires Valid(b) && Packed(b, 0, hi) && 0 < hi <= Pow2(b.maxExp - MIN_EXP) && 0 < b.size
    ensures Owns(b, Leaf(b.maxExp, 0), b.treeStart) && 0 in HeapOf(b)
    ensures MIN_EXP < b.maxExp ==> Leaf(b.maxExp, 0) != 0
  {
    LeafPlace(b.maxExp, 0);
    assert IsLeaf(b.maxExp, 0, hi, Leaf(b.maxExp, 0));
    assert Leaf(b.maxExp, 0) in UsedNodes(b.tree);
    HeapAt(b, Leaf(b.maxExp, 0), 0);
  }

  lemma FirstLeafHeld(w: World, hi: nat)
    requires WorldInv(w) && Packed(w.b, 0, hi) && 0 < hi <= Pow2(w.b.maxExp - MIN_EXP) && 0 < w.b.size
    requires MIN_EXP < w.b.maxExp
    ensures w.b.treeStart != 0 && Allowed(w, FreeOp(w.b.treeStart)) && Live(w.b, w.b.treeStart)
    ensures var v := Step(w, FreeOp(w.b.treeStart)).b;
            && v == w.b.(tree := v.tree, used := U64(w.b.used - 8)) && |v.tree| == |w.b.tree|
            && UsedNodes(v.tree) == UsedNodes(w.b.tree) - {Leaf(w.b.maxExp, 0)}
  {
    FirstLeafOwns(w.b, hi);
    HeldIsLive(w, w.b.treeStart);
    LeafPlace(w.b.maxExp, 0);
    hide HeapOf, Packed, U64, Inv, Free, Leaf, Start;
    var u := FreeReleases(w.b, w.b.treeStart);
    OwnerUnique(w.b, u, Leaf(w.b.maxExp, 0), w.b.treeStart);
    assert Pow2(MIN_EXP - 1) == 8;
  }

  lemma PackedShrinks(b: Manager, c: Manager, hi: nat)
    requires MIN_EXP <= b.maxExp == c.maxExp && Packed(b, 0, hi) && 0 < hi
    requires UsedNodes(c.tree) == UsedNodes(b.tree) - {Leaf(b.maxExp, 0)}
    ensures Packed(c, 1, hi)
  {
  }

  lemma RefillWraps(size: nat, used: nat)
    requires 8 <= size < TWO_64 && used == U64(size - 8)
    ensures U64(size - used) == 8 && U64(used + 16) == U64(size + 8)
    ensures U64(size - U64(used + 16)) >= 1
  {
    WrapPast(size, size + 8);
  }

  /** The last request of LeakFull, and the one that leaks. */
  lemma Refill(w: World, hi: nat)
    requires WorldInv(w) && Packed(w.b, 1, hi) && 0 < hi < Pow2(w.b.maxExp - MIN_EXP)
    requires 16 * hi == w.b.size && w.b.used == U64(16 * hi - 8)
    ensures LeakAfter(w, [AllocOp(8)], 1)
  {
    RefillWraps(w.b.size, w.b.used);
    hide U64, Fits, Leaks;
    TakeLeaf(w, 8, 1, hi, 0);
    var op := AllocOp(8);
    StepKeeps(w, op);
    var v := Step(w, op);
    PackedGrows(w.b, v.b, 1, hi, 0);
    hide Packed, Step, WorldInv;
    PastTheEnd(v, hi);
    LeakNext(w, op, [], 1);
    assert [op] + [] == [op];
  }

  lemma FullRoom(w: World, hi: nat)
    requires WorldInv(w) && 0 < w.b.size == 16 * hi && w.b.size + 16 <= Pow2(w.b.maxExp)
    ensures MIN_EXP < w.b.maxExp && 0 < hi < Pow2(w.b.maxExp - MIN_EXP)
  {
    LeafCount(w.b.maxExp);
    assert Pow2(MIN_EXP) == 16;
  }

  /** Freeing the first block of the full region leaves it as Refill wants it. */
  lemma FullFrees(w: World, hi: nat)
    requires WorldInv(w) && Packed(w.b, 0, hi) && w.b.used == 16 * hi == w.b.size && 0 < w.b.size
    requires w.b.size + 16 <= Pow2(w.b.maxExp)
    ensures CanDo(w, FreeOp(w.b.treeStart))
    ensures var v := Step(w, FreeOp(w.b.treeStart));
            && WorldInv(v) && Packed(v.b, 1, hi) && 0 < hi < Pow2(v.b.maxExp - MIN_EXP)
            && 16 * hi == v.b.size && v.b.used == U64(16 * hi - 8)
  {
    hide Packed, Step, Pow2, U64, Inv, Agrees, Covered, Live;
    FullRoom(w, hi);
    FreeFirst(w, hi);
  }

  /** The region is filled to the last byte: free one block, take 8 bytes, and the counter is past the end. */
  lemma LeakFull(w: World, hi: nat) returns (ops: seq<Op>)
    requires WorldInv(w) && Packed(w.b, 0, hi) && w.b.used == 16 * hi == w.b.size && 0 < w.b.size
    requires w.b.size + 16 <= Pow2(w.b.maxExp)
    ensures LeakAfter(w, ops, 1)
  {
    hide Packed, Step, Pow2, U64, Inv, Agrees, Covered, LeakAfter, Live;
    FullFrees(w, hi);
    ops := [FreeOp(w.b.treeStart)] + [AllocOp(8)];
    Refill(Step(w, FreeOp(w.b.treeStart)), hi);
    LeakNext(w, FreeOp(w.b.treeStart), [AllocOp(8)], 1);
  }

  lemma FreeFirst(w: World, hi: nat)
    requires WorldInv(w) && Packed(w.b, 0, hi) && 0 < hi <= Pow2(w.b.maxExp - MIN_EXP) && 0 < w.b.size
    requires MIN_EXP < w.b.maxExp
    ensures var op := FreeOp(w.b.treeStart);
            && CanDo(w, op) && WorldInv(Step(w, op))
            && Packed(Step(w, op).b, 1, hi)
            && Step(w, op).b == w.b.(tree := Step(w, op).b.tree, used := U64(w.b.used - 8))
  {
    FirstLeafHeld(w, hi);
    var op := FreeOp(w.b.treeStart);
    StepKeeps(w, op);
    hide U64, Live, WorldInv, Allowed, Step;
    PackedShrinks(w.b, Step(w, op).b, hi);
  }

  /** The next 16 bytes of a region that is filled up to 16 * hi. */
  lemma FillOne(w: World, hi: nat)
    requires WorldInv(w) && Packed(w.b, 0, hi) && w.b.used == 16 * hi && 16 * hi + 16 <= w.b.size
    requires w.b.size + 16 <= Pow2(w.b.maxExp)
    ensures var op := AllocOp(16);
            && CanDo(w, op) && WorldInv(Step(w, op)) && Packed(Step(w, op).b, 0, hi + 1)
            && Step(w, op).b == w.b.(tree := Step(w, op).b.tree, used := 16 * (hi + 1))
  {
    LeafCount(w.b.maxExp);
    RestWraps(w.b.size, 16 * hi);
    Unwrapped(w.b.size, 16 * hi + 16);
    hide Step, U64, Agrees, Covered, Inv, Pow2, Packed, Leaks;
    TakeLeaf(w, 16, 0, hi, hi);
    StepKeeps(w, AllocOp(16));
    PackedGrows(w.b, Step(w, AllocOp(16)).b, 0, hi, hi);
  }

  lemma Unwrapped(size: nat, a: nat)
    requires a <= size < TWO_64
    ensures U64(a) == a
  {
  }

  /** From a region filled up to 16 * hi: fill it, and then leak. */
  lemma {:induction false} FillAndLeak(w: World, hi: nat) returns (ops: seq<Op>)
    requires WorldInv(w) && Packed(w.b, 0, hi) && w.b.used == 16 * hi <= w.b.size && 0 < w.b.size
    requires w.b.size + 16 <= Pow2(w.b.maxExp)
    ensures LeakAfter(w, ops, 1)
    decreases w.b.size - 16 * hi
  {
    if 16 * hi == w.b.size {
      ops := LeakFull(w, hi);
    } else if w.b.size < 16 * hi + 16 {
      ops := LeakWithRest(w, hi);
    } else {
      var op := AllocOp(16);
      FillOne(w, hi);
      hide Step, Packed, WorldInv, LeakAfter, Allowed, Live, Pow2, U64;
      ops := FillAndLeak(Step(w, op), hi + 1);
      LeakNext(w, op, ops, 1);
      ops := [op] + ops;
    }
  }

  /** A manager of no bytes refuses every request. */
  lemma {:induction false} EmptyRefuses(w: World, ops: seq<Op>)
    requires WorldInv(w) && AllowedRun(w, ops) && w.b.size == 0 && w.b.used == 0 && w.live == map[]
    ensures Run(w, ops).b == w.b
    decreases |ops|
  {
    if ops != [] {
      StepKeeps(w, ops[0]);
      assert Step(w, ops[0]).b == w.b && Step(w, ops[0]).live == map[];
      hide Step, WorldInv, Allowed;
      EmptyRefuses(Step(w, ops[0]), ops[1..]);
    }
  }

  /**
   From the state of mm_create some run leads to a leaking call if and only if the region has room for at least one
   byte and the last 16-byte block of the tree starts past it.
   */
  lemma CanLeak(w: World)
    requires Fresh(w)
    ensures (exists ops, size :: LeakAfter(w, ops, size)) <==> 0 < w.b.size && w.b.size + 16 <= Pow2(w.b.maxExp)
  {
    FreshInv(w);
    if 0 < w.b.size && w.b.size + 16 <= Pow2(w.b.maxExp) {
      AllFreeInv(w.b.maxExp, w.b.tree);
      var ops := FillAndLeak(w, 0);
    } else {
      forall ops, size ensures !LeakAfter(w, ops, size) {
        if LeakAfter(w, ops, size) {
          CannotLeak(w, ops, size);
        }
      }
    }
  }

  lemma CannotLeak(w: World, ops: seq<Op>, size: nat)
    requires Fresh(w) && WorldInv(w) && AllowedRun(w, ops) && Fits(Run(w, ops).b, size)
    requires w.b.size == 0 || w.b.size + 16 > Pow2(w.b.maxExp)
    ensures !LeakAfter(w, ops, size)
  {
    RunKeeps(w, ops);
    RunKeepsPlace(w, ops);
    if w.b.size == 0 {
      EmptyRefuses(w, ops);
    } else {
      RoomyNeverLeaks(Run(w, ops).b, size);
    }
  }

  /** The heap that the kernel creates, of 2^28 bytes with its header and node array, can leak. */
  lemma KernelHeapLeaks(w: World)
    requires Fresh(w) && w.b.maxExp == 28 && w.b.size == 0x1000_0000 - 0x200_0000 - 47
    ensures exists ops, size :: LeakAfter(w, ops, size)
  {
    MaxRequestPower();
    assert Pow2(11) == 2048;
    Pow2Add(17, 11);
    CanLeak(w);
  }
}
