/** Whole runs of the buddy allocator: what any sequence of mm_alloc and mm_free calls guarantees. */
module BuddyRuns {
  import opened Words
  import opened BuddyTree
  import opened BuddyGeometry
  import opened BuddySpec
  import AbstractHeap

  /**
   An allocator together with what its callers know: `live` maps the offset of every block they hold
   to the size they asked for. `total` is what the `used` counter would be without 64-bit wrap-around.
   */
  datatype World = World(b: Manager, live: map<nat, nat>, total: int, allocs: nat)

  datatype Op = AllocOp(size: nat) | FreeOp(address: nat)

  /** Callers free only NULL and addresses they hold. */
  ghost predicate Allowed(w: World, op: Op) {
    match op
    case AllocOp(size) => Fits(w.b, size)
    case FreeOp(p) => p == 0 || (w.b.treeStart <= p && p - w.b.treeStart in w.live)
  }

  ghost predicate WorldInv(w: World) {
    Valid(w.b) && Agrees(w) && Covered(w)
  }

  /** Callers and allocator agree on which blocks are held, and every block fits its request as tightly as it can. */
  ghost predicate Agrees(w: World) {
    && w.live.Keys == HeapOf(w.b).Keys
    && forall x :: x in w.live ==> HeapOf(w.b)[x] == Pow2(FitExp(w.live[x], MIN_EXP))
  }

  /** The counter is never below the bytes in use. */
  ghost predicate Covered(w: World) {
    && w.b.used == U64(w.total)
    && UsedBytes(w.b.maxExp, w.b.tree, |w.b.tree|) <= w.total <= w.allocs * MAX_REQUEST
  }

  /** Bytes in the blocks of the USED nodes among the first k. */
  function UsedBytes(m: nat, t: Tree, k: nat): (r: nat)
    requires k <= |t|
  {
    if k == 0 then 0
    else UsedBytes(m, t, k - 1) + if t[k - 1] == USED && Level(k - 1) <= m then Size(m, k - 1) else 0
  }

  lemma {:induction false} UsedBytesAdd(m: nat, t: Tree, t': Tree, k: nat, n: nat)
    requires k <= |t| == |t'| && n < |t| && Level(n) <= m
    requires n !in UsedNodes(t) && UsedNodes(t') == UsedNodes(t) + {n}
    ensures UsedBytes(m, t', k) == UsedBytes(m, t, k) + if n < k then Size(m, n) else 0
  {
    if k > 0 {
      UsedBytesAdd(m, t, t', k - 1, n);
      assert k - 1 in UsedNodes(t') <==> k - 1 in UsedNodes(t) || k - 1 == n;
    }
  }

  ghost function Step(w: World, op: Op): World
    requires Shape(w.b.maxExp, w.b.tree)
    requires op.AllocOp? ==> Fits(w.b, op.size)
    requires op.FreeOp? && op.address != 0 ==> Live(w.b, op.address)
  {
    match op
    case AllocOp(size) =>
      var (b', p) := Alloc(w.b, size);
      World(b',
            if p == 0 || p < w.b.treeStart then w.live else w.live[p - w.b.treeStart := size],
            if b' == w.b then w.total else w.total + Pow2(FitExp(size, MIN_EXP)),
            w.allocs + 1)
    case FreeOp(p) =>
      if p == 0 then w
      else
        var u := OwnerOf(w.b, p);
        LevelInTree(w.b.maxExp, w.b.tree, u);
        World(Free(w.b, p), if p < w.b.treeStart then w.live else w.live - {p - w.b.treeStart},
              w.total - Refund(w.b, u), w.allocs)
  }

  lemma HeldIsLive(w: World, p: nat)
    requires WorldInv(w) && Allowed(w, FreeOp(p)) && p != 0
    ensures Live(w.b, p)
  {
    assert p - w.b.treeStart in HeapOf(w.b);
    hide HeapOf;
    HeapLive(w.b, p - w.b.treeStart);
  }

  lemma FitsRequest(size: nat)
    requires size <= MAX_REQUEST
    ensures Pow2(FitExp(size, MIN_EXP)) <= MAX_REQUEST
  {
    MaxRequestPower();
    FitExpBelow(size, MIN_EXP, 17);
    Pow2Monotone(FitExp(size, MIN_EXP), 17);
  }

  lemma WrapAdd(total: int, a: int)
    ensures U64(U64(total) + a) == U64(total + a)
  {
  }

  lemma AllocAgrees(w: World, size: nat)
    requires WorldInv(w) && Fits(w.b, size)
    ensures Valid(Step(w, AllocOp(size)).b) && Agrees(Step(w, AllocOp(size)))
  {
    hide Alloc, Valid, HeapOf, FitExp, Pow2, Fits;
    AllocHeap(w.b, size);
  }

  lemma AllocCovered(w: World, size: nat)
    requires WorldInv(w) && Fits(w.b, size)
    ensures Covered(Step(w, AllocOp(size)))
  {
    if !Refused(w.b, size) && Search(w.b, size) != -1 {
      var n := AllocTakes(w.b, size);
      hide U64, Inv, Shape, Start, Alloc;
      var b' := Alloc(w.b, size).0;
      assert n in UsedNodes(b'.tree);
      UsedBytesAdd(w.b.maxExp, w.b.tree, b'.tree, |b'.tree|, n);
      FitsRequest(size);
      WrapAdd(w.total, Size(w.b.maxExp, n));
    }
  }

  lemma FreeAgrees(w: World, p: nat)
    requires WorldInv(w) && Allowed(w, FreeOp(p)) && p != 0 && Live(w.b, p)
    ensures Valid(Step(w, FreeOp(p)).b) && Agrees(Step(w, FreeOp(p)))
  {
    hide Free, Valid, HeapOf, Live, Refund, FitExp, Pow2;
    FreeRefines(w.b, p);
  }

  lemma FreeCovered(w: World, p: nat)
    requires WorldInv(w) && p != 0 && Live(w.b, p)
    ensures Covered(Step(w, FreeOp(p)))
  {
    var u := FreeReleases(w.b, p);
    var b' := Free(w.b, p);
    assert u in UsedNodes(w.b.tree) && u !in UsedNodes(b'.tree);
    assert UsedNodes(w.b.tree) == UsedNodes(b'.tree) + {u};
    var refund: int := Refund(w.b, u);
    assert refund <= Size(w.b.maxExp, u);
    hide Free, U64, Valid, Live, Refund, Size, Level, Owns, UsedNodes;
    UsedBytesAdd(w.b.maxExp, b'.tree, w.b.tree, |b'.tree|, u);
    WrapAdd(w.total, -refund);
  }

  lemma StepKeeps(w: World, op: Op)
    requires WorldInv(w) && Allowed(w, op)
    ensures op.FreeOp? && op.address != 0 ==> Live(w.b, op.address)
    ensures WorldInv(Step(w, op))
  {
    match op
    case AllocOp(size) =>
      AllocAgrees(w, size);
      AllocCovered(w, size);
    case FreeOp(p) =>
      if p != 0 {
        HeldIsLive(w, p);
        FreeAgrees(w, p);
        FreeCovered(w, p);
      }
  }

  // ---------------------------------------------------------------- whole runs

  function AllFree(n: nat): (t: Tree)
    ensures |t| == n && forall i :: 0 <= i < n ==> t[i] == FREE
  {
    seq(n, _ => FREE)
  }

  /** The state mm_create leaves behind. */
  ghost predicate Fresh(w: World) {
    && Shape(w.b.maxExp, w.b.tree) && 0 < w.b.treeStart && w.b.size < TWO_64
    && w.b.tree == AllFree(|w.b.tree|) && w.b.used == 0
    && w.live == map[] && w.total == 0 && w.allocs == 0
  }

  lemma {:induction false} NothingUsed(m: nat, t: Tree, k: nat)
    requires k <= |t| && UsedNodes(t) == {}
    ensures UsedBytes(m, t, k) == 0
  {
    if k > 0 {
      NothingUsed(m, t, k - 1);
      assert k - 1 !in UsedNodes(t);
    }
  }

  lemma AllFreeInv(m: nat, t: Tree)
    requires Shape(m, t) && t == AllFree(|t|)
    ensures Inv(t) && UsedNodes(t) == {}
  {
    ShapeOdd(m, t);
  }

  lemma FreshInv(w: World)
    requires Fresh(w)
    ensures WorldInv(w)
  {
    AllFreeInv(w.b.maxExp, w.b.tree);
    NothingUsed(w.b.maxExp, w.b.tree, |w.b.tree|);
    forall x | x in HeapOf(w.b) ensures false {
      var u := HeapOwner(w.b, x);
    }
  }

  ghost predicate AllowedRun(w: World, ops: seq<Op>)
    requires WorldInv(w)
    decreases |ops|
  {
    ops == [] || (Allowed(w, ops[0]) && (StepKeeps(w, ops[0]); AllowedRun(Step(w, ops[0]), ops[1..])))
  }

  ghost function Run(w: World, ops: seq<Op>): World
    requires WorldInv(w) && AllowedRun(w, ops)
    decreases |ops|
  {
    if ops == [] then w
    else
      StepKeeps(w, ops[0]);
      Run(Step(w, ops[0]), ops[1..])
  }

  lemma {:induction false} RunKeeps(w: World, ops: seq<Op>)
    requires WorldInv(w) && AllowedRun(w, ops)
    ensures WorldInv(Run(w, ops))
    decreases |ops|
  {
    if ops != [] {
      StepKeeps(w, ops[0]);
      RunKeeps(Step(w, ops[0]), ops[1..]);
    }
  }

  ghost predicate Guarantees(w: World) {
    var h := HeapOf(w.b);
    && Inv(w.b.tree)
    && h.Keys == w.live.Keys
    && AbstractHeap.Disjoint(h)
    && (forall x :: x in h ==> w.live[x] <= h[x] && Aligned(x, h[x]))
    && (w.allocs < 0x8000_0000_0000 ==> UsedBytes(w.b.maxExp, w.b.tree, |w.b.tree|) <= w.b.used)
  }

  ghost predicate Aligned(x: nat, size: nat) {
    size > 0 && x % size == 0
  }

  lemma HeapAligned(w: World, x: nat)
    requires WorldInv(w) && x in HeapOf(w.b)
    ensures w.live[x] <= HeapOf(w.b)[x] && Aligned(x, HeapOf(w.b)[x])
  {
    var u := HeapOwner(w.b, x);
    NodeAtStart(w.b.maxExp, u);
  }

  /** Blocks are aligned relative to treeStart; the address of one is a multiple of 16 exactly if treeStart is. */
  lemma AddressAlignment(w: World, x: nat)
    requires WorldInv(w) && x in HeapOf(w.b)
    ensures (w.b.treeStart + x) % 16 == 0 <==> w.b.treeStart % 16 == 0
  {
    var u := HeapOwner(w.b, x);
    NodeAtStart(w.b.maxExp, u);
    LevelInTree(w.b.maxExp, w.b.tree, u);
    DividesLess(Exp(w.b.maxExp, u), MIN_EXP, x);
    assert Pow2(MIN_EXP) == 16;
    SumOfMultiple(w.b.treeStart, x);
  }

  lemma SumOfMultiple(a: nat, x: nat)
    requires x % 16 == 0
    ensures (a + x) % 16 == a % 16
  {
  }

  lemma WorldGuarantees(w: World)
    requires WorldInv(w)
    ensures Guarantees(w)
  {
    HeapDisjoint(w.b);
    hide HeapOf, Aligned, Shape, Inv, FitExp;
    forall x | x in HeapOf(w.b)
      ensures w.live[x] <= HeapOf(w.b)[x] && Aligned(x, HeapOf(w.b)[x])
    {
      HeapAligned(w, x);
    }
  }

  /**
   In every run from the state mm_create leaves behind (FreshInv), the blocks that callers hold are
   pairwise disjoint, aligned to their size and at least as large as requested, and `used` covers
   all bytes in use as long as the run has fewer than 2^47 allocations (only then could a 64-bit
   counter wrap).
   */
  lemma EveryRun(w: World, ops: seq<Op>)
    requires WorldInv(w) && AllowedRun(w, ops)
    ensures Guarantees(Run(w, ops))
  {
    RunKeeps(w, ops);
    WorldGuarantees(Run(w, ops));
  }

  // ---------------------------------------------------------------- the counter drifts

  /** One mm_alloc followed by the mm_free of what it returned. */
  ghost function Pair(b: Manager, size: nat): Manager
    requires Shape(b.maxExp, b.tree) && Fits(b, size)
  {
    var (b', p) := Alloc(b, size);
    if Live(b', p) then Free(b', p) else b'
  }

  ghost function Pairs(b: Manager, size: nat, k: nat): Manager
    requires Shape(b.maxExp, b.tree) && Fits(b, size)
    decreases k
  {
    if k == 0 then b else Pairs(Pair(b, size), size, k - 1)
  }

  /** On an empty tree the search ends at the leftmost node of its level. */
  lemma SearchEmpty(b: Manager, size: nat)
    requires Valid(b) && b.tree == AllFree(|b.tree|) && 0 < size <= MAX_REQUEST && Fits(b, size)
    ensures Search(b, size) != -1 && Level(Search(b, size)) == b.maxExp - FitExp(size, MIN_EXP)
    ensures Start(b.maxExp, Search(b, size)) == 0
  {
    FitLevel(b, size);
    SearchFirst(b, size);
    var l := b.maxExp - FitExp(size, MIN_EXP);
    EmptyClear(b.tree, l);
    LeftmostStart(b.maxExp, l, Search(b, size));
  }

  lemma EmptyClear(t: Tree, l: nat)
    requires t == AllFree(|t|) && Pow2(l) <= |t|
    ensures Clear(t, Pow2(l) - 1) && Level(Pow2(l) - 1) == l
  {
    LevelUnique(Pow2(l) - 1, l);
    NoUsedAboveIff(t, Pow2(l) - 1);
  }

  lemma LeftmostStart(m: nat, l: nat, n: nat)
    requires Level(n) == l <= m && n < Pow2(l)
    ensures Start(m, n) == 0
  {
    LevelBounds(n);
    SlotFormula(n);
    StartFormula(m, n);
  }

  /** What the first guard of mm_alloc compares a request with: the bytes that the counter leaves, in 64-bit arithmetic. */
  function Gap(b: Manager): nat {
    U64(b.size - b.used)
  }

  /** What one allocation and its free take off the gap: half of the block. */
  function Drift(size: nat): nat
    requires size > 0
  {
    Pow2(FitExp(size, MIN_EXP) - 1)
  }

  /**
   Because mm_free gives back only half of a block that is not the whole tree, a caller that only
   ever allocates and frees one block at a time ends up refused on a completely free heap.
   */
  lemma {:induction false} DriftStarves(b: Manager, size: nat) returns (k: nat)
    requires Valid(b) && b.tree == AllFree(|b.tree|) && b.size > 0
    requires 0 < size <= MAX_REQUEST && Fits(b, size) && FitExp(size, MIN_EXP) < b.maxExp
    requires Gap(b) % Drift(size) < size
    ensures var b' := Pairs(b, size, k);
            Valid(b') && b'.tree == b.tree && Fits(b', size) && Alloc(b', size) == (b', 0) && Refused(b', size)
    decreases Gap(b)
  {
    if Refused(b, size) {
      k := 0;
    } else {
      PairDrifts(b, size);
      GapShrinks(b, size);
      hide *;
      k := DriftStarves(Pair(b, size), size);
      k := k + 1;
      PairsStep(b, size, k);
    }
  }

  /** The other way round: from a gap with a large enough remainder no number of pairs leads to a refusal. */
  lemma {:induction false} NeverStarves(b: Manager, size: nat, k: nat)
    requires Valid(b) && b.tree == AllFree(|b.tree|) && b.size > 0
    requires 0 < size <= MAX_REQUEST && Fits(b, size) && FitExp(size, MIN_EXP) < b.maxExp
    requires Gap(b) % Drift(size) >= size
    ensures !Refused(Pairs(b, size, k), size)
    decreases k
  {
    ModAtMost(Gap(b), Drift(size));
    if k > 0 {
      PairDrifts(b, size);
      GapKeepsRemainder(b, size);
      hide *;
      NeverStarves(Pair(b, size), size, k - 1);
      PairsStep(b, size, k);
    }
  }

  /** On a free heap some number of allocate-and-free pairs ends in a refusal exactly if the gap's remainder is too small. */
  lemma StarvesIff(b: Manager, size: nat)
    requires Valid(b) && b.tree == AllFree(|b.tree|) && b.size > 0
    requires 0 < size <= MAX_REQUEST && Fits(b, size) && FitExp(size, MIN_EXP) < b.maxExp
    ensures (exists k :: Refused(Pairs(b, size, k), size)) <==> Gap(b) % Drift(size) < size
    ensures 8 < size ==> Gap(b) % Drift(size) < size
  {
    assert Pow2(3) == 8;
    if Gap(b) % Drift(size) < size {
      var k := DriftStarves(b, size);
      assert Refused(Pairs(b, size, k), size);
    } else {
      forall k: nat ensures !Refused(Pairs(b, size, k), size) {
        NeverStarves(b, size, k);
      }
    }
  }

  lemma ModAtMost(x: nat, d: nat)
    requires d > 0
    ensures x % d <= x && (x < d ==> x % d == x)
  {
  }

  lemma {:induction false} DriftDivides(j: nat)
    requires j <= 64
    ensures Pow2(64 - j) * Pow2(j) == TWO_64
  {
    Pow2Add(64 - j, j);
    Power64();
  }

  lemma Power64()
    ensures Pow2(64) == TWO_64
  {
    MaxRequestPower();
    assert Pow2(16) == 65536;
    Pow2Add(16, 16);
    hide Pow2;
    Pow2Add(32, 32);
  }

  /** Taking d off, in 64-bit arithmetic, keeps the remainder by d when d divides 2^64. */
  lemma WrapKeepsRemainder(g: nat, d: nat, q: nat)
    requires 0 < d <= TWO_64 && q * d == TWO_64 && g < TWO_64
    ensures U64(g - d) % d == g % d
    ensures g >= d ==> U64(g - d) == g - d
  {
    var t, r := g / d, g % d;
    assert g == t * d + r;
    if g >= d {
      assert g - d == (t - 1) * d + r;
      QuotientUnique(g - d, d, t - 1, r);
    } else {
      QuotientUnique(g, d, 0, g);
      assert g - d + TWO_64 == (q - 1) * d + g;
      QuotientUnique(g - d + TWO_64, d, q - 1, g);
    }
  }

  lemma GapAfterPair(b: Manager, size: nat)
    requires Pair.requires(b, size) && size > 0 && Pair(b, size) == b.(used := U64(b.used + Drift(size)))
    ensures Gap(Pair(b, size)) == U64(Gap(b) - Drift(size))
  {
    hide Pair, Drift, FitExp, Pow2, U64;
    WrapTwice(b.size, b.used, Drift(size));
  }

  lemma WrapTwice(s: int, u: int, d: int)
    ensures U64(s - U64(u + d)) == U64(U64(s - u) - d)
  {
  }

  lemma DriftSmall(size: nat)
    requires 0 < size <= MAX_REQUEST
    ensures FitExp(size, MIN_EXP) <= 17
  {
    MaxRequestPower();
    FitExpBelow(size, MIN_EXP, 17);
  }

  lemma GapKeepsRemainder(b: Manager, size: nat)
    requires Pair.requires(b, size) && 0 < size <= MAX_REQUEST && Pair(b, size) == b.(used := U64(b.used + Drift(size)))
    ensures Gap(Pair(b, size)) % Drift(size) == Gap(b) % Drift(size)
    ensures Gap(b) >= Drift(size) ==> Gap(Pair(b, size)) == Gap(b) - Drift(size)
  {
    DriftSmall(size);
    var j := FitExp(size, MIN_EXP) - 1;
    DriftDivides(j);
    Pow2Monotone(j, 64);
    DriftDivides(0);
    GapAfterPair(b, size);
    hide Pair, Gap, U64, Pow2;
    WrapKeepsRemainder(Gap(b), Drift(size), Pow2(64 - j));
  }

  lemma GapShrinks(b: Manager, size: nat)
    requires Pair.requires(b, size) && 0 < size <= MAX_REQUEST && Pair(b, size) == b.(used := U64(b.used + Drift(size)))
    requires Gap(b) % Drift(size) < size <= Gap(b)
    ensures Gap(Pair(b, size)) % Drift(size) < size && Gap(Pair(b, size)) < Gap(b)
  {
    ModAtMost(Gap(b), Drift(size));
    GapKeepsRemainder(b, size);
    hide Pair, Gap, Drift;
  }

  lemma PairsStep(b: Manager, size: nat, k: nat)
    requires Shape(b.maxExp, b.tree) && Fits(b, size) && k > 0
    requires Shape(Pair(b, size).maxExp, Pair(b, size).tree) && Fits(Pair(b, size), size)
    ensures Pairs(b, size, k) == Pairs(Pair(b, size), size, k - 1)
  {
  }

  lemma PairDrifts(b: Manager, size: nat)
    requires Valid(b) && b.tree == AllFree(|b.tree|) && Fits(b, size) && !Refused(b, size)
    requires 0 < b.size && FitExp(size, MIN_EXP) < b.maxExp
    ensures Pair(b, size) == b.(used := U64(b.used + Drift(size)))
    ensures Valid(Pair(b, size)) && Fits(Pair(b, size), size)
  {
    hide Pair, Alloc, Free, Live, Start, Inv, Search;
    PairIsFree(b, size);
  }

  lemma PairIsFree(b: Manager, size: nat)
    requires Valid(b) && b.tree == AllFree(|b.tree|) && Fits(b, size) && !Refused(b, size)
    requires 0 < b.size && FitExp(size, MIN_EXP) < b.maxExp
    ensures Pair(b, size) == b.(used := U64(b.used + Pow2(FitExp(size, MIN_EXP) - 1)))
  {
    SearchEmpty(b, size);
    var n := AllocTakes(b, size);
    hide Alloc, Free, Live, Start, Inv, Search, U64, FitExp, Shape;
    AllocThenFree(b, size);
    assert n != 0;
  }
}
