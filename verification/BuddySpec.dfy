/** The buddy allocator's operations on values, and what every run of them guarantees. */
module BuddySpec {
  import opened Words
  import opened BuddyTree
  import opened BuddyGeometry
  import AbstractHeap

  datatype Manager = Manager(tree: Tree, treeStart: nat, size: nat, used: nat, maxExp: nat)

  const MAX_REQUEST: nat := 0x2_0000

  ghost predicate Valid(b: Manager) {
    Shape(b.maxExp, b.tree) && Inv(b.tree) && 0 < b.treeStart && b.size < TWO_64 && b.used < TWO_64
  }

  /** The least exponent from e on whose power holds size bytes. */
  function FitExp(size: nat, e: nat): (r: nat)
    ensures e <= r && size <= Pow2(r)
    ensures e < r ==> Pow2(r - 1) < size
    decreases size - Pow2(e)
  {
    if size <= Pow2(e) then e else FitExp(size, e + 1)
  }

  lemma {:induction false} FitExpBelow(size: nat, e: nat, m: nat)
    requires e <= m && size <= Pow2(m)
    ensures FitExp(size, e) <= m
    decreases m - e
  {
    if e < m && Pow2(e) < size {
      FitExpBelow(size, e + 1, m);
    }
  }

  /** A request the allocator can turn into a level of its tree; with maxExp >= 17 that is every request. */
  predicate Fits(b: Manager, size: nat) {
    size <= MAX_REQUEST ==> size <= Pow2(b.maxExp)
  }

  lemma MaxRequestPower()
    ensures Pow2(17) == MAX_REQUEST
  {
    assert Pow2(4) == 16;
    assert Pow2(8) == 256;
    assert Pow2(12) == 4096;
    assert Pow2(16) == 65536;
  }

  lemma LargeTreeFitsAll(b: Manager, size: nat)
    requires 17 <= b.maxExp
    ensures Fits(b, size)
  {
    MaxRequestPower();
    Pow2Monotone(17, b.maxExp);
  }

  /** The guard that mm_alloc tests first, with its unsigned subtraction. */
  predicate Refused(b: Manager, size: nat) {
    size > U64(b.size - b.used) || size == 0 || size > MAX_REQUEST
  }

  lemma FitLevel(b: Manager, size: nat)
    requires Shape(b.maxExp, b.tree) && size <= MAX_REQUEST && Fits(b, size)
    ensures MIN_EXP <= FitExp(size, MIN_EXP) <= b.maxExp
    ensures 2 * Pow2(b.maxExp - FitExp(size, MIN_EXP)) - 1 <= |b.tree|
  {
    Pow2Monotone(MIN_EXP, b.maxExp);
    FitExpBelow(size, MIN_EXP, b.maxExp);
    Pow2Monotone(b.maxExp - FitExp(size, MIN_EXP) + 1, b.maxExp - MIN_EXP + 1);
  }

  function Search(b: Manager, size: nat): (r: int)
    requires Shape(b.maxExp, b.tree) && size <= MAX_REQUEST && Fits(b, size)
    ensures -1 <= r < |b.tree|
  {
    FitLevel(b, size);
    FindFree(b.tree, 0, 0, b.maxExp - FitExp(size, MIN_EXP))
  }

  /** mm_alloc: the new state and the returned address, 0 for NULL. */
  function Alloc(b: Manager, size: nat): (r: (Manager, nat))
    requires Shape(b.maxExp, b.tree) && Fits(b, size)
  {
    if Refused(b, size) then (b, 0)
    else
      var n := Search(b, size);
      if n == -1 then (b, 0)
      else
        LevelInTree(b.maxExp, b.tree, n);
        var b' := b.(tree := Take(b.tree, n), used := U64(b.used + Pow2(FitExp(size, MIN_EXP))));
        if Start(b.maxExp, n) >= b.size then (b', 0) else (b', b.treeStart + Start(b.maxExp, n))
  }

  /** u is the USED node whose block starts at this address. */
  predicate Owns(b: Manager, u: nat, address: nat) {
    && u < |b.tree| && b.tree[u] == USED && Level(u) <= b.maxExp
    && address == b.treeStart + Start(b.maxExp, u)
  }

  /** What callers may pass to mm_free: an address that mm_alloc can have returned and that is still allocated. */
  ghost predicate Live(b: Manager, address: nat) {
    address < b.treeStart + b.size && exists u: nat :: Owns(b, u, address)
  }

  ghost function OwnerOf(b: Manager, address: nat): (u: nat)
    requires Live(b, address)
    ensures Owns(b, u, address)
  {
    var u: nat :| Owns(b, u, address);
    u
  }

  /** How much mm_free takes off `used`: the whole block only for the root, otherwise half of it. */
  function Refund(b: Manager, u: nat): nat
    requires Level(u) < b.maxExp
  {
    if u == 0 then Pow2(b.maxExp) else Pow2(Exp(b.maxExp, u) - 1)
  }

  ghost function Free(b: Manager, address: nat): Manager
    requires Shape(b.maxExp, b.tree) && (address != 0 ==> Live(b, address))
  {
    if address == 0 then b
    else
      var u := OwnerOf(b, address);
      LevelInTree(b.maxExp, b.tree, u);
      b.(tree := Release(b.tree, u), used := U64(b.used - Refund(b, u)))
  }

  // ---------------------------------------------------------------- single operations

  /** At most one USED node starts at an address, so a live address determines its block. */
  lemma OwnerUnique(b: Manager, u: nat, v: nat, address: nat)
    requires Valid(b) && Owns(b, u, address) && Owns(b, v, address)
    ensures u == v
  {
    if u != v {
      UsedApart(b.maxExp, b.tree, u, v);
    }
  }

  lemma SearchFirst(b: Manager, size: nat)
    requires Valid(b) && 0 < size <= MAX_REQUEST && Fits(b, size)
    ensures var n, e := Search(b, size), FitExp(size, MIN_EXP);
            && (n != -1 ==> Clear(b.tree, n) && Level(n) == b.maxExp - e)
            && forall k: nat :: k < |b.tree| && Level(k) == b.maxExp - e && (n == -1 || k < n) ==> !Clear(b.tree, k)
  {
    FitLevel(b, size);
    var d := b.maxExp - FitExp(size, MIN_EXP);
    NodeInRange(0, d);
    FindFreeFirst(b.tree, 0, 0, d);
    forall k: nat
      ensures Level(k) == d <==> InRange(0, d, k)
    {
      LevelBounds(k);
      if InRange(0, d, k) {
        LevelUnique(k, d);
      }
    }
  }

  /** Allocation takes a node whose block fits the request and keeps the tree canonical. */
  lemma AllocTakes(b: Manager, size: nat) returns (n: nat)
    requires Valid(b) && Fits(b, size) && !Refused(b, size) && Search(b, size) != -1
    ensures n < |b.tree| && n == Search(b, size) && Level(n) + 4 <= b.maxExp && n !in UsedNodes(b.tree)
    ensures size <= Size(b.maxExp, n) && Exp(b.maxExp, n) == FitExp(size, MIN_EXP)
    ensures var (b', p) := Alloc(b, size);
            && Valid(b') && b'.maxExp == b.maxExp && |b'.tree| == |b.tree|
            && b'.tree == Take(b.tree, n) && UsedNodes(b'.tree) == UsedNodes(b.tree) + {n}
            && b' == b.(tree := b'.tree, used := U64(b.used + Size(b.maxExp, n)))
            && p == if Start(b.maxExp, n) >= b.size then 0 else b.treeStart + Start(b.maxExp, n)
  {
    hide U64, Inv, Take, Start;
    n := Search(b, size);
    SearchFirst(b, size);
    FitLevel(b, size);
    LevelInTree(b.maxExp, b.tree, n);
    TakeInv(b.tree, n);
  }

  /** A block of the size that a request is rounded up to, overlapping no block in use. */
  ghost predicate Candidate(b: Manager, size: nat, n: nat)
    requires Shape(b.maxExp, b.tree)
  {
    && n < |b.tree| && Level(n) <= b.maxExp && Level(n) == b.maxExp - FitExp(size, 4)
    && Available(b.maxExp, b.tree, n)
  }

  /** Node n is the candidate with the lowest address. */
  ghost predicate Lowest(b: Manager, size: nat, n: nat)
    requires Shape(b.maxExp, b.tree)
  {
    Candidate(b, size, n)
    && forall k: nat :: Candidate(b, size, k) ==> Start(b.maxExp, n) <= Start(b.maxExp, k)
  }

  /** What the search finds, in terms of blocks. */
  lemma SearchLowest(b: Manager, size: nat)
    requires Valid(b) && 0 < size <= MAX_REQUEST && Fits(b, size)
    ensures var n := Search(b, size);
            if n == -1 then forall k: nat :: !Candidate(b, size, k) else Lowest(b, size, n)
  {
    var n := Search(b, size);
    SearchFirst(b, size);
    FitLevel(b, size);
    if n != -1 {
      ClearIsAvailable(b.maxExp, b.tree, n);
    }
    forall k: nat | Candidate(b, size, k)
      ensures n != -1 && Start(b.maxExp, n) <= Start(b.maxExp, k)
    {
      ClearIsAvailable(b.maxExp, b.tree, k);
      StartOrder(b.maxExp, n, k);
    }
  }

  /** Of two lowest candidates there is only one. */
  lemma OneLowest(b: Manager, size: nat, n: nat, k: nat)
    requires Shape(b.maxExp, b.tree) && Lowest(b, size, n) && Lowest(b, size, k)
    ensures n == k
  {
    StartFormula(b.maxExp, n);
    StartFormula(b.maxExp, k);
    SlotFormula(n);
    SlotFormula(k);
    if Slot(n) != Slot(k) {
      OtherProduct(Slot(n), Slot(k), Size(b.maxExp, n));
    }
  }

  lemma OtherProduct(a: int, c: int, q: int)
    requires a != c && q >= 1
    ensures a * q != c * q
  {
    if a < c {
      assert (c - a) * q > 0;
    } else {
      assert (a - c) * q > 0;
    }
  }

  /** What mm_alloc admits: 1 to 2^17 bytes, not more than the counter leaves in unsigned arithmetic. */
  predicate Admitted(b: Manager, size: nat) {
    0 < size <= 0x2_0000 && size <= (b.size - b.used) % 0x1_0000_0000_0000_0000
  }

  /**
   First fit, exactly: an admitted request takes the lowest candidate, and is answered with its address if it starts
   within the region; NULL means that the request is not admitted or that no candidate starts within the region.
   */
  lemma AllocLowest(b: Manager, size: nat)
    requires Valid(b) && (size <= 0x2_0000 ==> size <= Pow2(b.maxExp))
    ensures Fits(b, size)
    ensures var (b', p) := Alloc(b, size);
            && (!Admitted(b, size) || (forall k: nat :: !Candidate(b, size, k)) ==> b' == b && p == 0)
            && (p != 0 <==> Admitted(b, size) && exists n: nat :: Candidate(b, size, n) && Start(b.maxExp, n) < b.size)
            && forall n: nat :: Admitted(b, size) && Lowest(b, size, n) ==>
                 && p == (if Start(b.maxExp, n) < b.size then b.treeStart + Start(b.maxExp, n) else 0)
                 && UsedNodes(b'.tree) == UsedNodes(b.tree) + {n}
                 && b'.used == (b.used + Pow2(FitExp(size, 4))) % 0x1_0000_0000_0000_0000
                 && b' == b.(tree := b'.tree, used := b'.used)
  {
    assert Fits(b, size);
    if !Admitted(b, size) {
      AllocRefuses(b, size);
    }
    hide Alloc, Admitted, Inv, Start, Candidate, Lowest;
    if Admitted(b, size) {
      var n := AllocAdmitted(b, size);
      if n != -1 {
        LowestIsCandidate(b, size, n);
        forall k: nat | Lowest(b, size, k) ensures k == n {
          OneLowest(b, size, n, k);
        }
      } else {
        forall k: nat | Lowest(b, size, k) ensures Candidate(b, size, k) {
          LowestIsCandidate(b, size, k);
        }
      }
    }
  }

  lemma AllocRefuses(b: Manager, size: nat)
    requires Valid(b) && Fits(b, size) && !Admitted(b, size)
    ensures Alloc(b, size) == (b, 0)
  {
    assert Refused(b, size);
  }

  /** What becomes of an admitted request: nothing if there is no candidate, or else it takes the lowest one. */
  lemma AllocAdmitted(b: Manager, size: nat) returns (n: int)
    requires Valid(b) && Fits(b, size) && Admitted(b, size)
    ensures n == -1 || n >= 0
    ensures n == -1 ==> Alloc(b, size) == (b, 0) && forall k: nat :: !Candidate(b, size, k)
    ensures n != -1 ==>
              && Lowest(b, size, n) && Level(n) <= b.maxExp
              && var (b', p) := Alloc(b, size);
                 && p == (if Start(b.maxExp, n) < b.size then b.treeStart + Start(b.maxExp, n) else 0)
                 && UsedNodes(b'.tree) == UsedNodes(b.tree) + {n}
                 && b'.used == (b.used + Pow2(FitExp(size, 4))) % 0x1_0000_0000_0000_0000
                 && b' == b.(tree := b'.tree, used := b'.used)
  {
    AdmittedSize(b, size);
    assert !Refused(b, size);
    AllocFindsNone(b, size);
    hide Refused, Admitted, Inv, Start, Candidate, Lowest, Search, Alloc;
    SearchLowest(b, size);
    n := Search(b, size);
    if n != -1 {
      LowestIsCandidate(b, size, n);
      var k := AllocTakes(b, size);
    }
  }

  lemma AllocFindsNone(b: Manager, size: nat)
    requires Valid(b) && Fits(b, size) && !Refused(b, size)
    ensures Search(b, size) == -1 ==> Alloc(b, size) == (b, 0)
  {
    hide Search, Take, Start;
  }

  lemma AdmittedSize(b: Manager, size: nat)
    requires Admitted(b, size)
    ensures 0 < size <= MAX_REQUEST
  {
  }

  lemma LowestIsCandidate(b: Manager, size: nat, n: nat)
    requires Shape(b.maxExp, b.tree) && Lowest(b, size, n)
    ensures Candidate(b, size, n) && Level(n) <= b.maxExp
    ensures forall k: nat :: Candidate(b, size, k) ==> Level(k) <= b.maxExp && Start(b.maxExp, n) <= Start(b.maxExp, k)
  {
  }

  lemma FreeReleases(b: Manager, address: nat) returns (u: nat)
    requires Valid(b) && address != 0 && Live(b, address)
    ensures Owns(b, u, address) && u == OwnerOf(b, address) && Level(u) < b.maxExp
    ensures var b' := Free(b, address);
            && Valid(b') && |b'.tree| == |b.tree|
            && UsedNodes(b'.tree) == UsedNodes(b.tree) - {u}
            && b' == b.(tree := b'.tree, used := U64(b.used - Refund(b, u)))
  {
    u := OwnerOf(b, address);
    LevelInTree(b.maxExp, b.tree, u);
    ReleaseInv(b.tree, u);
  }

  lemma AllocThenFreeStep(b: Manager, size: nat) returns (n: nat)
    requires Valid(b) && Fits(b, size) && Alloc(b, size).1 != 0
    ensures 0 < size <= MAX_REQUEST && n == Search(b, size) && Level(n) <= b.maxExp
    ensures Exp(b.maxExp, n) == FitExp(size, MIN_EXP) >= MIN_EXP
    ensures var (b', p) := Alloc(b, size);
            && Valid(b') && Live(b', p)
            && b' == b.(tree := b'.tree, used := U64(b.used + Size(b.maxExp, n)))
            && Free(b', p) == b'.(tree := b.tree, used := U64(b'.used - Refund(b, n)))
  {
    n := AllocTakes(b, size);
    var (b', p) := Alloc(b, size);
    assert n in UsedNodes(b'.tree);
    assert Owns(b', n, p);
    var u := FreeReleases(b', p);
    OwnerUnique(b', u, n, p);
    assert UsedNodes(b.tree) + {n} - {n} == UsedNodes(b.tree);
    Canonical(Free(b', p).tree, b.tree);
  }

  /** Freeing what was just allocated restores the tree exactly; `used` comes back only if the block was the whole tree. */
  lemma AllocThenFree(b: Manager, size: nat)
    requires Valid(b) && Fits(b, size) && Alloc(b, size).1 != 0
    ensures var (b', p) := Alloc(b, size);
            var e := FitExp(size, MIN_EXP);
            && Live(b', p)
            && Free(b', p) == b.(used := U64(b.used + if e == b.maxExp then 0 else Pow2(e - 1)))
            && (Free(b', p).used == b.used <==> e == b.maxExp)
  {
    hide Alloc, Free, U64, Inv, Shape, Start;
    var n := AllocThenFreeStep(b, size);
    var e := FitExp(size, MIN_EXP);
    FitExpBelow(size, MIN_EXP, 17) by { MaxRequestPower(); }
    Pow2Monotone(e, 17);
    MaxRequestPower();
    assert n == 0 <==> e == b.maxExp;
    var drift := if n == 0 then 0 else Pow2(e - 1);
    assert Size(b.maxExp, n) - Refund(b, n) == drift;
    ModDifference(b.used, Size(b.maxExp, n), Refund(b, n), drift);
  }

  lemma ModDifference(x: int, a: int, c: int, d: int)
    requires 0 <= x < TWO_64 && 0 <= c <= a <= MAX_REQUEST && a - c == d
    ensures U64(U64(x + a) - c) == U64(x + d)
    ensures U64(x + d) == x <==> d == 0
  {
  }

  /** Frees of different blocks commute, so blocks may be freed in any order. */
  lemma FreesCommute(b: Manager, p: nat, q: nat)
    requires Valid(b) && p != q && p != 0 && q != 0 && Live(b, p) && Live(b, q)
    ensures Live(Free(b, p), q) && Live(Free(b, q), p)
    ensures Free(Free(b, p), q) == Free(Free(b, q), p)
  {
    hide Free, U64, Inv, Shape, Start;
    var t, u, v := FreeTwice(b, p, q);
    var t', v', u' := FreeTwice(b, q, p);
    OwnerUnique(b, u, u', p);
    OwnerUnique(b, v, v', q);
    assert UsedNodes(b.tree) - {u} - {v} == UsedNodes(b.tree) - {v} - {u};
    Canonical(t, t');
    ModTwice(b.used, Refund(b, u), Refund(b, v));
  }

  lemma FreeTwice(b: Manager, p: nat, q: nat) returns (t: Tree, u: nat, v: nat)
    requires Valid(b) && p != q && p != 0 && q != 0 && Live(b, p) && Live(b, q)
    ensures Live(Free(b, p), q) && Owns(b, u, p) && Owns(b, v, q) && Level(u) < b.maxExp && Level(v) < b.maxExp
    ensures Inv(t) && |t| == |b.tree| && UsedNodes(t) == UsedNodes(b.tree) - {u} - {v}
    ensures Free(Free(b, p), q) == b.(tree := t, used := U64(U64(b.used - Refund(b, u)) - Refund(b, v)))
  {
    u := FreeReleases(b, p);
    v := OwnerOf(b, q);
    var bp := Free(b, p);
    hide Inv, Shape, Start, U64, Refund;
    assert v in UsedNodes(bp.tree);
    assert Owns(bp, v, q);
    var v' := FreeReleases(bp, q);
    OwnerUnique(bp, v, v', q);
    t := Free(bp, q).tree;
  }

  lemma ModTwice(x: int, c: int, d: int)
    ensures U64(U64(x - c) - d) == U64(U64(x - d) - c)
  {
  }

  // ---------------------------------------------------------------- from an address back to its node

  /** Where the descent stands when it looks at `node` having `exponent` still to try. */
  ghost predicate Descending(b: Manager, owner: nat, node: int, exponent: nat) {
    && 0 <= node < |b.tree| && Level(owner) <= b.maxExp
    && if node == owner then exponent == (if owner == 0 then b.maxExp else Exp(b.maxExp, owner) - 1)
       else Above(node, owner) && Exp(b.maxExp, owner) <= exponent
  }

  /** The largest power of two dividing the offset, capped by the region, is where the descent starts. */
  lemma DescentStarts(b: Manager, owner: nat, address: nat, start: nat)
    requires Valid(b) && Owns(b, owner, address)
    requires start <= b.maxExp && (address - b.treeStart) % Pow2(start) == 0
    requires start == b.maxExp || (address - b.treeStart) % Pow2(start + 1) != 0
    ensures Descending(b, owner, 0, start)
  {
    var e := Exp(b.maxExp, owner);
    NodeAtStart(b.maxExp, owner);
    if start < e {
      DividesLess(e, start + 1, address - b.treeStart);
    }
    if owner > 0 {
      RootAbove(owner);
    }
  }

  /** Before it reaches the owner, the descent is on a SPLIT node and moves to the next node with the same start. */
  lemma DescentSteps(b: Manager, owner: nat, address: nat, start: nat, node: nat, exponent: nat)
    requires Valid(b) && Owns(b, owner, address)
    requires exponent <= start <= b.maxExp && (address - b.treeStart) % Pow2(start) == 0
    requires Descending(b, owner, node, exponent) && node != owner
    ensures b.tree[node] == SPLIT && MIN_EXP <= exponent
    ensures Descending(b, owner, NodeAt(b.maxExp, exponent, address - b.treeStart), exponent - 1)
  {
    LevelInTree(b.maxExp, b.tree, owner);
    AboveSplit(b.tree, node, owner);
    DividesLess(start, exponent, address - b.treeStart);
    hide Inv, Shape, Pow2, NodeAt, Start;
    Spine(b.maxExp, owner, exponent);
    if exponent != Exp(b.maxExp, owner) {
      AboveLess(NodeAt(b.maxExp, exponent, address - b.treeStart), owner);
    }
  }

  // ---------------------------------------------------------------- refinement of the abstract heap

  ghost predicate LiveAt(b: Manager, x: nat) {
    Live(b, b.treeStart + x)
  }

  /** The blocks that callers hold, as byte offsets from treeStart. */
  ghost function HeapOf(b: Manager): AbstractHeap.Heap
  {
    map x: nat | x < b.size && LiveAt(b, x) :: Size(b.maxExp, OwnerOf(b, b.treeStart + x))
  }

  lemma HeapAt(b: Manager, u: nat, x: nat)
    requires Valid(b) && Owns(b, u, b.treeStart + x) && x < b.size
    ensures x in HeapOf(b) && HeapOf(b)[x] == Size(b.maxExp, u)
  {
    assert LiveAt(b, x);
    OwnerUnique(b, u, OwnerOf(b, b.treeStart + x), b.treeStart + x);
  }

  lemma HeapOwner(b: Manager, x: nat) returns (u: nat)
    requires x in HeapOf(b)
    ensures u in UsedNodes(b.tree) && Owns(b, u, b.treeStart + x)
    ensures HeapOf(b)[x] == Size(b.maxExp, u) && x == Start(b.maxExp, u)
  {
    assert LiveAt(b, x);
    u := OwnerOf(b, b.treeStart + x);
  }

  lemma HeapLive(b: Manager, x: nat)
    requires x in HeapOf(b)
    ensures Live(b, b.treeStart + x)
  {
    assert LiveAt(b, x);
  }

  lemma HeapApart(b: Manager, x: nat, y: nat)
    requires Valid(b) && x in HeapOf(b) && y in HeapOf(b) && x != y
    ensures x + HeapOf(b)[x] <= y || y + HeapOf(b)[y] <= x
  {
    var u := HeapOwner(b, x);
    var v := HeapOwner(b, y);
    hide HeapOf, Inv;
    UsedApart(b.maxExp, b.tree, u, v);
  }

  lemma HeapDisjoint(b: Manager)
    requires Valid(b)
    ensures AbstractHeap.Disjoint(HeapOf(b))
  {
    var h := HeapOf(b);
    hide HeapOf, Valid;
    forall x, y | x in h && y in h && x != y
      ensures x + h[x] <= y || y + h[y] <= x
    {
      HeapApart(b, x, y);
    }
  }

  lemma HeapSub(b: Manager, b': Manager)
    requires Valid(b) && Valid(b') && |b.tree| == |b'.tree|
    requires b' == b.(tree := b'.tree, used := b'.used)
    requires UsedNodes(b.tree) <= UsedNodes(b'.tree)
    ensures forall y :: y in HeapOf(b) ==> y in HeapOf(b') && HeapOf(b')[y] == HeapOf(b)[y]
  {
    forall y | y in HeapOf(b)
      ensures y in HeapOf(b') && HeapOf(b')[y] == HeapOf(b)[y]
    {
      assert LiveAt(b, y);
      var u := OwnerOf(b, b.treeStart + y);
      assert u in UsedNodes(b.tree);
      assert u in UsedNodes(b'.tree);
      HeapAt(b', u, y);
    }
  }

  lemma HeapBack(b: Manager, b': Manager, n: nat, y: nat)
    requires Valid(b) && Valid(b') && |b.tree| == |b'.tree|
    requires b' == b.(tree := b'.tree, used := b'.used)
    requires UsedNodes(b'.tree) == UsedNodes(b.tree) + {n} && Level(n) <= b.maxExp
    requires y in HeapOf(b') && y != Start(b.maxExp, n)
    ensures y in HeapOf(b)
  {
    assert LiveAt(b', y);
    var u := OwnerOf(b', b.treeStart + y);
    assert u in UsedNodes(b'.tree) && u != n;
    assert u in UsedNodes(b.tree);
    HeapAt(b, u, y);
  }

  lemma HeapMissing(b: Manager, b': Manager, n: nat)
    requires Valid(b) && Valid(b') && |b.tree| == |b'.tree|
    requires b' == b.(tree := b'.tree, used := b'.used)
    requires n !in UsedNodes(b.tree) && UsedNodes(b'.tree) == UsedNodes(b.tree) + {n} && Level(n) <= b.maxExp
    ensures Start(b.maxExp, n) !in HeapOf(b)
  {
    var x := Start(b.maxExp, n);
    if x in HeapOf(b) {
      var u := HeapOwner(b, x);
      hide HeapOf, Start, Inv, Shape;
      assert u in UsedNodes(b'.tree) && n in UsedNodes(b'.tree);
      OwnerUnique(b', u, n, b.treeStart + x);
    }
  }

  lemma HeapNew(b: Manager, n: nat)
    requires Valid(b) && n in UsedNodes(b.tree) && Level(n) <= b.maxExp
    ensures var x := Start(b.maxExp, n);
            (x in HeapOf(b) <==> x < b.size) && (x < b.size ==> HeapOf(b)[x] == Size(b.maxExp, n))
  {
    if Start(b.maxExp, n) < b.size {
      HeapAt(b, n, Start(b.maxExp, n));
    }
  }

  /** Trees that differ only in whether n is USED give heaps that differ only at its block. */
  lemma HeapAdd(b: Manager, b': Manager, n: nat)
    requires Valid(b) && Valid(b') && |b.tree| == |b'.tree|
    requires b' == b.(tree := b'.tree, used := b'.used)
    requires n !in UsedNodes(b.tree) && UsedNodes(b'.tree) == UsedNodes(b.tree) + {n} && Level(n) <= b.maxExp
    ensures var x := Start(b.maxExp, n);
            && x !in HeapOf(b)
            && HeapOf(b') == if x < b.size then HeapOf(b)[x := Size(b.maxExp, n)] else HeapOf(b)
  {
    hide *;
    var x := Start(b.maxExp, n);
    HeapSub(b, b');
    HeapMissing(b, b', n);
    HeapNew(b', n);
    forall y | y in HeapOf(b') && y != x
      ensures y in HeapOf(b)
    {
      HeapBack(b, b', n, y);
    }
  }

  /** What mm_alloc does to the blocks that callers hold. */
  lemma AllocHeap(b: Manager, size: nat)
    requires Valid(b) && Fits(b, size)
    ensures var (b', p) := Alloc(b, size);
            && Valid(b') && (p != 0 ==> b.treeStart <= p && p - b.treeStart !in HeapOf(b))
            && HeapOf(b') == if p == 0 then HeapOf(b) else HeapOf(b)[p - b.treeStart := Pow2(FitExp(size, MIN_EXP))]
  {
    if !Refused(b, size) && Search(b, size) != -1 {
      var n := AllocTakes(b, size);
      HeapAdd(b, Alloc(b, size).0, n);
    }
  }

  /** mm_alloc is an allocation of the abstract heap: NULL leaves the callers' blocks alone. */
  lemma AllocRefines(b: Manager, size: nat)
    requires Valid(b) && Fits(b, size)
    ensures var (b', p) := Alloc(b, size);
            && Valid(b')
            && (p != 0 ==> b.treeStart <= p)
            && AbstractHeap.Allocates(HeapOf(b), size, p != 0, if p == 0 then 0 else p - b.treeStart, HeapOf(b'))
  {
    AllocHeap(b, size);
    HeapDisjoint(Alloc(b, size).0);
  }

  lemma MinusAdded(h: map<nat, nat>, x: nat, v: nat)
    requires x !in h
    ensures h[x := v] - {x} == h
  {
  }

  /** mm_free of a live address removes exactly that block. */
  lemma FreeRefines(b: Manager, address: nat)
    requires Valid(b) && address != 0 && Live(b, address)
    ensures Valid(Free(b, address)) && b.treeStart <= address
    ensures AbstractHeap.Frees(HeapOf(b), address - b.treeStart, HeapOf(Free(b, address)))
    ensures AbstractHeap.Disjoint(HeapOf(Free(b, address)))
  {
    HeapDisjoint(b);
    var u := FreeReleases(b, address);
    var b' := Free(b, address);
    assert u in UsedNodes(b.tree);
    hide Free, Inv, Shape, Start, U64, Live;
    HeapAdd(b', b, u);
    HeapNew(b, u);
    MinusAdded(HeapOf(b'), Start(b.maxExp, u), Size(b.maxExp, u));
    hide HeapOf, AbstractHeap.Disjoint;
    AbstractHeap.FreesKeepsDisjoint(HeapOf(b), address - b.treeStart, HeapOf(b'));
  }
}
