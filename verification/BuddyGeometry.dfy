/** Blocks of the buddy tree as byte ranges, the search for a free block and the descent from an address. */
module BuddyGeometry {
  import opened Words
  import opened BuddyTree

  /** A tree of the shape the allocator uses for a region of 2^m bytes. */
  predicate Shape(m: nat, t: Tree) {
    MIN_EXP <= m && |t| == Nodes(m)
  }

  function Exp(m: nat, n: nat): nat
    requires Level(n) <= m
  {
    m - Level(n)
  }

  function Size(m: nat, n: nat): (r: nat)
    requires Level(n) <= m
    ensures r >= 1
  {
    Pow2(Exp(m, n))
  }

  /** Byte offset of the block of n: a right child starts in the middle of its parent's block. */
  function Start(m: nat, n: nat): nat
    requires Level(n) <= m
  {
    if n == 0 then 0
    else if n == 2 * Parent(n) + 1 then Start(m, Parent(n))
    else Start(m, Parent(n)) + Size(m, n)
  }

  /** The index of n within its level. */
  function Slot(n: nat): nat {
    if n == 0 then 0
    else if n == 2 * Parent(n) + 1 then 2 * Slot(Parent(n))
    else 2 * Slot(Parent(n)) + 1
  }

  lemma {:induction false} SlotFormula(n: nat)
    ensures Slot(n) == n + 1 - Pow2(Level(n))
    decreases n
  {
    if n > 0 {
      SlotFormula(Parent(n));
    }
  }

  lemma {:induction false} LevelBounds(n: nat)
    ensures Pow2(Level(n)) <= n + 1 < 2 * Pow2(Level(n))
    decreases n
  {
    if n > 0 {
      LevelBounds(Parent(n));
    }
  }

  lemma LevelUnique(n: nat, l: nat)
    requires Pow2(l) <= n + 1 < 2 * Pow2(l)
    ensures Level(n) == l
  {
    LevelBounds(n);
    Pow2Order(l, Level(n));
  }

  lemma LevelInTree(m: nat, t: Tree, n: nat)
    requires Shape(m, t) && n < |t|
    ensures Level(n) <= m - MIN_EXP
    ensures 2 * n + 2 < |t| <==> Level(n) < m - MIN_EXP
  {
    LevelBounds(n);
    var d := m - MIN_EXP;
    assert Pow2(d + 1) == 2 * Pow2(d);
    Pow2Order(d, Level(n));
  }

  lemma ShapeOdd(m: nat, t: Tree)
    requires Shape(m, t)
    ensures |t| % 2 == 1
  {
    assert Pow2(m - MIN_EXP + 1) == 2 * Pow2(m - MIN_EXP);
  }

  lemma ChildBlocks(m: nat, p: nat, c: nat)
    requires c > 0 && Parent(c) == p && Level(c) <= m
    ensures c == 2 * p + 1 || c == 2 * p + 2
    ensures Size(m, p) == 2 * Size(m, c)
    ensures Start(m, c) == Start(m, p) + if c == 2 * p + 1 then 0 else Size(m, c)
  {
  }

  /** The start of a block in closed form: its slot times its size. */
  lemma {:induction false} StartFormula(m: nat, n: nat)
    requires Level(n) <= m
    ensures Start(m, n) == Slot(n) * Size(m, n)
    decreases n
  {
    if n == 0 {
      assert Slot(n) == Start(m, n) == 0;
      hide *;
    } else {
      SlotStep(m, Parent(n), n);
      StartFormula(m, Parent(n));
      hide *;
      FormulaStep(Slot(Parent(n)), Slot(n), Size(m, Parent(n)), Size(m, n));
    }
  }

  lemma SlotStep(m: nat, p: nat, n: nat)
    requires n > 0 && p == Parent(n) && Level(n) <= m
    ensures Size(m, p) == 2 * Size(m, n)
    ensures (Slot(n) == 2 * Slot(p) && Start(m, n) == Start(m, p))
            || (Slot(n) == 2 * Slot(p) + 1 && Start(m, n) == Start(m, p) + Size(m, n))
  {
  }

  lemma FormulaStep(k: int, k': int, s: int, s': int)
    requires s == 2 * s'
    requires k' == 2 * k || k' == 2 * k + 1
    ensures k' * s' == k * s + if k' == 2 * k then 0 else s'
  {
    Halves(k, s');
  }

  lemma Halves(k: int, s: int)
    ensures (2 * k) * s == k * (2 * s)
    ensures (2 * k + 1) * s == k * (2 * s) + s
  {
  }

  ghost predicate Inside(m: nat, a: nat, b: nat)
    requires Level(a) <= m && Level(b) <= m
  {
    Start(m, b) <= Start(m, a) && Start(m, a) + Size(m, a) <= Start(m, b) + Size(m, b)
  }

  ghost predicate Apart(m: nat, a: nat, b: nat)
    requires Level(a) <= m && Level(b) <= m
  {
    Start(m, a) + Size(m, a) <= Start(m, b) || Start(m, b) + Size(m, b) <= Start(m, a)
  }

  lemma {:induction false} AboveInside(m: nat, a: nat, n: nat)
    requires Level(n) <= m && Above(a, n)
    ensures Level(a) < Level(n) && Inside(m, n, a)
    decreases n
  {
    ChildBlocks(m, Parent(n), n);
    if Parent(n) != a {
      AboveInside(m, a, Parent(n));
    }
  }

  /** Blocks of two nodes neither of which contains the other are apart. */
  lemma {:induction false} UnrelatedApart(m: nat, i: nat, j: nat)
    requires i < j && Level(i) <= m && Level(j) <= m && !Above(i, j)
    ensures Apart(m, i, j)
    decreases j
  {
    var p := Parent(j);
    ChildBlocks(m, p, j);
    if p < i && Above(p, i) {
      var s := ChildTowards(p, i);
      ChildBlocks(m, p, s);
      if s != i {
        AboveInside(m, s, i);
      }
      if s == j && s != i {
        AboveLess(s, i);
      }
    } else if i < p {
      UnrelatedApart(m, i, p);
    } else {
      assert p < i;
      UnrelatedApart(m, p, i);
    }
  }

  lemma {:induction false} ChildTowards(a: nat, n: nat) returns (c: nat)
    requires Above(a, n)
    ensures c > 0 && Parent(c) == a && (c == n || Above(c, n))
    ensures Level(c) <= Level(n)
    decreases n
  {
    if Parent(n) == a {
      c := n;
    } else {
      c := ChildTowards(a, Parent(n));
    }
  }

  /** USED nodes of a well formed tree stand for disjoint blocks. */
  lemma UsedApart(m: nat, t: Tree, i: nat, j: nat)
    requires Shape(m, t) && WellFormed(t) && i < |t| && j < |t| && i != j
    requires t[i] == USED && t[j] == USED
    ensures Level(i) <= m && Level(j) <= m && Apart(m, i, j)
  {
    LevelInTree(m, t, i);
    LevelInTree(m, t, j);
    var a, b := if i < j then i else j, if i < j then j else i;
    if Above(a, b) {
      AboveSplit(t, a, b);
    }
    UnrelatedApart(m, a, b);
  }

  /** The block of n meets no USED block. */
  ghost predicate Available(m: nat, t: Tree, n: nat)
    requires Shape(m, t) && n < |t|
  {
    forall u: nat :: u < |t| && t[u] == USED ==> Level(u) <= m && Level(n) <= m && Apart(m, u, n)
  }

  /** The search's test (FREE, no USED ancestor) is exactly "this block overlaps no USED block". */
  lemma ClearIsAvailable(m: nat, t: Tree, n: nat)
    requires Shape(m, t) && Inv(t) && n < |t|
    ensures Clear(t, n) <==> Available(m, t, n)
  {
    LevelInTree(m, t, n);
    NoUsedAboveIff(t, n);
    if Clear(t, n) {
      forall u: nat | u < |t| && t[u] == USED
        ensures Level(u) <= m && Apart(m, u, n)
      {
        LevelInTree(m, t, u);
        if u < n {
          UnrelatedApart(m, u, n);
        } else {
          if Above(n, u) {
            AboveSplit(t, n, u);
          }
          UnrelatedApart(m, n, u);
        }
      }
    }
    if Available(m, t, n) {
      if t[n] != FREE {
        var u := UsedBelow(t, n);
        LevelInTree(m, t, u);
        if u != n {
          AboveInside(m, n, u);
        }
        assert false;
      }
      forall a: nat | a < n && Above(a, n)
        ensures t[a] != USED
      {
        AboveInside(m, a, n);
      }
    }
  }

  // ---------------------------------------------------------------- first fit

  function FindFree(t: Tree, node: nat, level: nat, target: nat): (r: int)
    requires level <= target
    requires (node + 2) * Pow2(target - level) - 1 <= |t|
    ensures -1 <= r < |t|
    decreases target - level
  {
    RangeSplit(node, target - level);
    if level == target then
      if t[node] == FREE then node else -1
    else
      NodeInRange(node, target - level);
      if t[node] != SPLIT && t[node] != FREE then -1
      else
        var left := FindFree(t, 2 * node + 1, level + 1, target);
        if left != -1 then left else FindFree(t, 2 * node + 2, level + 1, target)
  }

  lemma NodeInRange(node: nat, d: nat)
    ensures node + 1 <= (node + 1) * Pow2(d) < (node + 2) * Pow2(d)
  {
  }

  lemma RangeSplit(node: nat, d: nat)
    ensures d == 0 ==> (node + 1) * Pow2(d) == node + 1 && (node + 2) * Pow2(d) == node + 2
    ensures d > 0 ==>
              && (2 * node + 1 + 1) * Pow2(d - 1) == (node + 1) * Pow2(d)
              && (2 * node + 1 + 2) * Pow2(d - 1) == (2 * node + 2 + 1) * Pow2(d - 1)
              && (2 * node + 2 + 2) * Pow2(d - 1) == (node + 2) * Pow2(d)
              && (2 * node + 1 + 2) * Pow2(d - 1) < (node + 2) * Pow2(d)
  {
    if d > 0 {
      var x := Pow2(d - 1);
      assert (2 * (node + 1)) * x == (node + 1) * (2 * x);
      assert (2 * (node + 2)) * x == (node + 2) * (2 * x);
    }
  }

  /** n is one of the nodes d levels below node. */
  predicate InRange(node: nat, d: nat, n: nat) {
    (node + 1) * Pow2(d) - 1 <= n < (node + 2) * Pow2(d) - 1
  }

  lemma {:induction false} RangeAbove(node: nat, d: nat, n: nat)
    requires InRange(node, d, n) && d > 0
    ensures Above(node, n) && Level(n) == Level(node) + d
    decreases d
  {
    RangeSplit(node, d);
    var c := if InRange(2 * node + 1, d - 1, n) then 2 * node + 1 else 2 * node + 2;
    assert InRange(c, d - 1, n);
    if d == 1 {
      RangeSplit(c, 0);
    } else {
      RangeAbove(c, d - 1, n);
    }
    assert Parent(c) == node;
    AboveTrans(node, c, n);
  }

  /** r is the first clear node d levels below node, or -1 when there is none. */
  ghost predicate FirstClear(t: Tree, node: nat, d: nat, r: int) {
    && (r != -1 ==> 0 <= r < |t| && InRange(node, d, r) && Clear(t, r))
    && forall n: nat :: n < |t| && InRange(node, d, n) && (r == -1 || n < r) ==> !Clear(t, n)
  }

  lemma {:induction false} FindFreeFirst(t: Tree, node: nat, level: nat, target: nat)
    requires level <= target && (node + 2) * Pow2(target - level) - 1 <= |t|
    requires node < |t| && NoUsedAbove(t, node)
    ensures FirstClear(t, node, target - level, FindFree(t, node, level, target))
    decreases target - level
  {
    hide InRange, Clear, FirstClear;
    var d := target - level;
    RangeSplit(node, d);
    NodeInRange(node, d);
    if d == 0 {
      AtTarget(t, node);
    } else if t[node] == USED {
      NothingBelowUsed(t, node, d);
    } else {
      var a, b := 2 * node + 1, 2 * node + 2;
      NodeInRange(a, d - 1);
      NodeInRange(b, d - 1);
      assert Parent(a) == node && Parent(b) == node;
      FindFreeFirst(t, a, level + 1, target);
      FindFreeFirst(t, b, level + 1, target);
      LeftThenRight(t, node, a, b, d - 1, FindFree(t, a, level + 1, target), FindFree(t, b, level + 1, target));
    }
  }

  lemma AtTarget(t: Tree, node: nat)
    requires node < |t| && NoUsedAbove(t, node)
    ensures FirstClear(t, node, 0, if t[node] == FREE then node else -1)
  {
    RangeSplit(node, 0);
    forall n: nat | InRange(node, 0, n) ensures n == node {}
  }

  lemma NothingBelowUsed(t: Tree, node: nat, d: nat)
    requires node < |t| && t[node] == USED && d > 0
    ensures FirstClear(t, node, d, -1)
  {
    forall n: nat | InRange(node, d, n) && n < |t| ensures !Clear(t, n) {
      RangeAbove(node, d, n);
      NoUsedAboveIff(t, n);
      AboveLess(node, n);
    }
  }

  lemma LeftThenRight(t: Tree, node: nat, a: nat, b: nat, d: nat, left: int, right: int)
    requires a == 2 * node + 1 && b == 2 * node + 2
    requires FirstClear(t, a, d, left) && FirstClear(t, b, d, right)
    ensures FirstClear(t, node, d + 1, if left != -1 then left else right)
  {
    RangeCases(node, a, b, d);
    hide InRange, Clear;
  }

  lemma RangeCases(node: nat, a: nat, b: nat, d: nat)
    requires a == 2 * node + 1 && b == 2 * node + 2
    ensures forall n: nat :: InRange(node, d + 1, n) <==> InRange(a, d, n) || InRange(b, d, n)
    ensures forall x: nat, y: nat :: InRange(a, d, x) && InRange(b, d, y) ==> x < y
  {
    RangeSplit(node, d + 1);
  }

  // ---------------------------------------------------------------- from an address to its node

  /** The node of the block of 2^e bytes that contains the byte at this offset. */
  function NodeAt(m: nat, e: nat, offset: nat): (r: int)
    requires e <= m
  {
    offset / Pow2(e) + NodeLevel(m, e)
  }

  /** Index of the first node of the level whose blocks have 2^e bytes. */
  function NodeLevel(m: nat, e: nat): nat
    requires e <= m
  {
    Pow2(m - e) - 1
  }

  /** The byte offset mm_alloc computes for a node of that level. */
  function OffsetOf(m: nat, e: nat, n: int): int
    requires e <= m
  {
    (n - NodeLevel(m, e)) * Pow2(e)
  }

  lemma OffsetIsStart(m: nat, e: nat, n: nat)
    requires Level(n) <= m && e == Exp(m, n)
    ensures OffsetOf(m, e, n) == Start(m, n)
  {
    StartFormula(m, n);
    SlotFormula(n);
  }

  /** On one level, blocks lie in the order of their nodes. */
  lemma StartOrder(m: nat, n: nat, k: nat)
    requires n <= k && Level(n) == Level(k) <= m
    ensures Start(m, n) <= Start(m, k)
  {
    StartFormula(m, n);
    StartFormula(m, k);
    SlotFormula(n);
    SlotFormula(k);
    ProductOrder(Slot(n), Slot(k), Size(m, n));
  }

  lemma NodeAtStart(m: nat, n: nat)
    requires Level(n) <= m
    ensures NodeAt(m, Exp(m, n), Start(m, n)) == n
    ensures Start(m, n) % Size(m, n) == 0
  {
    StartFormula(m, n);
    SlotFormula(n);
    DivExact(Slot(n), Size(m, n));
  }

  lemma {:induction false} DividesLess(a: nat, b: nat, x: nat)
    requires b <= a && x % Pow2(a) == 0
    ensures x % Pow2(b) == 0
    decreases a
  {
    if b < a {
      Halve(x, Pow2(a - 1));
      DividesLess(a - 1, b, x);
    }
  }

  lemma Halve(x: nat, s: nat)
    requires s > 0 && x % (2 * s) == 0
    ensures x % s == 0 && x / s == 2 * (x / (2 * s))
  {
    var q := x / (2 * s);
    assert x == (2 * s) * q;
    assert x == (2 * q) * s;
    QuotientUnique(x, s, 2 * q, 0);
  }

  /** The nodes that share a start offset are a left spine: each one up to the coarsest is an ancestor of the owner. */
  lemma {:induction false} Spine(m: nat, owner: nat, e: nat)
    requires Level(owner) <= m && Exp(m, owner) <= e <= m && Start(m, owner) % Pow2(e) == 0
    ensures var n := NodeAt(m, e, Start(m, owner));
            n >= 0 && if e == Exp(m, owner) then n == owner else Above(n, owner)
    decreases e
  {
    NodeAtStart(m, owner);
    hide *;
    var x := Start(m, owner);
    if Exp(m, owner) < e {
      SpineStep(m, e, x);
      Spine(m, owner, e - 1);
      AboveParent(NodeAt(m, e - 1, x), owner);
    }
  }

  lemma AboveParent(n: nat, owner: nat)
    requires n > 0 && (n == owner || Above(n, owner))
    ensures Above(Parent(n), owner)
  {
    AboveTrans(Parent(n), n, owner);
  }

  lemma SpineStep(m: nat, e: nat, x: nat)
    requires 0 < e <= m && x % Pow2(e) == 0
    ensures x % Pow2(e - 1) == 0
    ensures NodeAt(m, e - 1, x) > 0 && NodeAt(m, e, x) == Parent(NodeAt(m, e - 1, x))
  {
    Halve(x, Pow2(e - 1));
    assert Pow2(m - (e - 1)) == 2 * Pow2(m - e);
    QuotientNat(x, Pow2(e));
  }

  lemma QuotientNat(x: nat, s: nat)
    requires s > 0
    ensures x / s >= 0
  {
  }

  lemma {:induction false} RootAbove(n: nat)
    requires n > 0
    ensures Above(0, n)
    decreases n
  {
    if Parent(n) > 0 {
      RootAbove(Parent(n));
    }
  }

  lemma DivExact(k: nat, s: nat)
    requires s > 0
    ensures k * s / s == k && k * s % s == 0
  {
    QuotientUnique(k * s, s, k, 0);
  }

  lemma QuotientUnique(x: int, s: int, q: int, r: int)
    requires s > 0 && 0 <= r < s && x == q * s + r
    ensures x / s == q && x % s == r
  {
    var q', r' := x / s, x % s;
    assert x == s * q' + r';
    if q < q' {
      ProductOrder(q + 1, q', s);
    } else if q' < q {
      ProductOrder(q' + 1, q, s);
    }
  }

  lemma ProductOrder(a: int, b: int, s: int)
    requires a <= b && s > 0
    ensures a * s <= b * s
  {
  }
}
