/**
 The implicit binary tree of the buddy allocator as a value: node i has children 2i+1 and 2i+2,
 and every node stands for one block of the managed region.
 */
module BuddyTree {
  import opened Words

  datatype State = FREE | USED | SPLIT

  type Tree = seq<State>

  const MIN_EXP := 4

  function Parent(n: nat): (p: nat)
    requires n > 0
    ensures p < n
  {
    (n - 1) / 2
  }

  function Level(n: nat): nat {
    if n == 0 then 0 else 1 + Level(Parent(n))
  }

  /** a is a proper ancestor of n. */
  predicate Above(a: nat, n: nat) {
    n > 0 && (Parent(n) == a || Above(a, Parent(n)))
  }

  /** The number of nodes of a tree whose root block has 2^m bytes and whose leaves have 2^MIN_EXP. */
  function Nodes(m: nat): int
    requires MIN_EXP <= m
  {
    Pow2(m - MIN_EXP + 1) - 1
  }

  // ---------------------------------------------------------------- shape

  /** Only a SPLIT node may have the child c if c is not FREE. */
  predicate Linked(t: Tree, c: nat)
    requires 0 < c < |t|
  {
    t[c] != FREE ==> t[Parent(c)] == SPLIT
  }

  ghost predicate WellFormed(t: Tree) {
    forall c: nat :: 0 < c < |t| ==> Linked(t, c)
  }

  /** p is an inner node with a child that is not FREE. */
  predicate Occupied(t: Tree, p: nat) {
    2 * p + 2 < |t| && (t[2 * p + 1] != FREE || t[2 * p + 2] != FREE)
  }

  /** Coalescing left nothing to merge at p: a SPLIT node has a child that is not FREE. */
  predicate Tight(t: Tree, p: nat)
    requires p < |t|
  {
    t[p] == SPLIT ==> Occupied(t, p)
  }

  ghost predicate Coalesced(t: Tree) {
    forall p: nat :: p < |t| ==> Tight(t, p)
  }

  ghost predicate Inv(t: Tree) {
    |t| % 2 == 1 && WellFormed(t) && Coalesced(t)
  }

  ghost function UsedNodes(t: Tree): set<nat> {
    set n: nat | n < |t| && t[n] == USED
  }

  predicate NoUsedAbove(t: Tree, n: nat)
    requires n < |t|
  {
    n == 0 || (t[Parent(n)] != USED && NoUsedAbove(t, Parent(n)))
  }

  /** The block of n is available: n is FREE and lies inside no USED block. */
  predicate Clear(t: Tree, n: nat)
    requires n < |t|
  {
    t[n] == FREE && NoUsedAbove(t, n)
  }

  // ---------------------------------------------------------------- updates

  function SplitAbove(t: Tree, n: nat): (r: Tree)
    requires n < |t|
    ensures |r| == |t|
    decreases n
  {
    if n == 0 then t else SplitAbove(t[Parent(n) := SPLIT], Parent(n))
  }

  function Sibling(n: nat): nat
    requires n > 0
  {
    if n % 2 == 0 then n - 1 else n + 1
  }

  function Merge(t: Tree, n: nat): (r: Tree)
    requires n < |t|
    ensures |r| == |t|
    decreases n
  {
    if n == 0 || Sibling(n) >= |t| then t
    else if t[Sibling(n)] == FREE && t[n] == FREE && t[Parent(n)] == SPLIT then
      Merge(t[Parent(n) := FREE], Parent(n))
    else t
  }

  function Take(t: Tree, n: nat): (r: Tree)
    requires n < |t|
    ensures |r| == |t|
  {
    SplitAbove(t, n)[n := USED]
  }

  function Release(t: Tree, n: nat): (r: Tree)
    requires n < |t|
    ensures |r| == |t|
  {
    Merge(t[n := FREE], n)
  }

  // ---------------------------------------------------------------- allocation keeps the tree canonical

  lemma {:induction false} SplitAboveCommutes(t: Tree, n: nat, m: nat, s: State)
    requires n <= m < |t|
    ensures SplitAbove(t, n)[m := s] == SplitAbove(t[m := s], n)
    decreases n
  {
    if n > 0 {
      var p := Parent(n);
      assert t[p := SPLIT][m := s] == t[m := s][p := SPLIT];
      SplitAboveCommutes(t[p := SPLIT], p, m, s);
    }
  }

  lemma {:induction false} SplitAboveInv(t: Tree, n: nat)
    requires |t| % 2 == 1 && n < |t| && t[n] != FREE && NoUsedAbove(t, n)
    requires forall c: nat :: 0 < c < |t| && c != n ==> Linked(t, c)
    requires Coalesced(t)
    ensures Inv(SplitAbove(t, n))
    ensures UsedNodes(SplitAbove(t, n)) == UsedNodes(t)
    decreases n
  {
    if n > 0 {
      var p := Parent(n);
      var t' := t[p := SPLIT];
      assert n == 2 * p + 1 || n == 2 * p + 2;
      forall q: nat | q < |t'|
        ensures Tight(t', q)
      {
        assert Tight(t, q);
      }
      forall c: nat | 0 < c < |t'| && c != p
        ensures Linked(t', c)
      {
        if c != n {
          assert Linked(t, c);
        }
      }
      NoUsedAboveFrame(t, t', p);
      SplitAboveInv(t', p);
    }
  }

  lemma {:induction false} NoUsedAboveFrame(t: Tree, t': Tree, n: nat)
    requires n < |t| == |t'| && NoUsedAbove(t, n)
    requires forall i: nat :: i < n && t[i] != USED ==> t'[i] != USED
    ensures NoUsedAbove(t', n)
    decreases n
  {
    if n > 0 {
      NoUsedAboveFrame(t, t', Parent(n));
    }
  }

  /** Marking a clear node USED and its ancestors SPLIT keeps the tree canonical and adds only that node. */
  lemma TakeInv(t: Tree, n: nat)
    requires Inv(t) && n < |t| && Clear(t, n)
    ensures Inv(Take(t, n))
    ensures UsedNodes(Take(t, n)) == UsedNodes(t) + {n}
  {
    var t' := t[n := USED];
    NoUsedAboveFrame(t, t', n);
    forall q: nat | q < |t'|
      ensures Tight(t', q)
    {
      assert Tight(t, q);
    }
    forall c: nat | 0 < c < |t'| && c != n
      ensures Linked(t', c)
    {
      assert Linked(t, c);
    }
    SplitAboveInv(t', n);
    SplitAboveCommutes(t, n, n, USED);
  }

  // ---------------------------------------------------------------- release keeps the tree canonical

  lemma {:induction false} MergeInv(t: Tree, n: nat)
    requires |t| % 2 == 1 && n < |t| && t[n] == FREE && WellFormed(t)
    requires forall p: nat :: p < |t| && (n == 0 || p != Parent(n)) ==> Tight(t, p)
    ensures Inv(Merge(t, n))
    ensures UsedNodes(Merge(t, n)) == UsedNodes(t)
    decreases n
  {
    if n > 0 {
      var p := Parent(n);
      var s := Sibling(n);
      assert {n, s} == {2 * p + 1, 2 * p + 2};
      if t[s] == FREE && t[p] == SPLIT {
        var t' := t[p := FREE];
        forall q: nat | q < |t'| && (p == 0 || q != Parent(p))
          ensures Tight(t', q)
        {
          if q != p {
            assert Tight(t, q);
          }
        }
        forall c: nat | 0 < c < |t'|
          ensures Linked(t', c)
        {
          assert Linked(t, c);
          assert Parent(c) == p ==> c == n || c == s;
        }
        MergeInv(t', p);
      } else {
        assert t[s] != FREE ==> Occupied(t, p);
        assert Tight(t, p);
      }
    }
  }

  /** Freeing a USED node and merging upwards keeps the tree canonical and removes only that node. */
  lemma ReleaseInv(t: Tree, n: nat)
    requires Inv(t) && n < |t| && t[n] == USED
    ensures Inv(Release(t, n))
    ensures UsedNodes(Release(t, n)) == UsedNodes(t) - {n}
  {
    var t' := t[n := FREE];
    forall p: nat | p < |t'| && (n == 0 || p != Parent(n))
      ensures Tight(t', p)
    {
      assert Tight(t, p);
    }
    forall c: nat | 0 < c < |t'|
      ensures Linked(t', c)
    {
      assert Linked(t, c);
    }
    MergeInv(t', n);
  }

  // ---------------------------------------------------------------- the tree is a function of its USED nodes

  lemma InnerState(t: Tree, i: nat)
    requires Inv(t) && i < |t| && t[i] != USED
    ensures (t[i] == SPLIT) == Occupied(t, i)
  {
    assert Tight(t, i);
    if Occupied(t, i) {
      assert Parent(2 * i + 1) == i && Parent(2 * i + 2) == i;
      assert Linked(t, 2 * i + 1) && Linked(t, 2 * i + 2);
    }
  }

  lemma {:induction false} CanonicalFrom(t: Tree, t': Tree, i: nat)
    requires Inv(t) && Inv(t') && |t| == |t'| && UsedNodes(t) == UsedNodes(t') && i <= |t|
    ensures t[i..] == t'[i..]
    decreases |t| - i
  {
    if i < |t| {
      CanonicalFrom(t, t', i + 1);
      assert forall k: nat :: i < k < |t| ==> t[k] == t[i + 1..][k - i - 1] == t'[i + 1..][k - i - 1] == t'[k];
      assert (t[i] == USED) == (i in UsedNodes(t)) == (t'[i] == USED);
      if t[i] != USED {
        InnerState(t, i);
        InnerState(t', i);
      }
    }
  }

  /** Two canonical trees with the same USED nodes are equal. */
  lemma Canonical(t: Tree, t': Tree)
    requires Inv(t) && Inv(t') && |t| == |t'| && UsedNodes(t) == UsedNodes(t')
    ensures t == t'
  {
    CanonicalFrom(t, t', 0);
    assert t == t[0..] == t'[0..] == t';
  }

  // ---------------------------------------------------------------- ancestors and descendants

  lemma {:induction false} AboveSplit(t: Tree, a: nat, n: nat)
    requires WellFormed(t) && n < |t| && Above(a, n) && t[n] != FREE
    ensures a < n && t[a] == SPLIT
    decreases n
  {
    assert Linked(t, n);
    if Parent(n) != a {
      AboveSplit(t, a, Parent(n));
    }
  }

  lemma {:induction false} AboveLess(a: nat, n: nat)
    requires Above(a, n)
    ensures a < n
    decreases n
  {
    if Parent(n) != a {
      AboveLess(a, Parent(n));
    }
  }

  lemma {:induction false} NoUsedAboveIff(t: Tree, n: nat)
    requires n < |t|
    ensures NoUsedAbove(t, n) <==> forall a: nat :: a < n && Above(a, n) ==> t[a] != USED
    decreases n
  {
    if n > 0 {
      NoUsedAboveIff(t, Parent(n));
      assert Above(Parent(n), n);
      forall a: nat | a < n && Above(a, n) && a != Parent(n)
        ensures a < Parent(n) && Above(a, Parent(n))
      {
        AboveLess(a, Parent(n));
      }
    }
  }

  /** Below a SPLIT node of a canonical tree there is always a USED one. */
  lemma {:induction false} UsedBelow(t: Tree, n: nat) returns (u: nat)
    requires Inv(t) && n < |t| && t[n] != FREE
    ensures u < |t| && t[u] == USED && (u == n || Above(n, u))
    decreases |t| - n
  {
    if t[n] == USED {
      u := n;
    } else {
      assert Tight(t, n);
      var c := if t[2 * n + 1] != FREE then 2 * n + 1 else 2 * n + 2;
      u := UsedBelow(t, c);
      AboveTrans(n, c, u);
    }
  }

  lemma {:induction false} AboveTrans(a: nat, b: nat, c: nat)
    requires Above(a, b) && (b == c || Above(b, c))
    ensures Above(a, c)
    decreases c
  {
    if b != c && Parent(c) != b {
      AboveTrans(a, b, Parent(c));
    }
  }
}
