/** The buddy allocator as the kernel runs it: a node array and counters updated in place. */
module BuddyAllocator {
  import opened Words
  import opened BuddyTree
  import opened BuddyGeometry
  import opened BuddySpec
  import opened BuddyRuns

  const MAX_EXP: nat := 28
  const HEADER_BYTES: nat := 48
  const MIN_BLOCK: nat := 16

  /** The exponent mm_create computes: the largest power that fits, at most MAX_EXP. */
  ghost predicate IsMaxExp(totalSize: nat, e: nat) {
    && 4 <= e <= 28 && Pow2(e) <= totalSize
    && (e == 28 || totalSize < Pow2(e + 1))
  }

  lemma MaxExpUnique(totalSize: nat, computedMax: nat)
    requires IsMaxExp(totalSize, computedMax)
    ensures forall e: nat :: IsMaxExp(totalSize, e) ==> e == computedMax
  {
    forall e: nat | IsMaxExp(totalSize, e) ensures e == computedMax {
      if e < computedMax {
        Pow2Monotone(e + 1, computedMax);
      } else if computedMax < e {
        Pow2Monotone(computedMax + 1, e);
      }
    }
  }

  lemma TooSmall(totalSize: nat)
    requires totalSize < MIN_BLOCK
    ensures forall e: nat :: !IsMaxExp(totalSize, e)
  {
    forall e: nat ensures !IsMaxExp(totalSize, e) {
      assert Pow2(MIN_EXP) == MIN_BLOCK;
      Pow2Order(MIN_EXP, e);
    }
  }

  /** The exponent, the number of nodes and what is left for blocks in the kernel's heap of 2^28 bytes. */
  lemma KernelHeap()
    ensures IsMaxExp(0x1000_0000, 28) && 2 * Pow2(28 - 4) - 1 == 0x1FF_FFFF
    ensures 0x1000_0000 - (48 + 0x1FF_FFFF) == 0x1000_0000 - 0x200_0000 - 47
  {
    MaxRequestPower();
    assert Pow2(7) == 128;
    assert Pow2(11) == 2048;
    Pow2Add(17, 7);
    Pow2Add(17, 11);
  }

  class Buddy {
    var tree: array<State>
    var treeStart: nat
    var size: nat
    var used: nat
    var maxExp: nat
    var totalNodes: nat

    ghost function Value(): Manager
      reads this, tree
    {
      Manager(tree[..], treeStart, size, used, maxExp)
    }

    ghost predicate Ok()
      reads this, tree
    {
      Valid(Value()) && totalNodes == tree.Length
    }

    constructor (computedMax: nat, startAddress: nat, totalSize: nat)
      requires MIN_EXP <= computedMax && HEADER_BYTES + Nodes(computedMax) + MIN_BLOCK <= totalSize < TWO_64
      ensures fresh(tree) && Ok()
      ensures Value() == Manager(AllFree(Nodes(computedMax)), startAddress + HEADER_BYTES + Nodes(computedMax),
                                 totalSize - (HEADER_BYTES + Nodes(computedMax)), 0, computedMax)
    {
      Pow2Monotone(1, computedMax - MIN_EXP + 1);
      var nodes := Nodes(computedMax);
      maxExp := computedMax;
      totalNodes := nodes;
      tree := new State[nodes];
      treeStart := startAddress + HEADER_BYTES + nodes;
      size := totalSize - (HEADER_BYTES + nodes);
      used := 0;
      new;
      var i := 0;
      while i < totalNodes
        invariant 0 <= i <= totalNodes == nodes == tree.Length
        invariant forall k :: 0 <= k < i ==> tree[k] == FREE
        invariant fresh(tree)
        invariant maxExp == computedMax && used == 0
        invariant treeStart == startAddress + HEADER_BYTES + nodes && size == totalSize - (HEADER_BYTES + nodes)
        modifies tree
      {
        tree[i] := FREE;
        i := i + 1;
      }
      assert tree[..] == AllFree(nodes);
      AllFreeInv(maxExp, tree[..]);
    }

    /** mm_create: null when the region cannot hold the header, the node array and one block. */
    static method Create(startAddress: nat, totalSize: nat) returns (manager: Buddy?)
      requires startAddress + totalSize < TWO_64
      ensures totalSize < 16 ==> manager == null
      ensures forall e: nat :: IsMaxExp(totalSize, e) ==>
                var nodes := 2 * Pow2(e - 4) - 1;
                && (manager == null <==> totalSize < 48 + nodes + 16)
                && (manager != null ==>
                      && fresh(manager) && fresh(manager.tree) && manager.Ok()
                      && manager.Value() == Manager(AllFree(nodes), startAddress + 48 + nodes, totalSize - (48 + nodes), 0, e))
    {
      assert Pow2(MIN_EXP) == MIN_BLOCK;
      if totalSize < MIN_BLOCK {
        TooSmall(totalSize);
        return null;
      }
      var computedMax := MIN_EXP;
      while Pow2(computedMax + 1) <= totalSize && computedMax < MAX_EXP
        invariant MIN_EXP <= computedMax <= MAX_EXP && Pow2(computedMax) <= totalSize
        decreases MAX_EXP - computedMax
      {
        computedMax := computedMax + 1;
      }
      MaxExpUnique(totalSize, computedMax);
      hide IsMaxExp, Pow2, AllFree, Inv;
      var needed := HEADER_BYTES + Nodes(computedMax) + MIN_BLOCK;
      if totalSize < needed {
        return null;
      }
      manager := new Buddy(computedMax, startAddress, totalSize);
    }

    /** getExponent */
    static method GetExponent(size: nat) returns (exponent: nat)
      ensures exponent == FitExp(size, MIN_EXP)
    {
      exponent := MIN_EXP;
      var pot := Pow2(MIN_EXP);
      while pot < size
        invariant pot == Pow2(exponent)
        invariant FitExp(size, MIN_EXP) == FitExp(size, exponent)
        decreases size - pot
      {
        pot := pot * 2;
        exponent := exponent + 1;
      }
    }

    /** splitTree */
    method SplitTree(leaf: nat)
      requires leaf < tree.Length
      modifies tree
      ensures tree[..] == SplitAbove(old(tree[..]), leaf)
    {
      var node: nat := leaf;
      while node != 0
        invariant node < tree.Length
        invariant SplitAbove(tree[..], node) == SplitAbove(old(tree[..]), leaf)
        decreases node
      {
        ghost var before := tree[..];
        node := (node - 1) / 2;
        tree[node] := SPLIT;
        assert tree[..] == before[node := SPLIT];
      }
    }

    /** splitTree and setSplitedChildren, as mm_alloc calls them. */
    method TakeNode(node: nat)
      requires node < tree.Length
      modifies tree
      ensures tree[..] == Take(old(tree[..]), node)
    {
      SplitTree(node);
      ghost var split := tree[..];
      tree[node] := USED;
      assert tree[..] == split[node := USED];
    }

    /** mm_alloc */
    method MmAlloc(request: nat) returns (address: nat)
      requires Ok() && Fits(Value(), request)
      modifies this`used, tree
      ensures Ok() && (Value(), address) == Alloc(old(Value()), request)
    {
      if request > U64(size - used) || request == 0 || request > MAX_REQUEST {
        return 0;
      }
      ghost var before := Value();
      FitLevel(before, request);
      var exponent := GetExponent(request);
      var node := FindFree(tree[..], 0, 0, maxExp - exponent);
      if node == -1 {
        return 0;
      }
      ghost var n := AllocTakes(before, request);
      OffsetIsStart(maxExp, exponent, n);
      hide OffsetOf, Alloc, Search, Refused, Start, Slot, Valid, U64, FindFree, Pow2;
      TakeNode(node);
      used := U64(used + Pow2(exponent));
      var offset := OffsetOf(maxExp, exponent, node);
      if offset >= size {
        return 0;
      }
      return treeStart + offset;
    }

    /** getExponentPtr: the largest exponent, at most maxExp, whose power divides the offset; 0 below the region. */
    method GetExponentPtr(memoryToFree: nat) returns (exponent: nat)
      ensures exponent <= maxExp
      ensures memoryToFree < treeStart ==> exponent == 0
      ensures treeStart <= memoryToFree ==>
                && (memoryToFree - treeStart) % Pow2(exponent) == 0
                && (exponent == maxExp || (memoryToFree - treeStart) % Pow2(exponent + 1) != 0)
    {
      if memoryToFree < treeStart {
        return 0;
      }
      var offset := memoryToFree - treeStart;
      exponent := maxExp;
      var pot := Pow2(maxExp);
      while offset % pot != 0
        invariant exponent <= maxExp && pot == Pow2(exponent)
        invariant exponent == maxExp || offset % Pow2(exponent + 1) != 0
        decreases exponent
      {
        exponent := exponent - 1;
        pot := pot / 2;
      }
    }

    /**
     getNodeIndex, for an address whose block is owner's: the descent passes only SPLIT nodes and
     stops at owner, one level further down than owner's own exponent (except at the root).
     */
    method GetNodeIndex(address: nat, start: nat, ghost owner: nat) returns (node: int, exponent: nat)
      requires Ok() && Owns(Value(), owner, address) && address < treeStart + size
      requires start <= maxExp && (address - treeStart) % Pow2(start) == 0
      requires start == maxExp || (address - treeStart) % Pow2(start + 1) != 0
      ensures node == owner && Level(owner) < maxExp
      ensures Pow2(exponent) == Refund(Value(), owner)
    {
      ghost var b := Value();
      LevelInTree(maxExp, tree[..], owner);
      DescentStarts(b, owner, address, start);
      hide Inv, Shape, Pow2, Start, Above, Level;
      node := 0;
      exponent := start;
      while exponent > 0 && tree[node] != USED
        invariant exponent <= start && 0 <= node < tree.Length
        invariant Descending(b, owner, node, exponent)
        decreases exponent
      {
        assert node != owner;
        if address < treeStart {
          return -1, exponent;
        }
        var offset := address - treeStart;
        if offset >= size {
          return -1, exponent;
        }
        DescentSteps(b, owner, address, start, node, exponent);
        node := offset / Pow2(exponent) + NodeLevel(maxExp, exponent);
        exponent := exponent - 1;
      }
      if node != owner {
        DescentSteps(b, owner, address, start, node, exponent);
      }
    }

    /** setMerge */
    method SetMerge(node: nat)
      requires node < tree.Length && totalNodes == tree.Length
      modifies tree
      ensures tree[..] == Merge(old(tree[..]), node)
      decreases node
    {
      if node == 0 {
        return;
      }
      var buddy: nat;
      if node % 2 == 0 {
        buddy := node - 1;
      } else {
        buddy := node + 1;
        if buddy >= totalNodes {
          return;
        }
      }
      if buddy < totalNodes && tree[buddy] == FREE && tree[node] == FREE {
        var parent := (node - 1) / 2;
        if parent < totalNodes && tree[parent] == SPLIT {
          ghost var before := tree[..];
          tree[parent] := FREE;
          assert tree[..] == before[parent := FREE];
          SetMerge(parent);
        }
      }
    }

    /** mm_free */
    method MmFree(memoryToFree: nat)
      requires Ok() && (memoryToFree != 0 ==> Live(Value(), memoryToFree))
      modifies this`used, tree
      ensures Ok() && Value() == Free(old(Value()), memoryToFree)
    {
      if memoryToFree == 0 {
        return;
      }
      ghost var before := Value();
      ghost var owner := FreeReleases(before, memoryToFree);
      var exponent := GetExponentPtr(memoryToFree);
      var node;
      node, exponent := GetNodeIndex(memoryToFree, exponent, owner);
      if node < 0 {
        return;
      }
      tree[node] := FREE;
      assert tree[..] == before.tree[node := FREE];
      SetMerge(node);
      used := U64(used - Pow2(exponent));
    }
  }
}
