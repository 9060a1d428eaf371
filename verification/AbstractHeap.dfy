/** What both memory managers implement: a map of disjoint live intervals, from start to length. */
module AbstractHeap {

  type Heap = map<nat, nat>

  ghost predicate Disjoint(h: Heap) {
    forall a, b :: a in h && b in h && a != b ==> a + h[a] <= b || b + h[b] <= a
  }

  /** A failed request changes nothing; a granted one adds one interval, large enough and apart from all others. */
  ghost predicate Allocates(h: Heap, request: nat, granted: bool, start: nat, h': Heap) {
    if !granted then h' == h
    else
      && start !in h
      && start in h'
      && h' == h[start := h'[start]]
      && request <= h'[start]
      && Disjoint(h')
  }

  ghost predicate Frees(h: Heap, start: nat, h': Heap) {
    start in h && h' == h - {start}
  }

  lemma FreesKeepsDisjoint(h: Heap, start: nat, h': Heap)
    requires Disjoint(h) && Frees(h, start, h')
    ensures Disjoint(h')
  {
  }
}
