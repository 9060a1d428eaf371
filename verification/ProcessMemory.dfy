/** The memory of a process: what createProcess asks for, gives back when it fails, and freeProcess releases. */
module ProcessMemory {

  type Ptr = nat

  const NULL: Ptr := 0
  const STACK_SIZE: nat := 4096

  /** The caller's argument vector: NULL, or for each entry whether it points to a string. */
  datatype Args = NoArgs | Args(entries: seq<bool>)

  /**
   The kernel heap as its clients see it: the set of live blocks. What mm_alloc answers is up to `answers`: a free
   address, new or used before, or anything else for a request that fails.
   */
  class Memory {
    var live: set<Ptr>
    var requests: nat
    ghost var refusals: nat
    const answers: nat -> Ptr

    constructor (answers: nat -> Ptr)
      ensures live == {} && this.answers == answers
    {
      live := {};
      requests := 0;
      refusals := 0;
      this.answers := answers;
    }

    method Alloc() returns (p: Ptr)
      modifies this
      ensures p == NULL ==> live == old(live)
      ensures p != NULL ==> p !in old(live) && live == old(live) + {p}
      ensures p == (var a := answers(old(requests)); if a in old(live) then NULL else a)
      ensures requests == old(requests) + 1
      ensures refusals == old(refusals) + if p == NULL then 1 else 0
    {
      p := answers(requests);
      requests := requests + 1;
      if p in live {
        p := NULL;
      }
      if p == NULL {
        refusals := refusals + 1;
      } else {
        live := live + {p};
      }
    }

    /** Only live blocks may be freed: no double free, and no stray pointer. */
    method Free(p: Ptr)
      requires p in live
      modifies this`live
      ensures live == old(live) - {p}
    {
      live := live - {p};
    }
  }

  /** A copied argument vector: the block at `at` holds the addresses of the copied strings and a final NULL. */
  class Vector {
    const at: Ptr
    const slots: array<Ptr>

    constructor (at: Ptr, length: nat)
      ensures this.at == at && fresh(slots) && slots.Length == length
    {
      this.at := at;
      slots := new Ptr[length];
    }
  }

  function Count(argc: int): nat {
    if argc <= 0 then 0 else argc
  }

  ghost function Blocks(s: seq<Ptr>): set<Ptr> {
    set i | 0 <= i < |s| :: s[i]
  }

  ghost predicate Distinct(s: seq<Ptr>) {
    forall i, j :: 0 <= i < j < |s| ==> s[i] != s[j]
  }

  lemma BlocksGrow(s: seq<Ptr>, n: nat)
    requires n < |s|
    ensures Blocks(s[..n + 1]) == Blocks(s[..n]) + {s[n]}
    ensures s[n] in Blocks(s)
    ensures Distinct(s) ==> s[n] !in Blocks(s[..n])
  {
    assert s[..n + 1] == s[..n] + [s[n]];
    assert forall i :: 0 <= i < |s[..n]| ==> s[..n][i] == s[i];
  }

  lemma BlocksAppend(s: seq<Ptr>, p: Ptr)
    ensures Blocks(s + [p]) == Blocks(s) + {p}
    ensures Distinct(s) && p !in Blocks(s) ==> Distinct(s + [p])
  {
    assert (s + [p])[..|s|] == s;
    BlocksGrow(s + [p], |s|);
    assert (s + [p])[..|s| + 1] == s + [p];
  }

  /** The copied strings. */
  ghost function Strings(v: Vector, argc: int): seq<Ptr>
    requires Count(argc) <= v.slots.Length
    reads v.slots
  {
    v.slots[..Count(argc)]
  }

  ghost predicate VectorOk(v: Vector?, argc: int)
    reads if v == null then {} else {v.slots}
  {
    v != null ==>
      && v.slots.Length == Count(argc) + 1 && v.slots[Count(argc)] == NULL && v.at != NULL
      && Distinct(Strings(v, argc)) && NULL !in Strings(v, argc) && v.at !in Blocks(Strings(v, argc))
  }

  ghost function VectorBlocks(v: Vector?, argc: int): set<Ptr>
    requires VectorOk(v, argc)
    reads if v == null then {} else {v.slots}
  {
    if v == null then {} else {v.at} + Blocks(Strings(v, argc))
  }

  /** The loops `for (j = 0; j < n; j++) mm_free(slots[j])`. */
  method FreeStrings(m: Memory, slots: array<Ptr>, n: nat)
    requires n <= slots.Length && Distinct(slots[..n]) && Blocks(slots[..n]) <= m.live
    modifies m`live
    ensures m.live == old(m.live) - Blocks(slots[..n])
  {
    ghost var s := slots[..n];
    var j := 0;
    while j < n
      invariant 0 <= j <= n
      invariant m.live == old(m.live) - Blocks(s[..j])
    {
      BlocksGrow(s, j);
      m.Free(slots[j]);
      j := j + 1;
    }
    assert s[..n] == s;
  }

  method FreeArgv(m: Memory, v: Vector?, argc: int)
    requires VectorOk(v, argc) && VectorBlocks(v, argc) <= m.live
    modifies m`live
    ensures m.live == old(m.live) - VectorBlocks(v, argc)
  {
    if v == null {
      return;
    }
    ghost var s := Strings(v, argc);
    var i := 0;
    while i < argc
      invariant 0 <= i <= Count(argc)
      invariant m.live == old(m.live) - Blocks(s[..i])
    {
      BlocksGrow(s, i);
      assert s[i] in s;
      if v.slots[i] != NULL {
        m.Free(v.slots[i]);
      }
      i := i + 1;
    }
    assert s[..i] == s;
    m.Free(v.at);
  }

  /** What allocArgv can copy: nothing, or a vector without NULL entries. */
  predicate Copyable(args: Args, argc: int) {
    argc > 0 ==> args.Args? && argc <= |args.entries| && forall i :: 0 <= i < argc ==> args.entries[i]
  }

  /**
   allocArgv. It copies all or nothing, and it copies whatever can be copied unless memory is refused.
   */
  method AllocArgv(m: Memory, args: Args, argc: int) returns (v: Vector?)
    requires args.Args? ==> argc <= |args.entries|
    modifies m
    ensures v == null ==> m.live == old(m.live)
    ensures v != null ==>
              && fresh(v.slots) && VectorOk(v, argc)
              && VectorBlocks(v, argc) !! old(m.live) && m.live == old(m.live) + VectorBlocks(v, argc)
    ensures m.refusals >= old(m.refusals)
    ensures v == null <==> !Copyable(args, argc) || m.refusals > old(m.refusals)
  {
    var at: Ptr;
    if argc <= 0 {
      at := m.Alloc();
      if at == NULL {
        return null;
      }
      v := new Vector(at, 1);
      v.slots[0] := NULL;
      return;
    }
    if args.NoArgs? {
      return null;
    }
    at := m.Alloc();
    if at == NULL {
      return null;
    }
    v := new Vector(at, argc + 1);
    var i := 0;
    while i < argc
      invariant 0 <= i <= argc && fresh(v.slots) && v.slots.Length == argc + 1 && v.at == at
      invariant Distinct(v.slots[..i]) && NULL !in v.slots[..i] && at !in Blocks(v.slots[..i])
      invariant Blocks(v.slots[..i]) !! old(m.live)
      invariant m.live == old(m.live) + {at} + Blocks(v.slots[..i])
      invariant m.refusals == old(m.refusals)
      invariant forall k :: 0 <= k < i ==> args.entries[k]
    {
      ghost var s := v.slots[..i];
      if !args.entries[i] {
        FreeStrings(m, v.slots, i);
        m.Free(at);
        return null;
      }
      var p := m.Alloc();
      if p == NULL {
        FreeStrings(m, v.slots, i);
        m.Free(at);
        return null;
      }
      v.slots[i] := p;
      BlocksAppend(s, p);
      i := i + 1;
      assert v.slots[..i] == s + [p];
    }
    ghost var s := v.slots[..argc];
    v.slots[argc] := NULL;
    assert Strings(v, argc) == s;
  }

  /** A waiting list: its header block and its nodes. */
  datatype WaitingList = NoList | List(at: Ptr, nodes: seq<Ptr>)

  ghost predicate WaitingOk(w: WaitingList) {
    w.List? ==> w.at !in Blocks(w.nodes) && Distinct(w.nodes)
  }

  ghost function WaitingBlocks(w: WaitingList): set<Ptr> {
    if w.NoList? then {} else {w.at} + Blocks(w.nodes)
  }

  /** freeLinkedListADT. */
  method FreeWaitingList(m: Memory, w: WaitingList)
    requires w.List? && WaitingOk(w) && WaitingBlocks(w) <= m.live
    modifies m`live
    ensures m.live == old(m.live) - WaitingBlocks(w)
  {
    var i := 0;
    while i < |w.nodes|
      invariant 0 <= i <= |w.nodes|
      invariant m.live == old(m.live) - Blocks(w.nodes[..i])
    {
      BlocksGrow(w.nodes, i);
      m.Free(w.nodes[i]);
      i := i + 1;
    }
    assert w.nodes[..i] == w.nodes;
    m.Free(w.at);
  }

  ghost predicate PiecesApart(at: Ptr, stack: set<Ptr>, argv: set<Ptr>, name: set<Ptr>, list: set<Ptr>) {
    && at !in stack && at !in argv && at !in name && at !in list
    && stack !! argv && stack !! name && stack !! list && argv !! name && argv !! list && name !! list
  }

  ghost function Pieces(at: Ptr, stack: set<Ptr>, argv: set<Ptr>, name: set<Ptr>, list: set<Ptr>): set<Ptr> {
    {at} + stack + argv + name + list
  }

  /** Pieces that were granted one after the other are apart. */
  lemma GrantedApart(live: set<Ptr>, at: Ptr, stack: set<Ptr>, argv: set<Ptr>, name: set<Ptr>, list: set<Ptr>)
    requires at in live && stack !! live && argv !! live + stack
    requires name !! live + stack + argv && list !! live + stack + argv + name
    ensures PiecesApart(at, stack, argv, name, list)
    ensures Pieces(at, stack, argv, name, list) - {at} !! live
    ensures live + Pieces(at, stack, argv, name, list) == live + stack + argv + name + list
  {
  }

  /** The parts of a ProcessContext that hold memory. */
  class Record {
    const at: Ptr
    var stackBase: nat
    var argv: Vector?
    var argc: int
    var name: Ptr
    var waitingList: WaitingList

    constructor (at: Ptr)
      ensures this.at == at && stackBase == 0 && argv == null && argc == 0 && name == NULL && waitingList == NoList
    {
      this.at := at;
      stackBase := 0;
      argv := null;
      argc := 0;
      name := NULL;
      waitingList := NoList;
    }

    ghost function StackBlocks(): set<Ptr>
      reads this
    {
      if stackBase >= STACK_SIZE then {stackBase - STACK_SIZE} else {}
    }

    ghost function NameBlocks(): set<Ptr>
      reads this
    {
      if name == NULL then {} else {name}
    }

    /** The parts are well formed, and no two of them share a block. */
    ghost predicate Apart()
      reads this, if argv == null then {} else {argv.slots}
    {
      && VectorOk(argv, argc) && WaitingOk(waitingList)
      && PiecesApart(at, StackBlocks(), VectorBlocks(argv, argc), NameBlocks(), WaitingBlocks(waitingList))
    }

    /** Every block that the process holds. */
    ghost function Footprint(): set<Ptr>
      requires Apart()
      reads this, if argv == null then {} else {argv.slots}
    {
      Pieces(at, StackBlocks(), VectorBlocks(argv, argc), NameBlocks(), WaitingBlocks(waitingList))
    }

    /** A process that is ready to run has all of its parts. */
    ghost predicate Complete(argc: int)
      reads this
    {
      stackBase >= STACK_SIZE && argv != null && this.argc == argc && name != NULL && waitingList.List?
    }
  }

  lemma HoldsNothing(argc: int)
    ensures VectorOk(null, argc) && VectorBlocks(null, argc) == {} && WaitingOk(NoList) && WaitingBlocks(NoList) == {}
  {
  }

  lemma HoldsHeader(w: WaitingList)
    requires w.List? && w.nodes == []
    ensures WaitingOk(w) && WaitingBlocks(w) == {w.at}
  {
  }

  /** A record whose parts were granted one after the other. */
  lemma Holds(r: Record, live: set<Ptr>, stack: set<Ptr>, argv: set<Ptr>, name: set<Ptr>, list: set<Ptr>)
    requires VectorOk(r.argv, r.argc) && WaitingOk(r.waitingList)
    requires r.StackBlocks() == stack && VectorBlocks(r.argv, r.argc) == argv
    requires r.NameBlocks() == name && WaitingBlocks(r.waitingList) == list
    requires r.at in live && stack !! live && argv !! live + stack
    requires name !! live + stack + argv && list !! live + stack + argv + name
    ensures r.Apart() && r.Footprint() - {r.at} !! live
    ensures live + r.Footprint() == live + stack + argv + name + list
    ensures stack + argv + name + list == {} ==> r.Footprint() == {r.at}
  {
    hide VectorOk, WaitingOk, VectorBlocks, WaitingBlocks, Record.StackBlocks, Record.NameBlocks;
    GrantedApart(live, r.at, stack, argv, name, list);
  }

  /** initializeProcess on a record that holds nothing yet: false if some allocation failed. */
  method InitializeProcess(m: Memory, r: Record, args: Args, argc: int) returns (ok: bool)
    requires args.Args? ==> argc <= |args.entries|
    requires r.at in m.live
    modifies m, r
    ensures r.Apart()
    ensures ok ==> r.Complete(argc) && r.waitingList.nodes == []
    ensures ok ==> r.Footprint() - {r.at} !! old(m.live) && m.live == old(m.live) + r.Footprint()
    ensures ok ==> fresh(r.argv.slots)
    ensures !ok ==> r.Footprint() == {r.at} && m.live == old(m.live)
    ensures m.refusals >= old(m.refusals)
    ensures ok <==> Copyable(args, argc) && m.refusals == old(m.refusals)
  {
    HoldsNothing(argc);
    hide Blocks, Distinct, Strings, Copyable, VectorOk, VectorBlocks, WaitingOk, WaitingBlocks, Record.Apart, Record.Footprint;
    ghost var live := m.live;
    r.stackBase := 0;
    r.argv := null;
    r.argc := argc;
    r.name := NULL;
    r.waitingList := NoList;

    var stack := m.Alloc();
    if stack == NULL {
      Holds(r, live, {}, {}, {}, {});
      return false;
    }
    r.stackBase := stack + STACK_SIZE;

    r.argv := AllocArgv(m, args, argc);
    if r.argv == null {
      Holds(r, live, {stack}, {}, {}, {});
      Unwind(m, r, live);
      return false;
    }
    ok := NameAndList(m, r, live, {stack});
  }

  /** The second half of initializeProcess, once the stack and the arguments are there. */
  method NameAndList(m: Memory, r: Record, ghost live: set<Ptr>, ghost stack: set<Ptr>) returns (ok: bool)
    requires r.stackBase >= STACK_SIZE && r.argv != null && r.name == NULL && r.waitingList == NoList
    requires VectorOk(r.argv, r.argc)
    requires r.at in live && r.StackBlocks() == stack
    requires stack !! live && VectorBlocks(r.argv, r.argc) !! live + stack
    requires m.live == live + stack + VectorBlocks(r.argv, r.argc)
    modifies m, r
    ensures r.Apart()
    ensures ok ==> r.Complete(old(r.argc)) && r.argv == old(r.argv) && r.waitingList.nodes == []
    ensures ok ==> r.Footprint() - {r.at} !! live && m.live == live + r.Footprint()
    ensures !ok ==> r.Footprint() == {r.at} && m.live == live
    ensures m.refusals >= old(m.refusals)
    ensures ok <==> m.refusals == old(m.refusals)
  {
    HoldsNothing(r.argc);
    hide Blocks, Distinct, Strings, VectorOk, VectorBlocks, WaitingOk, WaitingBlocks, Record.Apart, Record.Footprint;
    ghost var strings := VectorBlocks(r.argv, r.argc);
    r.name := m.Alloc();
    if r.name == NULL {
      Holds(r, live, stack, strings, {}, {});
      Unwind(m, r, live);
      return false;
    }

    var list := m.Alloc();
    if list == NULL {
      Holds(r, live, stack, strings, {r.name}, {});
      Unwind(m, r, live);
      return false;
    }
    r.waitingList := List(list, []);
    HoldsHeader(r.waitingList);
    Holds(r, live, stack, strings, {r.name}, {list});
    return true;
  }

  /** What initializeProcess gives back when it fails: whatever it was granted before. */
  method Unwind(m: Memory, r: Record, ghost before: set<Ptr>)
    requires r.Apart() && r.waitingList == NoList && r.at in before && r.stackBase >= STACK_SIZE
    requires r.Footprint() - {r.at} !! before && m.live == before + r.Footprint()
    modifies m`live, r
    ensures r.Apart() && r.Footprint() == {r.at} && m.live == before
  {
    HoldsNothing(r.argc);
    hide Blocks, Distinct, Strings, VectorOk, VectorBlocks, WaitingOk, WaitingBlocks;
    if r.name != NULL {
      m.Free(r.name);
      r.name := NULL;
    }
    if r.argv != null {
      FreeArgv(m, r.argv, r.argc);
      r.argv := null;
    }
    m.Free(r.stackBase - STACK_SIZE);
    r.stackBase := 0;
  }

  /** freeProcess releases exactly what the process holds, each block once. */
  method FreeProcess(m: Memory, r: Record)
    requires r.Apart() && r.Footprint() <= m.live
    modifies m`live, r
    ensures m.live == old(m.live) - old(r.Footprint())
  {
    ghost var held := r.Footprint();
    if r.argv != null {
      FreeArgv(m, r.argv, r.argc);
      r.argv := null;
    }
    if r.name != NULL {
      m.Free(r.name);
      r.name := NULL;
    }
    if r.stackBase >= STACK_SIZE {
      m.Free(r.stackBase - STACK_SIZE);
      r.stackBase := 0;
    }
    if r.waitingList.List? {
      FreeWaitingList(m, r.waitingList);
      r.waitingList := NoList;
    }
    m.Free(r.at);
  }

  /**
   The memory side of createProcess: with `full` standing for a process table that has no room, and `pidFree` for a
   pid that could be found. Whichever requests fail, a failed creation leaves the heap as it was, and a successful
   one adds exactly the new process's blocks.
   */
  method CreateProcess(m: Memory, full: bool, pidFree: bool, args: Args, argc: int)
    returns (r: Record?)
    requires args.Args? ==> argc <= |args.entries|
    modifies m
    ensures r == null ==> m.live == old(m.live)
    ensures r != null ==>
              && r.Apart() && r.Complete(argc) && fresh(r) && fresh(r.argv.slots)
              && r.Footprint() !! old(m.live) && m.live == old(m.live) + r.Footprint()
    ensures r == null <==> full || !pidFree || !Copyable(args, argc) || m.refusals > old(m.refusals)
  {
    if full {
      return null;
    }
    var at := m.Alloc();
    if at == NULL {
      return null;
    }
    r := new Record(at);
    if !pidFree {
      FreeProcess(m, r);
      return null;
    }
    var ok := InitializeProcess(m, r, args, argc);
    if !ok {
      FreeProcess(m, r);
      return null;
    }
  }

  /** waitProcess's addNode: the waiting list of r grows by a node, if its memory is granted. Nobody looks at the result. */
  method AddWaiter(m: Memory, r: Record) returns (ghost more: set<Ptr>)
    requires r.Apart() && r.Footprint() <= m.live && r.waitingList.List?
    modifies m, r`waitingList
    ensures r.Apart() && r.waitingList.List?
    ensures more !! old(m.live) && m.live == old(m.live) + more && r.Footprint() == more + old(r.Footprint())
    ensures m.refusals > old(m.refusals) <==> more == {}
    ensures more == {} ==> r.waitingList == old(r.waitingList)
    ensures more != {} ==> exists node :: more == {node} && r.waitingList.nodes == old(r.waitingList.nodes) + [node]
  {
    ghost var before := r.waitingList.nodes;
    ghost var held := r.Footprint();
    more := {};
    var node := m.Alloc();
    if node != NULL {
      more := {node};
      assert forall x :: x in Blocks(before) ==> x in held;
      BlocksAppend(before, node);
      r.waitingList := List(r.waitingList.at, r.waitingList.nodes + [node]);
      assert WaitingBlocks(r.waitingList) == {r.waitingList.at} + Blocks(before) + {node};
    }
  }
}
