/** The memory of all processes together: who owns which block, over any sequence of creations, waits, kills and ticks. */
module ProcessTable {
  import opened ProcessMemory

  // ---------------------------------------------------------------- every live block has one owner

  datatype Owner = Others | Own(r: Record)

  type Owners = map<Ptr, Owner>

  /** The blocks that belong to r. */
  ghost function PartOf(owners: Owners, r: Record): set<Ptr> {
    set p | p in owners && owners[p] == Own(r)
  }

  ghost function Given(owners: Owners, r: Record, more: set<Ptr>): Owners {
    owners + map p | p in more :: Own(r)
  }

  lemma GivenParts(owners: Owners, r: Record, more: set<Ptr>)
    requires more !! owners.Keys
    ensures Given(owners, r, more).Keys == owners.Keys + more
    ensures PartOf(Given(owners, r, more), r) == PartOf(owners, r) + more
    ensures forall q :: q != r ==> PartOf(Given(owners, r, more), q) == PartOf(owners, q)
    ensures PartOf(owners, r) <= owners.Keys
  {
    forall q: Record | q != r ensures PartOf(Given(owners, r, more), q) == PartOf(owners, q) {
    }
  }

  lemma GivenOwners(owners: Owners, r: Record, more: set<Ptr>)
    ensures var v := Given(owners, r, more);
            && (forall p :: p in v ==> v[p] == Own(r) || (p in owners && v[p] == owners[p]))
            && (more !! owners.Keys ==> forall p :: p in owners ==> p in v && v[p] == owners[p])
  {
  }

  lemma TakenParts(owners: Owners, r: Record)
    ensures PartOf(owners, r) <= owners.Keys
    ensures (owners - PartOf(owners, r)).Keys == owners.Keys - PartOf(owners, r)
    ensures forall q :: q != r ==> PartOf(owners - PartOf(owners, r), q) == PartOf(owners, q)
    ensures forall p :: p in owners - PartOf(owners, r) ==> (owners - PartOf(owners, r))[p] != Own(r)
  {
    forall q: Record | q != r ensures PartOf(owners - PartOf(owners, r), q) == PartOf(owners, q) {
    }
  }

  // ---------------------------------------------------------------- the process table

  /** A record with all of its parts, which lie in R and hold exactly these blocks. */
  ghost predicate Intact(r: Record, R: set<object>, blocks: set<Ptr>)
    requires r in R
    reads R
  {
    r.argv != null && r.argv.slots in R && r.waitingList.List? && r.Apart() && r.Footprint() == blocks
  }

  lemma IntactParts(r: Record, R: set<object>, blocks: set<Ptr>)
    requires r in R && Intact(r, R, blocks)
    ensures r.argv != null && r.argv.slots in R && r.waitingList.List? && r.Apart() && r.Footprint() == blocks
  {
  }

  /** KillOp kills the i-th process, which may be the running one. */
  datatype Op =
    | CreateOp(full: bool, pidFree: bool, args: Args, argc: int)
    | WaitOp(i: nat)
    | KillOp(i: nat, running: bool)
    | TickOp

  predicate OpOk(op: Op) {
    op.CreateOp? && op.args.Args? ==> op.argc <= |op.args.entries|
  }

  lemma RestOf(q: seq<Record>, i: nat)
    requires i < |q| && forall j, k :: 0 <= j < k < |q| ==> q[j] != q[k]
    ensures var r := q[..i] + q[i + 1..];
            && (forall x :: x in r <==> x in q && x != q[i])
            && forall j, k :: 0 <= j < k < |r| ==> r[j] != r[k]
  {
    var r := q[..i] + q[i + 1..];
    forall x | x in q && x != q[i] ensures x in r {
      var j :| 0 <= j < |q| && q[j] == x;
      assert r[if j < i then j else j - 1] == x;
    }
  }

  lemma NobodyOwns(owners: Owners, held: set<Record>, r: Record)
    requires r !in held && forall p :: p in owners && owners[p].Own? ==> owners[p].r in held
    ensures PartOf(owners, r) == {}
  {
  }

  class Table {
    const m: Memory
    /** The listed processes, and the running one if it was killed and its record waits for the next tick. */
    var processes: seq<Record>
    var ended: Record?
    /** The records that hold memory, and whose each live block is. */
    ghost var held: set<Record>
    ghost var owners: Owners
    /** What was live before there were any processes. */
    ghost const others: set<Ptr>
    ghost var Repr: set<object>

    constructor (m: Memory)
      ensures Valid() && this.m == m && processes == [] && ended == null && others == m.live && fresh(Repr - {m})
    {
      this.m := m;
      processes := [];
      ended := null;
      held := {};
      owners := map p | p in m.live :: Others;
      others := m.live;
      Repr := {m};
    }

    ghost predicate Valid()
      reads this, Repr
    {
      && m in Repr && this !in Repr
      && (forall i, j :: 0 <= i < j < |processes| ==> processes[i] != processes[j])
      && ended !in processes
      && (forall i :: 0 <= i < |processes| ==> processes[i] in held)
      && (ended != null ==> ended in held)
      && (forall r :: r in held ==> r in processes || r == ended)
      && owners.Keys == m.live
      && (forall p :: p in others <==> p in owners && owners[p] == Others)
      && (forall p :: p in owners && owners[p].Own? ==> owners[p].r in held)
      && (forall r :: r in held ==> r in Repr && Intact(r, Repr, PartOf(owners, r)))
    }

    /** One record gets one more list node, if there is memory for it; all others stay as they are. */
    method Grow(r: Record) returns (ghost more: set<Ptr>)
      requires Valid() && r in held
      modifies Repr
      ensures more !! old(m.live) && m.live == old(m.live) + more
      ensures (more == {} <==> m.refusals > old(m.refusals)) && (more != {} ==> exists node :: more == {node})
      ensures forall q :: q in held && q != r ==> Intact(q, Repr, PartOf(owners, q))
      ensures Intact(r, Repr, PartOf(owners, r) + more)
    {
      hide PartOf, Given, Record.Apart, Record.Footprint;
      IntactParts(r, Repr, PartOf(owners, r));
      GivenParts(owners, r, {});
      more := AddWaiter(m, r);
      forall q | q in held && q != r ensures Intact(q, Repr, PartOf(owners, q)) {
        assert old(Intact(q, Repr, PartOf(owners, q)));
      }
    }

    /** waitProcess, as far as memory goes: process i gets one more waiter, if there is memory for it. */
    method Wait(i: nat)
      requires Valid() && i < |processes|
      modifies this`owners, Repr
      ensures Valid() && Repr == old(Repr) && processes == old(processes) && ended == old(ended) && held == old(held)
      ensures m.refusals > old(m.refusals) ==> m.live == old(m.live) && owners == old(owners)
      ensures m.refusals <= old(m.refusals) ==> exists node ::
                && node !in old(m.live) && m.live == old(m.live) + {node}
                && PartOf(owners, processes[i]) == PartOf(old(owners), processes[i]) + {node}
    {
      hide Intact, PartOf, Given;
      var r := processes[i];
      ghost var more := Grow(r);
      GivenParts(owners, r, more);
      GivenOwners(owners, r, more);
      owners := Given(owners, r, more);
    }

    /** The record of a process that is not listed any more and does not run is released: no block twice, none missed. */
    method Release(r: Record)
      requires Valid() && r in held
      modifies Repr
      ensures PartOf(owners, r) <= old(m.live) && m.live == old(m.live) - PartOf(owners, r)
      ensures forall q :: q in held && q != r ==> Intact(q, Repr, PartOf(owners, q))
    {
      hide PartOf, Given, Record.Apart, Record.Footprint;
      IntactParts(r, Repr, PartOf(owners, r));
      GivenParts(owners, r, {});
      FreeProcess(m, r);
      forall q | q in held && q != r ensures Intact(q, Repr, PartOf(owners, q)) {
        assert old(Intact(q, Repr, PartOf(owners, q)));
      }
    }

    /** What Release leaves is again in order, once the record is off the books. */
    ghost method StrikeOff(r: Record)
      requires r in held && PartOf(owners, r) <= owners.Keys
      modifies this`owners, this`held
      ensures held == old(held) - {r} && owners.Keys == old(owners.Keys) - PartOf(old(owners), r)
      ensures forall q :: q != r ==> PartOf(owners, q) == PartOf(old(owners), q)
      ensures forall p :: p in owners ==> owners[p] != Own(r) && owners[p] == old(owners)[p]
      ensures forall p :: p in old(owners) && old(owners)[p] == Others ==> p in owners
    {
      TakenParts(owners, r);
      owners := owners - PartOf(owners, r);
      held := held - {r};
    }

    /**
     kill of process i: its record is released at once, or at the next tick if it is the running process. (There is at
     most one that waits for the tick, because a killed process is not running again.)
     */
    method Kill(i: nat, running: bool)
      requires Valid() && i < |processes| && (running ==> ended == null)
      modifies this, Repr
      ensures Valid() && Repr == old(Repr)
      ensures processes == old(processes)[..i] + old(processes)[i + 1..]
      ensures ended == if running then old(processes)[i] else old(ended)
      ensures m.live == old(m.live) - if running then {} else PartOf(old(owners), old(processes)[i])
    {
      hide Intact, PartOf;
      var r := processes[i];
      RestOf(processes, i);
      if running {
        ended := r;
      } else {
        Release(r);
        StrikeOff(r);
      }
      processes := processes[..i] + processes[i + 1..];
    }

    /** schedule, when it finds the running process killed. */
    method Tick()
      requires Valid()
      modifies this, Repr
      ensures Valid() && Repr == old(Repr) && processes == old(processes) && ended == null
      ensures m.live == old(m.live) - if old(ended) == null then {} else PartOf(old(owners), old(ended))
    {
      hide Intact, PartOf;
      if ended != null {
        var r := ended;
        Release(r);
        StrikeOff(r);
        ended := null;
      }
    }

    /** A new record, if all of its requests are granted; all others stay as they are. */
    method Admit(full: bool, pidFree: bool, args: Args, argc: int) 
      returns (r: Record?, ghost R: set<object>, ghost more: set<Ptr>)
      requires Valid() && (args.Args? ==> argc <= |args.entries|)
      modifies m
      ensures r == null ==> R == Repr && m.live == old(m.live)
      ensures r != null ==> r.argv != null && R == Repr + {r, r.argv.slots} && fresh(r) && fresh(r.argv.slots)
      ensures r != null ==> Intact(r, R, more) && more !! old(m.live) && m.live == old(m.live) + more
      ensures r == null <==> full || !pidFree || !Copyable(args, argc) || m.refusals > old(m.refusals)
      ensures forall q :: q in held ==> Intact(q, R, PartOf(owners, q))
    {
      hide PartOf, Record.Apart, Record.Footprint;
      r := CreateProcess(m, full, pidFree, args, argc);
      R := if r == null then Repr else Repr + {r, r.argv.slots};
      more := if r == null then {} else r.Footprint();
      forall q | q in held ensures Intact(q, R, PartOf(owners, q)) {
        assert old(Intact(q, Repr, PartOf(owners, q)));
      }
    }

    /** createProcess, whatever requests are refused. */
    method Create(full: bool, pidFree: bool, args: Args, argc: int)
      requires Valid() && (args.Args? ==> argc <= |args.entries|)
      modifies this, Repr
      ensures Valid() && fresh(Repr - old(Repr)) && old(Repr) <= Repr && ended == old(ended)
      ensures old(processes) <= processes && |processes| <= |old(processes)| + 1
      ensures processes == old(processes) <==> full || !pidFree || !Copyable(args, argc) || m.refusals > old(m.refusals)
      ensures processes == old(processes) ==> m.live == old(m.live)
      ensures processes != old(processes) ==>
                && fresh(processes[|old(processes)|]) && PartOf(owners, processes[|old(processes)|]) !! old(m.live)
                && m.live == old(m.live) + PartOf(owners, processes[|old(processes)|])
    {
      hide Intact, PartOf, Given, Record.Apart, Record.Footprint;
      ghost var R: set<object>;
      ghost var more: set<Ptr>;
      var r: Record?;
      r, R, more := Admit(full, pidFree, args, argc);
      if r != null {
        NobodyOwns(owners, held, r);
        GivenParts(owners, r, more);
        assert {} + more == more;
        GivenOwners(owners, r, more);
        processes := processes + [r];
        held := held + {r};
        owners := Given(owners, r, more);
        Repr := R;
      }
    }

    /** Any sequence of operations: the heap stays divided, and every freeProcess finds its record whole and live. */
    method Run(ops: seq<Op>)
      requires Valid() && forall k :: 0 <= k < |ops| ==> OpOk(ops[k])
      modifies this, Repr
      ensures Valid() && fresh(Repr - old(Repr))
      ensures processes == [] && ended == null ==> m.live == others
    {
      var k := 0;
      while k < |ops|
        invariant 0 <= k <= |ops| && Valid() && fresh(Repr - old(Repr))
      {
        match ops[k] {
          case CreateOp(full, pidFree, args, argc) => Create(full, pidFree, args, argc);
          case WaitOp(i) => if i < |processes| { Wait(i); }
          case KillOp(i, running) => if i < |processes| && (running ==> ended == null) { Kill(i, running); }
          case TickOp => Tick();
        }
        k := k + 1;
      }
    }
  }
}
