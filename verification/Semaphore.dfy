/** The kernel semaphore: a counter and a linked list of heap cells that hold the waiting pids. */
module Semaphore {
  import opened DoublyLinkedList
  import opened SemaphoreSpec

  /** The pids in the cells that these pointers name. */
  function PidsAt(cells: map<Ptr, Pid>, ps: seq<Ptr>): (r: seq<Pid>)
    ensures |r| == |ps|
  {
    seq(|ps|, i requires 0 <= i < |ps| => if ps[i] in cells then cells[ps[i]] else 0)
  }

  /** The pointers whose cells hold live pids, in order. */
  function KeepLive(cells: map<Ptr, Pid>, ps: seq<Ptr>, live: set<Pid>): seq<Ptr> {
    if ps == [] then []
    else (if ps[0] in cells && cells[ps[0]] in live then [ps[0]] else []) + KeepLive(cells, ps[1..], live)
  }

  predicate NoDuplicates(ps: seq<Ptr>) {
    forall i, j :: 0 <= i < j < |ps| ==> ps[i] != ps[j]
  }

  class SemaphoreT {
    var counter: nat
    var waitQueue: List
    /** The heap cells of this semaphore's queue entries. */
    var cells: map<Ptr, Pid>

    ghost predicate Valid()
      reads this, waitQueue, waitQueue.Repr
    {
      && waitQueue.Valid() && this !in waitQueue.Repr
      && NoDuplicates(waitQueue.contents)
      && NULL !in waitQueue.contents
      // a cell whose list node was refused stays allocated, and nothing refers to it
      && (forall p :: p in waitQueue.contents ==> p in cells)
      && counter < TWO_32
    }

    ghost function Value(): Sem
      requires Valid()
      reads this, waitQueue, waitQueue.Repr
    {
      Sem(counter, PidsAt(cells, waitQueue.contents))
    }

    /** sem_create, of a semaphore that is not active. */
    constructor (initialValue: nat)
      requires initialValue < TWO_32
      ensures Valid() && fresh(waitQueue.Repr) && Value() == Sem(initialValue, [])
    {
      counter := initialValue;
      waitQueue := new List();
      cells := map[];
    }

    /**
     sem_wait. cell is what mm_alloc returned for the queue entry; `node` says whether addNode got its memory, and
     `listed` whether blockProcess got the list node that it needs. The caller is blocked at the end if `blocked`.
     Without either node it goes on as if its cell had been refused, but for the leaked cell and the result 0.
     */
    method Wait(currentPid: Pid, cell: Ptr, node: bool, listed: bool) returns (code: int, blocked: bool)
      requires Valid() && cell !in cells
      modifies this, waitQueue.Repr
      ensures Valid() && waitQueue == old(waitQueue) && fresh(waitQueue.Repr - old(waitQueue.Repr))
      ensures var g := if cell == NULL || (!node && !listed) then NoCell
                       else if !node then NoNode
                       else if !listed then NoBlock
                       else Granted;
              var (s, r) := SemaphoreSpec.Wait(old(Value()), currentPid, g);
              Value() == s && blocked == !GoesOn(r)
      ensures code == if old(counter) == 0 && cell == NULL then -1 else 0
      ensures cells == if old(counter) == 0 && cell != NULL then old(cells)[cell := currentPid] else old(cells)
    {
      if counter > 0 {
        counter := counter - 1;
        return 0, false;
      }
      if cell == NULL {
        return -1, false;
      }
      ghost var before := waitQueue.contents;
      ghost var cellsBefore := cells;
      cells := cells[cell := currentPid];
      var added := waitQueue.AddNode(cell, node);
      if node {
        PidsAppend(cellsBefore, before, cell, currentPid);
      } else {
        PidsFrame(cellsBefore, cells, before);
      }
      return 0, listed;
    }

    /** Unlinks and frees the entry that the cursor has just passed; the cursor stays on a linked node. */
    method DropPassed(pid: Ptr, ghost k: nat)
      requires Valid() && k < |waitQueue.contents| && waitQueue.contents[k] == pid && waitQueue.CursorAt(k + 1)
      modifies this`cells, waitQueue.Repr
      ensures Valid() && cells == old(cells) - {pid}
      ensures waitQueue.contents == RemoveAt(old(waitQueue.contents), k)
      ensures waitQueue.Repr == old(waitQueue.Repr) && waitQueue.CursorAt(k)
    {
      FirstAt(waitQueue.contents, pid, k);
      RemoveOnce(waitQueue.contents, k);
      hide NextChain, PrevChain, Distinct, NoDuplicates;
      var removed := waitQueue.RemoveNode(pid);
      cells := cells - {pid};
    }

    /** One turn of sem_post's purge loop: kept is what earlier turns left, rest[0] is next in line. */
    method VisitNext(live: set<Pid>, ghost kept: seq<Ptr>, ghost rest: seq<Ptr>)
      requires Valid() && rest != [] && waitQueue.contents == kept + rest && waitQueue.CursorAt(|kept|)
      modifies this`cells, waitQueue.Repr
      ensures Valid() && waitQueue.Repr == old(waitQueue.Repr)
      ensures rest[0] in old(cells)
      ensures var kept' := if old(cells)[rest[0]] in live then kept + [rest[0]] else kept;
              waitQueue.contents == kept' + rest[1..] && waitQueue.CursorAt(|kept'|)
      ensures forall p :: p in cells ==> p in old(cells) && cells[p] == old(cells)[p]
    {
      PassOne(kept, rest);
      var pid := waitQueue.NextInList(|kept|);
      if cells[pid] !in live {
        DropPassed(pid, |kept|);
      }
    }

    /** The loop of sem_post that unlinks and frees the entries of dead processes while it iterates. */
    method PurgeDead(live: set<Pid>)
      requires Valid()
      modifies this`cells, waitQueue.Repr
      ensures Valid() && waitQueue.Repr == old(waitQueue.Repr)
      ensures waitQueue.contents == KeepLive(old(cells), old(waitQueue.contents), live)
      ensures forall p :: p in cells ==> p in old(cells) && cells[p] == old(cells)[p]
    {
      ghost var kept: seq<Ptr>, rest := [], waitQueue.contents;
      waitQueue.ToBegin();
      var more := waitQueue.HasNext();
      while more
        invariant Valid() && waitQueue.Repr == old(waitQueue.Repr)
        invariant forall p :: p in cells ==> p in old(cells) && cells[p] == old(cells)[p]
        invariant waitQueue.contents == kept + rest
        // the cursor stands on a node that is still linked, or at the end
        invariant waitQueue.CursorAt(|kept|)
        invariant kept + KeepLive(old(cells), rest, live) == KeepLive(old(cells), old(waitQueue.contents), live)
        invariant more == (rest != [])
        decreases |rest|
      {
        VisitNext(live, kept, rest);
        KeepLiveNext(old(cells), kept, rest, live);
        if old(cells)[rest[0]] in live {
          kept := kept + [rest[0]];
        }
        rest := rest[1..];
        more := waitQueue.HasNext();
      }
    }

    /** Unlinks the first entry, reads its pid and frees its cell. */
    method PopFirst() returns (pid: Ptr, waitingPid: Pid)
      requires Valid() && waitQueue.contents != []
      modifies this`cells, waitQueue.Repr
      ensures Valid() && waitQueue.Repr == old(waitQueue.Repr)
      ensures pid != NULL && Value().queue == old(Value().queue)[1..] && waitingPid == old(Value().queue)[0]
    {
      ghost var kept := waitQueue.contents;
      pid := waitQueue.GetFirstData();
      assert pid == kept[0] && pid in kept && forall i :: 1 <= i < |kept| ==> kept[i] != pid;
      assert pid !in waitQueue.contents;
      var again := waitQueue.RemoveNode(pid);
      waitingPid := cells[pid];
      PidsTail(cells, kept);
      cells := cells - {pid};
    }

    /** sem_post; live are the pids findProcess would find. */
    method Post(live: set<Pid>) returns (woken: Option<Pid>)
      requires Valid()
      modifies this, waitQueue.Repr
      ensures Valid() && waitQueue == old(waitQueue) && waitQueue.Repr == old(waitQueue.Repr)
      ensures (Value(), woken) == SemaphoreSpec.Post(old(Value()), live)
    {
      hide NextChain, PrevChain, Distinct;
      PurgeDead(live);
      KeepLivePids(old(cells), old(waitQueue.contents), live);
      PidsFrame(old(cells), cells, waitQueue.contents);
      assert Value() == Sem(old(counter), Purge(old(Value()).queue, live));
      var empty := waitQueue.IsEmpty();
      if !empty {
        var pid, waitingPid := PopFirst();
        if pid != NULL {
          return Some(waitingPid);
        }
      }
      counter := (counter + 1) % TWO_32;
      return None;
    }
  }

  lemma RemoveOnce(ps: seq<Ptr>, k: nat)
    requires NoDuplicates(ps) && k < |ps|
    ensures NoDuplicates(RemoveAt(ps, k))
    ensures forall p :: p in RemoveAt(ps, k) <==> p in ps && p != ps[k]
  {
    forall p | p in ps && p != ps[k] ensures p in RemoveAt(ps, k) {
      var i :| 0 <= i < |ps| && ps[i] == p;
      assert RemoveAt(ps, k)[if i < k then i else i - 1] == p;
    }
  }

  /** Dropping or keeping the element between what was kept and what is still to visit. */
  lemma PassOne(kept: seq<Ptr>, rest: seq<Ptr>)
    requires rest != []
    ensures RemoveAt(kept + rest, |kept|) == kept + rest[1..]
    ensures kept + rest == (kept + [rest[0]]) + rest[1..]
    ensures (kept + rest)[|kept|] == rest[0]
  {
  }

  lemma PidsAppend(cells: map<Ptr, Pid>, ps: seq<Ptr>, p: Ptr, pid: Pid)
    requires p !in ps
    ensures PidsAt(cells[p := pid], ps + [p]) == PidsAt(cells, ps) + [pid]
  {
  }

  lemma PidsTail(cells: map<Ptr, Pid>, ps: seq<Ptr>)
    requires NoDuplicates(ps) && ps != []
    ensures PidsAt(cells - {ps[0]}, ps[1..]) == PidsAt(cells, ps)[1..]
  {
  }

  lemma KeepLiveNext(cells: map<Ptr, Pid>, kept: seq<Ptr>, rest: seq<Ptr>, live: set<Pid>)
    requires rest != [] && rest[0] in cells
    ensures kept + KeepLive(cells, rest, live)
         == (if cells[rest[0]] in live then kept + [rest[0]] else kept) + KeepLive(cells, rest[1..], live)
  {
  }

  /** Purging the list of cells is purging the queue of pids. */
  lemma {:induction false} KeepLivePids(cells: map<Ptr, Pid>, ps: seq<Ptr>, live: set<Pid>)
    requires forall i :: 0 <= i < |ps| ==> ps[i] in cells
    ensures PidsAt(cells, KeepLive(cells, ps, live)) == Purge(PidsAt(cells, ps), live)
    decreases |ps|
  {
    if ps != [] {
      KeepLivePids(cells, ps[1..], live);
      assert PidsAt(cells, ps)[1..] == PidsAt(cells, ps[1..]);
      if cells[ps[0]] in live {
        assert KeepLive(cells, ps, live) == [ps[0]] + KeepLive(cells, ps[1..], live);
        assert PidsAt(cells, KeepLive(cells, ps, live)) == [cells[ps[0]]] + PidsAt(cells, KeepLive(cells, ps[1..], live));
      }
    }
  }

  lemma PidsFrame(cells: map<Ptr, Pid>, cells': map<Ptr, Pid>, ps: seq<Ptr>)
    requires forall p :: p in ps ==> p in cells && p in cells' && cells'[p] == cells[p]
    ensures PidsAt(cells', ps) == PidsAt(cells, ps)
  {
  }
}
