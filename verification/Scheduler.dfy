/**
 The kernel's scheduler, changed step by step. Process records live in a heap keyed by address, so that a record
 that was freed is gone from it and every access below is to a record that is still there.
 */
module SchedulerClass {
  import L = DoublyLinkedList
  import S = SchedulerSpec
  import opened SchedulerProofs

  type Ptr = S.Ptr

  class Scheduler {
    var heap: map<Ptr, S.Process>
    var processList: seq<Ptr>
    var readyProcess: seq<Ptr>
    var blockedProcess: seq<Ptr>
    var currentPid: int
    var currentProcess: Ptr
    var processQty: int
    var quantums: int

    ghost function Value(): S.Sched
      reads this
    {
      S.Sched(heap, processList, readyProcess, blockedProcess, currentProcess, currentPid, processQty, quantums)
    }

    /** createScheduler; idle's record is at ptr. */
    constructor (ptr: Ptr, stack: int)
      requires ptr != S.NULL
      ensures Inv(Value()) && Value() == S.Boot(ptr, stack)
    {
      heap := map[];
      processList, readyProcess, blockedProcess := [], [], [];
      currentPid := S.NO_PROCESS;
      currentProcess := S.NULL;
      processQty := 0;
      quantums := 1;
      new;
      assert S.FindProcess(Value(), 0) == S.NULL;
      var pid := CreateProcess(S.MIN_PRIORITY, -1, -1, 1, ptr, true, stack, true, true);
      BootInv(ptr, stack);
    }

    method FindProcess(pid: int) returns (p: Ptr)
      requires TableOk(Value())
      ensures p == S.FindProcess(Value(), pid)
    {
      var i := 0;
      while i < |processList|
        invariant 0 <= i <= |processList|
        invariant S.Find(heap, processList, pid) == S.Find(heap, processList[i..], pid)
      {
        var aux := processList[i];
        assert Member(Value(), aux);
        if heap[aux].pid == pid {
          return aux;
        }
        i := i + 1;
      }
      return S.NULL;
    }

    method PipedTo(fd: int) returns (p: Ptr)
      requires TableOk(Value())
      ensures p == S.PipedTo(heap, processList, fd)
    {
      var i := 0;
      while i < |processList|
        invariant 0 <= i <= |processList|
        invariant S.PipedTo(heap, processList, fd) == S.PipedTo(heap, processList[i..], fd)
      {
        var aux := processList[i];
        assert Member(Value(), aux);
        if heap[aux].stdin == fd || heap[aux].stdout == fd {
          return aux;
        }
        i := i + 1;
      }
      return S.NULL;
    }

    // -------------------------------------------------------------- context switches

    method Run(p: Ptr) returns (rsp: int)
      requires p in heap
      modifies this
      ensures (Value(), rsp) == S.RunProcess(old(Value()), p)
    {
      currentProcess := p;
      currentPid := heap[p].pid;
      quantums := heap[p].priority;
      heap := heap[p := heap[p].(status := S.Running)];
      rsp := heap[p].stackPos;
    }

    method RetireCurrent(prevRSP: int, node: bool)
      requires Stopping(Value())
      modifies this
      ensures var r := S.Retire(old(Value()), prevRSP); Value() == if node then r else r.(ready := old(readyProcess))
      ensures TableOk(Value()) && forall x :: x in readyProcess ==> x in heap && x != S.NULL
    {
      RetireRests(Value(), prevRSP);
      RestIsSafe(S.Retire(Value(), prevRSP));
      RetireAppends(Value(), prevRSP);
      assert currentProcess != S.NULL ==> currentProcess in heap;
      ghost var r := S.Retire(Value(), prevRSP);
      SamePids(r, r.(ready := readyProcess));
      hide Stopping, AtRest, S.Retire;
      StopCurrent(prevRSP, node);
    }

    /** What schedule does to the process that it takes off the processor. */
    method StopCurrent(prevRSP: int, node: bool)
      requires currentProcess != S.NULL ==> currentProcess in heap
      modifies this
      ensures var r := S.Retire(old(Value()), prevRSP); Value() == if node then r else r.(ready := old(readyProcess))
    {
      if currentProcess != S.NULL {
        if heap[currentProcess].status == S.Terminated {
          heap := heap - {currentProcess};
          currentProcess := S.NULL;
          currentPid := S.NO_PROCESS;
        } else {
          heap := heap[currentProcess := heap[currentProcess].(stackPos := prevRSP)];
          if heap[currentProcess].status == S.Running {
            heap := heap[currentProcess := heap[currentProcess].(status := S.Ready)];
            if node {
              readyProcess := readyProcess + [currentProcess];
            }
          }
        }
      }
    }

    /** `node` says whether addNode gets its memory, if it is called. */
    method Schedule(prevRSP: int, node: bool) returns (rsp: int)
      requires Stopping(Value()) && (S.Switches(Value()) || Inv(Value()))
      modifies this
      ensures (Value(), rsp) == if node then S.Tick(old(Value()), prevRSP) else S.TickRefused(old(Value()), prevRSP)
      ensures node ==> Inv(Value())
    {
      hide InvBut, Stopping, AtRest, TableOk, S.Retire, S.FindProcess;
      if S.Switches(Value()) {
        SwitchKeeps(Value(), prevRSP);
        QuantumOff(Value());
      } else {
        TickKeeps(Value(), prevRSP);
      }
      quantums := quantums - 1;
      if processQty == 0 || quantums > 0 {
        return prevRSP;
      }
      RetireRests(Value(), prevRSP);
      var first: Ptr;
      if currentPid == S.NO_PROCESS {
        NothingToRetire(Value(), prevRSP);
        RestIsSafe(Value());
        first := PopReady();
        currentProcess := first;
        if first == S.NULL {
          return prevRSP;
        }
        rsp := Run(first);
        return;
      }
      RetireCurrent(prevRSP, node);
      first := PopReady();
      if first == S.NULL {
        first := FindProcess(S.IDLE_PID);
        if first == S.NULL {
          return prevRSP;
        }
        Finds(Value(), S.IDLE_PID);
      }
      rsp := Run(first);
    }

    /** getFirstData on the ready list. */
    method PopReady() returns (p: Ptr)
      requires forall x :: x in readyProcess ==> x in heap && x != S.NULL
      modifies this`readyProcess
      ensures readyProcess == if old(readyProcess) == [] then [] else old(readyProcess)[1..]
      ensures p == if old(readyProcess) == [] then S.NULL else old(readyProcess)[0]
    {
      if |readyProcess| == 0 {
        return S.NULL;
      }
      p := readyProcess[0];
      readyProcess := L.RemoveFirst(readyProcess, p);
    }

    // -------------------------------------------------------------- operations

    /**
     ptr is where mm_alloc put the record, or NULL; initialised says whether initializeProcess got its memory, and inList
     and inReady whether the two list nodes got theirs.
     */
    method CreateProcess(priority: nat, stdin: int, stdout: int, ground: int, ptr: Ptr, initialised: bool, stack: int,
                         inList: bool, inReady: bool)
      returns (r: int)
      requires TableOk(Value()) && ptr !in heap
      modifies this
      ensures var (t, pid) :=
                S.Create(old(Value()), priority, stdin, stdout, ground, if initialised then ptr else S.NULL, stack);
              Value() == S.Relist(old(Value()), t, inList, inReady) && r == pid
    {
      if processQty >= S.MAX_PROCESS {
        return -1;
      }
      if ptr == S.NULL {
        return -1;
      }
      ghost var start := Value();
      heap := heap[ptr := S.Process(0, 0, S.Ready, 0, 0, 0, 0, [])];
      SamePids(start, Value());
      var pid := LowestFreePid();
      if pid == S.MAX_PROCESS {
        heap := heap - {ptr};
        assert heap == start.heap;
        return -1;
      }
      if !initialised {
        heap := heap - {ptr};
        assert heap == start.heap;
        return -1;
      }
      AddProcess(start, ptr, S.Process(pid, priority, S.Ready, stdin, stdout, ground, stack, []), inList, inReady);
      return pid;
    }

    /** createProcess's last steps, on a record that is blank so far. */
    method AddProcess(ghost start: S.Sched, ptr: Ptr, p: S.Process, inList: bool, inReady: bool)
      requires ptr in heap && ptr !in start.heap && Value() == start.(heap := start.heap[ptr := heap[ptr]])
      modifies this
      ensures Value() == S.Relist(start, Joined(start, ptr, p), inList, inReady)
    {
      heap := heap[ptr := p];
      assert heap == start.heap[ptr := p];
      if inList {
        processList := processList + [ptr];
      }
      if inReady {
        readyProcess := readyProcess + [ptr];
      }
      processQty := processQty + 1;
    }

    /** createProcess's search for a pid; 30 if all are taken. */
    method LowestFreePid() returns (pid: nat)
      requires TableOk(Value())
      ensures pid == S.FreePid(Value(), 0)
    {
      pid := 0;
      while pid < S.MAX_PROCESS
        invariant 0 <= pid <= S.MAX_PROCESS
        invariant S.FreePid(Value(), 0) == S.FreePid(Value(), pid)
      {
        var other := FindProcess(pid);
        if other == S.NULL {
          break;
        }
        pid := pid + 1;
      }
    }

    /** `granted` says whether addNode gets its memory, if it is called. */
    method SetReadyProcess(pid: int, granted: bool) returns (r: int)
      requires TableOk(Value())
      modifies this
      ensures (Value(), r) == if granted then S.SetReady(old(Value()), pid) else S.SetReadyRefused(old(Value()), pid)
    {
      Finds(Value(), pid);
      var p := FindProcess(pid);
      if p == S.NULL {
        return -1;
      }
      if heap[p].status == S.Blocked {
        if p !in blockedProcess {
          return -1;
        }
        blockedProcess := L.RemoveFirst(blockedProcess, p);
        if !granted {
          return -1;
        }
        readyProcess := readyProcess + [p];
        heap := heap[p := heap[p].(status := S.Ready)];
      }
      return 0;
    }

    method BlockProcess(pid: int, prevRSP: int, granted: bool) returns (r: int)
      requires Inv(Value()) && pid != S.IDLE_PID
      modifies this
      ensures granted ==> (Value(), r) == S.Block(old(Value()), pid, prevRSP) && Inv(Value())
      ensures !granted ==> (Value(), r) == S.BlockRefused(old(Value()), pid, prevRSP)
    {
      hide InvBut, Stopping, TableOk, S.FindProcess, S.Yield, L.RemoveFirst;
      BlockKeeps(Value(), pid, prevRSP);
      InvSafe(Value());
      Finds(Value(), pid);
      var p := FindProcess(pid);
      if p == S.NULL {
        return -1;
      }
      BlockStops(Value(), p);
      ListedRight(Value(), p);
      var listed := MoveToBlocked(p, granted);
      if !listed {
        return -1;
      }
      if currentPid == pid {
        Yield(prevRSP);
      }
      return 0;
    }

    /** blockProcess's change of lists and status; false where it returns -1. */
    method MoveToBlocked(p: Ptr, granted: bool) returns (ok: bool)
      requires p in heap
      modifies this
      ensures granted ==> (ok <==> old(heap[p].status == S.Ready ==> p in readyProcess))
      ensures !granted ==> (ok <==> old(heap[p].status) != S.Ready && old(heap[p].status) != S.Running)
      ensures ok ==> Value() == S.MarkBlocked(old(Value()), p)
      ensures !ok ==> Value() == if !granted && old(heap[p].status) == S.Ready
                                 then old(Value()).(ready := L.RemoveFirst(old(readyProcess), p)) else old(Value())
    {
      if heap[p].status == S.Running || heap[p].status == S.Ready {
        if heap[p].status == S.Ready {
          if p !in readyProcess {
            return false;
          }
          readyProcess := L.RemoveFirst(readyProcess, p);
        }
        if !granted {
          return false;
        }
        blockedProcess := blockedProcess + [p];
        heap := heap[p := heap[p].(status := S.Blocked)];
      }
      return true;
    }

    method Yield(prevRSP: int)
      requires Stopping(Value())
      modifies this
      ensures Value() == S.Yield(old(Value()), prevRSP) && Inv(Value())
    {
      SomeProcess(Value());
      hide InvBut, Stopping;
      QuantumStops(Value());
      quantums := 0;
      var rsp := Schedule(prevRSP, true);
    }

    /** kill; what the freed entries of the waiting list hold is read from junk. */
    method Kill(p: Ptr, junk: S.Junk) returns (r: int)
      requires Inv(Value()) && Member(Value(), p)
      modifies this
      ensures (Value(), r) == S.Kill(old(Value()), p, junk)
    {
      ghost var s := Value();
      DequeueKeeps(s, p);
      EmptiedKeeps(s, p, junk);
      hide InvBut, S.WakeFrom, SameButStatus, WakesOnly, S.Dequeue;
      var listed := LeaveQueue(p);
      if !listed {
        return -1;
      }
      WakeWaiters(heap[p].waiting, junk, p);
      assert Value() == Emptied(s, p, junk);
      if p !in processList {
        return -1;
      }
      RemoveProcess(p);
      return 0;
    }

    method RemoveProcess(p: Ptr)
      requires p in heap
      modifies this
      ensures Value() == S.Unlist(old(Value()), p)
    {
      processList := L.RemoveFirst(processList, p);
      heap := heap[p := heap[p].(status := S.Terminated)];
      processQty := processQty - 1;
      if currentProcess != p {
        heap := heap - {p};
        assert heap == old(heap) - {p};
      }
    }

    /** Takes a process that is about to end off the ready or the blocked list. */
    method LeaveQueue(p: Ptr) returns (ok: bool)
      requires p in heap
      modifies this`readyProcess, this`blockedProcess
      ensures ok ==> Value() == S.Dequeue(old(Value()), p)
      ensures !ok ==> Value() == old(Value())
      ensures ok <==> (heap[p].status == S.Ready ==> p in old(readyProcess)) && (heap[p].status == S.Blocked ==> p in old(blockedProcess))
    {
      if heap[p].status == S.Ready {
        if p !in readyProcess {
          return false;
        }
        readyProcess := L.RemoveFirst(readyProcess, p);
      } else if heap[p].status == S.Blocked {
        if p !in blockedProcess {
          return false;
        }
        blockedProcess := L.RemoveFirst(blockedProcess, p);
      }
      return true;
    }

    method WakeWaiters(waitingList: seq<Ptr>, junk: S.Junk, ghost ending: Ptr)
      requires InvBut(Value(), ending)
      modifies this
      ensures Value() == S.WakeFrom(old(Value()), waitingList, 0, junk)
    {
      hide InvBut, TableOk;
      var i := 0;
      while i < |waitingList|
        invariant 0 <= i <= |waitingList|
        invariant InvBut(Value(), ending)
        invariant S.WakeFrom(Value(), waitingList, i, junk) == S.WakeFrom(old(Value()), waitingList, 0, junk)
      {
        var aux := waitingList[i];
        if aux != S.NULL {
          var pid := if aux in heap then heap[aux].pid else junk(i);
          SetReadyKeeps(Value(), ending, pid);
          TableHolds(Value(), ending);
          hide S.SetReady;
          var woken := SetReadyProcess(pid, true);
        }
        i := i + 1;
      }
    }

    method KillProcess(pid: int, junk: S.Junk, junk2: S.Junk) returns (r: int)
      requires Inv(Value()) && pid != S.IDLE_PID
      modifies this
      ensures (Value(), r) == S.KillProcess(old(Value()), pid, junk, junk2) && Inv(Value())
    {
      hide InvBut, TableOk, S.FindProcess;
      KillProcessKeeps(Value(), pid, junk, junk2);
      InvSafe(Value());
      Finds(Value(), pid);
      var p := FindProcess(pid);
      if p == S.NULL {
        return -1;
      }
      KillKeeps(Value(), p, junk);
      KillSucceeds(Value(), p, junk);
      var fd := S.PipedFd(heap[p]);
      r := Kill(p, junk);
      if r == -1 {
        return -1;
      }
      if fd != -1 {
        InvSafe(Value());
        PipedToIs(heap, processList, fd);
        var aux := PipedTo(fd);
        if aux != S.NULL {
          assert Member(Value(), aux);
          r := Kill(aux, junk2);
          return;
        }
      }
      return 0;
    }

    method KillCurrentProcess(junk: S.Junk, junk2: S.Junk) returns (r: int)
      requires Inv(Value()) && currentProcess != S.NULL && currentPid != S.IDLE_PID
      modifies this
      ensures (Value(), r) == S.KillProcess(old(Value()), old(currentPid), junk, junk2) && Inv(Value())
    {
      r := KillProcess(heap[currentProcess].pid, junk, junk2);
    }

    method KillForegroundProcess(junk: S.Junk, junk2: S.Junk) returns (r: int)
      requires Inv(Value())
      modifies this
      ensures (Value(), r) == S.KillForeground(old(Value()), junk, junk2) && Inv(Value())
    {
      hide InvBut, TableOk;
      KillForegroundKeeps(Value(), junk, junk2);
      InvSafe(Value());
      if currentProcess == S.NULL {
        return -1;
      }
      if heap[currentProcess].ground == 0 && heap[currentProcess].pid != S.SHELL_PID {
        r := KillCurrentProcess(junk, junk2);
        return;
      }
      var i := 0;
      while i < |processList|
        invariant 0 <= i <= |processList| && Value() == old(Value())
        invariant S.Foreground(heap, processList) == S.Foreground(heap, processList[i..])
      {
        var aux := processList[i];
        assert Member(Value(), aux);
        assert aux in heap;
        if heap[aux].ground == 0 && heap[aux].pid != S.SHELL_PID {
          r := Kill(aux, junk);
          return;
        }
        i := i + 1;
      }
      return 0;
    }

    // -------------------------------------------------------------- operations of process.c

    /** `node` says whether the entry in the waiting list gets its memory. */
    /** `node` says whether the waiting list got its node, and `listed` whether blockProcess did. */
    method WaitProcess(pid: int, prevRSP: int, node: bool, listed: bool) returns (r: int)
      requires Inv(Value()) && currentPid != S.IDLE_PID
      modifies this
      ensures listed ==> (Value(), r) == S.WaitFor(old(Value()), pid, prevRSP, node) && Inv(Value())
      ensures !listed ==> (Value(), r) == S.WaitForPassed(old(Value()), pid, prevRSP, node)
    {
      hide InvBut, TableOk, S.FindProcess;
      WaitForKeeps(Value(), pid, prevRSP, node);
      InvSafe(Value());
      Finds(Value(), pid);
      var pcb := FindProcess(pid);
      if pcb == S.NULL || currentPid == pid {
        return -1;
      }
      var me := FindProcess(currentPid);
      EnlistKeeps(Value(), pid, node);
      if node {
        heap := heap[pcb := heap[pcb].(waiting := heap[pcb].waiting + [me])];
      }
      var blocked := BlockProcess(currentPid, prevRSP, listed);
      return 0;
    }

    method ChangePriority(pid: int, priority: nat) returns (r: int)
      requires Inv(Value())
      modifies this
      ensures (Value(), r) == S.ChangePriority(old(Value()), pid, priority) && Inv(Value())
    {
      hide InvBut, TableOk, S.FindProcess;
      ChangesKeep(Value(), pid, priority, 0, 0);
      InvSafe(Value());
      if priority > S.MAX_PRIORITY || priority < S.MIN_PRIORITY {
        return -1;
      }
      Finds(Value(), pid);
      var p := FindProcess(pid);
      if p == S.NULL {
        return -1;
      }
      heap := heap[p := heap[p].(priority := priority)];
      return priority;
    }

    method ChangeFileDescriptors(pid: int, stdin: int, stdout: int) returns (r: int)
      requires Inv(Value()) && pid != S.IDLE_PID
      modifies this
      ensures (Value(), r) == S.ChangeFds(old(Value()), pid, stdin, stdout) && Inv(Value())
    {
      hide InvBut, TableOk, S.FindProcess;
      ChangesKeep(Value(), pid, 0, stdin, stdout);
      InvSafe(Value());
      Finds(Value(), pid);
      var p := FindProcess(pid);
      if p == S.NULL {
        return -1;
      }
      heap := heap[p := heap[p].(stdin := stdin, stdout := stdout)];
      return 0;
    }
  }
}
