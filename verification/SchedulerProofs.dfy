/** What every operation of the scheduler keeps. */
module SchedulerProofs {
  import L = DoublyLinkedList
  import opened SchedulerSpec

  // ---------------------------------------------------------------- lists of addresses

  ghost predicate Distinct(q: seq<Ptr>) {
    forall i, j :: 0 <= i < j < |q| ==> q[i] != q[j]
  }

  lemma RemoveOk(q: seq<Ptr>, p: Ptr)
    requires Distinct(q)
    ensures Distinct(L.RemoveFirst(q, p))
    ensures forall x :: x in L.RemoveFirst(q, p) <==> x in q && x != p
    ensures |L.RemoveFirst(q, p)| == |q| - if p in q then 1 else 0
  {
    if p in q {
      var k := L.IndexOf(q, p);
      var r := L.RemoveAt(q, k);
      assert forall i :: 0 <= i < |q| && i != k ==> q[i] == r[if i < k then i else i - 1];
    }
  }

  lemma AppendOk(q: seq<Ptr>, p: Ptr)
    requires Distinct(q) && p !in q
    ensures Distinct(q + [p])
    ensures forall x :: x in q + [p] <==> x in q || x == p
  {
  }

  lemma PopOk(q: seq<Ptr>)
    requires Distinct(q) && q != []
    ensures Distinct(q[1..])
    ensures forall x :: x in q[1..] <==> x in q && x != q[0]
  {
    assert q == [q[0]] + q[1..];
  }

  // ---------------------------------------------------------------- the invariant

  ghost predicate ListsOk(s: Sched) {
    Distinct(s.procs) && Distinct(s.ready) && Distinct(s.blocked) && s.qty == |s.procs| <= MAX_PROCESS
  }

  ghost predicate Member(s: Sched, p: Ptr) {
    p in s.procs
  }

  /** Every listed process has a record with a pid of its own below 30, and is not terminated. */
  ghost predicate TableOk(s: Sched) {
    && NULL !in s.heap
    && (forall p :: Member(s, p) ==> p in s.heap && 0 <= s.heap[p].pid < MAX_PROCESS && s.heap[p].status != Terminated)
    && forall p, q :: Member(s, p) && Member(s, q) && p != q ==> s.heap[p].pid != s.heap[q].pid
  }

  /** The queues list exactly the processes whose status says so, except for `hole`. */
  ghost predicate QueuesOk(s: Sched, hole: Ptr) {
    && (forall p :: p in s.ready <==> Member(s, p) && p != hole && At(s.heap, p).status == Ready)
    && (forall p :: p in s.blocked <==> Member(s, p) && p != hole && At(s.heap, p).status == Blocked)
    && (forall p :: Member(s, p) && At(s.heap, p).status == Running ==> p == s.current)
  }

  /** The running process is listed as such, or it was killed and its record waits for the next tick. */
  ghost predicate CurrentOk(s: Sched) {
    if s.current == NULL then s.currentPid == NO_PROCESS
    else
      && s.current in s.heap && s.currentPid == s.heap[s.current].pid >= 0
      && if Member(s, s.current) then s.heap[s.current].status == Running
         else s.heap[s.current].status == Terminated && s.currentPid != IDLE_PID
  }

  /** No record is kept beyond the listed processes and a killed current one. */
  ghost predicate NoLeak(s: Sched) {
    forall p :: p in s.heap ==> Member(s, p) || p == s.current
  }

  predicate IdleLike(p: Process) {
    p.stdin == -1 && p.stdout == -1 && p.ground == 1 && (p.status == Ready || p.status == Running)
  }

  /** Process 0 exists, is never blocked, and looks like idle. */
  ghost predicate IdleOk(s: Sched) {
    && (forall p :: Member(s, p) && At(s.heap, p).pid == IDLE_PID ==> IdleLike(s.heap[p]))
    && exists p :: Member(s, p) && At(s.heap, p).pid == IDLE_PID
  }

  ghost predicate InvBut(s: Sched, hole: Ptr) {
    ListsOk(s) && TableOk(s) && QueuesOk(s, hole) && CurrentOk(s) && NoLeak(s) && IdleOk(s)
  }

  ghost predicate Inv(s: Sched) {
    InvBut(s, NULL)
  }

  // ---------------------------------------------------------------- searches

  lemma {:induction false} FindIs(heap: map<Ptr, Process>, procs: seq<Ptr>, pid: int)
    requires NULL !in procs
    ensures var p := Find(heap, procs, pid);
            if p == NULL then forall q :: q in procs ==> At(heap, q).pid != pid
            else p in procs && At(heap, p).pid == pid
  {
    if procs != [] {
      FindIs(heap, procs[1..], pid);
    }
  }

  lemma {:induction false} PipedToIs(heap: map<Ptr, Process>, procs: seq<Ptr>, fd: int)
    requires NULL !in procs
    ensures var p := PipedTo(heap, procs, fd);
            if p == NULL then forall q :: q in procs ==> At(heap, q).stdin != fd && At(heap, q).stdout != fd
            else p in procs && (At(heap, p).stdin == fd || At(heap, p).stdout == fd)
  {
    if procs != [] {
      PipedToIs(heap, procs[1..], fd);
    }
  }

  lemma {:induction false} ForegroundIs(heap: map<Ptr, Process>, procs: seq<Ptr>)
    requires NULL !in procs
    ensures var p := Foreground(heap, procs);
            if p == NULL then forall q :: q in procs ==> !InForeground(At(heap, q))
            else p in procs && InForeground(At(heap, p))
  {
    if procs != [] {
      ForegroundIs(heap, procs[1..]);
    }
  }

  /** A pid finds the one process that has it. */
  lemma Finds(s: Sched, pid: int)
    requires TableOk(s)
    ensures var p := FindProcess(s, pid);
            if p == NULL then forall q :: Member(s, q) ==> At(s.heap, q).pid != pid
            else Member(s, p) && p in s.heap && s.heap[p].pid == pid
  {
    assert !Member(s, NULL);
    FindIs(s.heap, s.procs, pid);
    assert forall q :: q in s.procs ==> Member(s, q);
  }

  lemma FindsThis(s: Sched, p: Ptr)
    requires TableOk(s) && Member(s, p)
    ensures FindProcess(s, At(s.heap, p).pid) == p
  {
    Finds(s, At(s.heap, p).pid);
  }

  // ---------------------------------------------------------------- one process changes status or fields

  /** The parts of the invariant that do not look at the queues survive a change of one record that keeps its pid. */
  lemma RecordKeeps(s: Sched, t: Sched, p: Ptr, c: Process)
    requires TableOk(s) && NoLeak(s) && IdleOk(s) && Member(s, p)
    requires t.procs == s.procs && t.heap == s.heap[p := c] && t.current == s.current
    requires c.pid == At(s.heap, p).pid && c.status != Terminated && (c.pid == IDLE_PID ==> IdleLike(c))
    ensures TableOk(t) && NoLeak(t) && IdleOk(t)
  {
    assert forall x :: Member(s, x) <==> Member(t, x);
  }

  lemma TableHolds(s: Sched, hole: Ptr)
    requires InvBut(s, hole)
    ensures TableOk(s)
  {
  }

  lemma SetReadyKeeps(s: Sched, hole: Ptr, pid: int)
    requires InvBut(s, hole)
    ensures InvBut(SetReady(s, pid).0, hole)
  {
    var p := FindProcess(s, pid);
    Finds(s, pid);
    hide FindProcess;
    if p in s.blocked {
      var t := SetReady(s, pid).0;
      RecordKeeps(s, t, p, At(s.heap, p).(status := Ready));
      ReadyQueues(s, hole, p);
      hide TableOk, NoLeak, IdleOk, ListsOk, QueuesOk, L.RemoveFirst;
    }
  }

  /** A process moves from the blocked list to the ready list. */
  lemma ReadyQueues(s: Sched, hole: Ptr, p: Ptr)
    requires ListsOk(s) && QueuesOk(s, hole) && p in s.blocked
    ensures var t := s.(heap := WithStatus(s.heap, p, Ready), blocked := L.RemoveFirst(s.blocked, p), ready := s.ready + [p]);
            ListsOk(t) && QueuesOk(t, hole) && forall x :: Member(t, x) <==> Member(s, x)
  {
    var t := s.(heap := WithStatus(s.heap, p, Ready), blocked := L.RemoveFirst(s.blocked, p), ready := s.ready + [p]);
    assert forall x :: Member(t, x) <==> Member(s, x);
    RemoveOk(s.blocked, p);
    AppendOk(s.ready, p);
  }

  lemma MarkBlockedReady(s: Sched, p: Ptr)
    requires Inv(s) && p in s.ready && At(s.heap, p).pid != IDLE_PID
    ensures Inv(MarkBlocked(s, p))
  {
    var t := MarkBlocked(s, p);
    RecordKeeps(s, t, p, At(s.heap, p).(status := Blocked));
    RemoveOk(s.ready, p);
    AppendOk(s.blocked, p);
  }

  // ---------------------------------------------------------------- context switches

  /** As CurrentOk, but the current process may already be marked blocked: the moment before blockProcess yields. */
  ghost predicate CurrentStops(s: Sched) {
    if s.current == NULL then s.currentPid == NO_PROCESS
    else
      && s.current in s.heap && s.currentPid == s.heap[s.current].pid >= 0
      && if Member(s, s.current) then s.heap[s.current].status == Running || s.heap[s.current].status == Blocked
         else s.heap[s.current].status == Terminated && s.currentPid != IDLE_PID
  }

  ghost predicate Stopping(s: Sched) {
    ListsOk(s) && TableOk(s) && QueuesOk(s, NULL) && CurrentStops(s) && NoLeak(s) && IdleOk(s)
  }

  /** Between two processes: nothing runs, and every record in the heap is listed. */
  ghost predicate AtRest(s: Sched) {
    && ListsOk(s) && TableOk(s) && QueuesOk(s, NULL) && IdleOk(s)
    && forall p :: p in s.heap ==> Member(s, p) && s.heap[p].status != Running
  }

  lemma RetireKilled(s: Sched, rsp: int)
    requires Stopping(s) && s.current != NULL && !Member(s, s.current)
    ensures AtRest(Retire(s, rsp))
  {
    var t := Retire(s, rsp);
    assert forall x :: Member(s, x) <==> Member(t, x);
  }

  lemma RetireListed(s: Sched, rsp: int)
    requires Stopping(s) && s.current != NULL && Member(s, s.current)
    ensures AtRest(Retire(s, rsp))
  {
    var t := Retire(s, rsp);
    RecordKeeps(s, t, s.current, t.heap[s.current]);
    RetireQueues(s, rsp);
    hide IdleOk, TableOk, ListsOk, QueuesOk, Retire, NoLeak;
  }

  lemma RetireQueues(s: Sched, rsp: int)
    requires Stopping(s) && s.current != NULL && Member(s, s.current)
    ensures var t := Retire(s, rsp);
            ListsOk(t) && QueuesOk(t, NULL) && forall p :: p in t.heap ==> Member(t, p) && t.heap[p].status != Running
  {
    var t := Retire(s, rsp);
    assert forall x :: Member(s, x) <==> Member(t, x);
    if s.heap[s.current].status == Running {
      AppendOk(s.ready, s.current);
    }
    hide IdleOk;
  }

  lemma RetireRests(s: Sched, rsp: int)
    requires Stopping(s)
    ensures AtRest(Retire(s, rsp))
  {
    if s.current != NULL && Member(s, s.current) {
      RetireListed(s, rsp);
    } else if s.current != NULL {
      RetireKilled(s, rsp);
    }
  }

  /** The ready list is never empty when a process is to be chosen: idle is in it. */
  lemma RestHasReady(s: Sched)
    requires AtRest(s)
    ensures s.ready != []
  {
    var p :| Member(s, p) && At(s.heap, p).pid == IDLE_PID;
    assert p in s.ready;
  }

  /** The head of the ready list takes over. */
  function Dispatched(s: Sched): Sched
    requires s.ready != []
  {
    RunProcess(s.(ready := s.ready[1..]), s.ready[0]).0
  }

  lemma DispatchTable(s: Sched)
    requires AtRest(s) && s.ready != []
    ensures var t := Dispatched(s); TableOk(t) && NoLeak(t) && IdleOk(t)
  {
    var t := Dispatched(s);
    var p := s.ready[0];
    assert p in s.ready && Member(s, p);
    assert forall x :: Member(t, x) <==> Member(s, x);
    assert forall x :: Member(s, x) ==> t.heap[x] == if x == p then s.heap[p].(status := Running) else s.heap[x];
  }

  lemma DispatchQueues(s: Sched)
    requires AtRest(s) && s.ready != []
    ensures var t := Dispatched(s); ListsOk(t) && QueuesOk(t, NULL) && CurrentOk(t)
  {
    var t := Dispatched(s);
    var p := s.ready[0];
    assert p in s.ready && Member(s, p);
    PopOk(s.ready);
    assert forall x :: Member(t, x) <==> Member(s, x);
    hide IdleOk, Distinct;
  }

  lemma DispatchKeeps(s: Sched)
    requires AtRest(s) && s.ready != []
    ensures Inv(Dispatched(s))
  {
    DispatchTable(s);
    DispatchQueues(s);
    hide Dispatched, TableOk, NoLeak, IdleOk, ListsOk, QueuesOk, CurrentOk, AtRest;
  }

  /** A tick that switches always dispatches the head of the ready list. */
  lemma TickDispatches(s: Sched, rsp: int)
    requires Stopping(s) && Switches(s)
    ensures var r := Retire(s.(quantums := s.quantums - 1), rsp);
            AtRest(r) && r.ready != [] && Tick(s, rsp) == (Dispatched(r), At(r.heap, r.ready[0]).stackPos)
  {
    var t := s.(quantums := s.quantums - 1);
    assert forall x :: Member(s, x) <==> Member(t, x);
    assert Stopping(t);
    RetireRests(t, rsp);
    RestHasReady(Retire(t, rsp));
  }

  lemma SwitchKeeps(s: Sched, rsp: int)
    requires Stopping(s) && Switches(s)
    ensures Inv(Tick(s, rsp).0)
  {
    TickDispatches(s, rsp);
    DispatchKeeps(Retire(s.(quantums := s.quantums - 1), rsp));
  }

  lemma TickKeeps(s: Sched, rsp: int)
    requires Inv(s)
    ensures Inv(Tick(s, rsp).0)
  {
    if Switches(s) {
      SwitchKeeps(s, rsp);
    } else {
      assert forall x :: Member(s, x) <==> Member(Tick(s, rsp).0, x);
    }
  }

  lemma SomeProcess(s: Sched)
    requires ListsOk(s) && IdleOk(s)
    ensures s.qty > 0
  {
    var p :| Member(s, p);
    assert p in s.procs;
  }

  lemma QuantumStops(s: Sched)
    requires Stopping(s)
    ensures Stopping(s.(quantums := 0))
  {
    assert forall x :: Member(s.(quantums := 0), x) <==> Member(s, x);
  }

  lemma QuantumOff(s: Sched)
    requires Stopping(s)
    ensures Stopping(s.(quantums := s.quantums - 1))
  {
    assert forall x :: Member(s.(quantums := s.quantums - 1), x) <==> Member(s, x);
  }

  lemma NothingToRetire(s: Sched, rsp: int)
    requires Stopping(s) && s.currentPid == NO_PROCESS
    ensures Retire(s, rsp) == s
  {
  }

  lemma RetireAppends(s: Sched, rsp: int)
    ensures s.ready <= Retire(s, rsp).ready
  {
  }

  /** Between two processes, whatever is in the ready list has a record. */
  lemma RestIsSafe(s: Sched)
    requires AtRest(s)
    ensures TableOk(s) && forall x :: x in s.ready ==> x in s.heap && x != NULL
  {
  }

  /** What the invariant says about addresses: whatever is listed, and the current process, has a record. */
  lemma InvSafe(s: Sched)
    requires Inv(s)
    ensures TableOk(s) && NULL !in s.procs
    ensures s.current != NULL ==> s.current in s.heap && s.currentPid == s.heap[s.current].pid
    ensures forall x :: Member(s, x) ==> x in s.heap
    ensures s.current != NULL && InForeground(s.heap[s.current]) ==> s.currentPid != IDLE_PID
  {
    assert !Member(s, NULL);
  }

  lemma YieldKeeps(s: Sched, rsp: int)
    requires Stopping(s)
    ensures Inv(Yield(s, rsp))
  {
    QuantumStops(s);
    SomeProcess(s);
    SwitchKeeps(s.(quantums := 0), rsp);
  }

  lemma MarkBlockedRunning(s: Sched, p: Ptr)
    requires Inv(s) && Member(s, p) && At(s.heap, p).status == Running && At(s.heap, p).pid != IDLE_PID
    ensures Stopping(MarkBlocked(s, p)) && MarkBlocked(s, p).currentPid == At(s.heap, p).pid
  {
    var t := MarkBlocked(s, p);
    RecordKeeps(s, t, p, At(s.heap, p).(status := Blocked));
    AppendOk(s.blocked, p);
  }

  lemma InvStops(s: Sched)
    requires Inv(s)
    ensures Stopping(s)
  {
  }

  /** Marking a process blocked leaves a state from which blockProcess can yield. */
  lemma BlockStops(s: Sched, p: Ptr)
    requires Inv(s) && Member(s, p) && s.heap[p].pid != IDLE_PID
    ensures var t := MarkBlocked(s, p);
            Stopping(t) && (t.currentPid != s.heap[p].pid ==> Inv(t))
  {
    if s.heap[p].status == Ready {
      MarkBlockedReady(s, p);
      InvStops(MarkBlocked(s, p));
    } else if s.heap[p].status == Running {
      MarkBlockedRunning(s, p);
    } else {
      InvStops(s);
    }
  }

  /** A ready process is in the ready list. */
  lemma ListedRight(s: Sched, p: Ptr)
    requires Inv(s) && Member(s, p)
    ensures At(s.heap, p).status == Ready <==> p in s.ready
  {
  }

  lemma BlockKeeps(s: Sched, pid: int, rsp: int)
    requires Inv(s) && pid != IDLE_PID
    ensures Inv(Block(s, pid, rsp).0)
  {
    var p := FindProcess(s, pid);
    Finds(s, pid);
    if p != NULL {
      var t := MarkBlocked(s, p);
      BlockStops(s, p);
      if t.currentPid == pid {
        YieldKeeps(t, rsp);
      }
    }
  }

  // ---------------------------------------------------------------- a refused list node

  /**
   Without its list node setReadyProcess keeps the invariant if and only if the process is not blocked; a blocked one ends
   up in no list, and no later setReadyProcess can help it.
   */
  lemma SetReadyRefusedBreaks(s: Sched, pid: int)
    requires Inv(s)
    ensures var t := SetReadyRefused(s, pid).0;
            var p := FindProcess(s, pid);
            && (Inv(t) <==> p == NULL || At(s.heap, p).status != Blocked)
            && (!Inv(t) ==> Member(t, p) && p !in t.ready && p !in t.blocked && SetReady(t, pid) == (t, -1))
  {
    var p := FindProcess(s, pid);
    Finds(s, pid);
    RemoveOk(s.blocked, p);
  }

  /**
   Without its list node blockProcess keeps the invariant if and only if the process is not ready; a ready one ends up in
   no list, and no later blockProcess or setReadyProcess can help it.
   */
  lemma BlockRefusedBreaks(s: Sched, pid: int, rsp: int)
    requires Inv(s) && pid != IDLE_PID
    ensures var t := BlockRefused(s, pid, rsp).0;
            var p := FindProcess(s, pid);
            && (Inv(t) <==> p == NULL || At(s.heap, p).status != Ready)
            && (!Inv(t) ==> Member(t, p) && p !in t.ready && p !in t.blocked
                            && Block(t, pid, rsp) == (t, -1) && SetReady(t, pid) == (t, 0))
  {
    var p := FindProcess(s, pid);
    Finds(s, pid);
    RemoveOk(s.ready, p);
    BlockKeeps(s, pid, rsp);
  }

  /**
   Without its list node a tick that switches keeps the invariant if and only if it takes no running process off the
   processor or nobody else is ready (then idle goes on); otherwise that process is ready and in no list.
   */
  lemma TickRefusedBreaks(s: Sched, rsp: int)
    requires Inv(s) && Switches(s)
    ensures var t := TickRefused(s, rsp).0;
            && (Inv(t) <==> s.current == NULL || At(s.heap, s.current).status != Running || s.ready == [])
            && (!Inv(t) ==> Member(t, s.current) && At(t.heap, s.current).status == Ready && s.current !in t.ready)
  {
    InvStops(s);
    QuantumOff(s);
    TickKeeps(s, rsp);
    if s.current == NULL || At(s.heap, s.current).status != Running {
      RefusesNothing(s, rsp);
    } else if s.ready == [] {
      IdleGoesOn(s, rsp);
    } else {
      DropsRunning(s, rsp);
    }
  }

  lemma RefusesNothing(s: Sched, rsp: int)
    requires Inv(s) && Switches(s) && (s.current == NULL || At(s.heap, s.current).status != Running)
    ensures TickRefused(s, rsp).0 == Tick(s, rsp).0
  {
    hide Switch;
  }

  /** If nobody is ready, the running process is idle. */
  lemma IdleGoesOn(s: Sched, rsp: int)
    requires Inv(s) && Switches(s) && s.current != NULL && At(s.heap, s.current).status == Running && s.ready == []
    ensures TickRefused(s, rsp).0 == Tick(s, rsp).0
  {
    InvSafe(s);
    assert !Member(s, NULL);
    var p: Ptr :| Member(s, p) && At(s.heap, p).pid == IDLE_PID;
    assert IdleLike(s.heap[p]) && p !in s.ready;
    assert p == s.current;
    var r := Retire(s.(quantums := s.quantums - 1), rsp);
    assert r.ready == [p] && r.ready[1..] == [];
    InvStops(s);
    QuantumOff(s);
    RetireRests(s.(quantums := s.quantums - 1), rsp);
    FindsThis(r.(ready := []), p);
    assert TickRefused(s, rsp) == Switch(r.(ready := []), rsp);
  }

  lemma DropsRunning(s: Sched, rsp: int)
    requires Inv(s) && Switches(s) && s.current != NULL && At(s.heap, s.current).status == Running && s.ready != []
    ensures var t := TickRefused(s, rsp).0;
            !Inv(t) && Member(t, s.current) && At(t.heap, s.current).status == Ready && s.current !in t.ready
  {
    InvSafe(s);
    var t := TickRefused(s, rsp).0;
    assert s.ready[0] in s.ready;
    assert s.ready[0] != s.current && Member(s, s.current) && s.current !in s.ready;
    assert t.ready == s.ready[1..];
  }

  // ---------------------------------------------------------------- the end of a process

  lemma DequeueKeeps(s: Sched, p: Ptr)
    requires Inv(s) && Member(s, p)
    ensures InvBut(Dequeue(s, p), p)
  {
    var t := Dequeue(s, p);
    RemoveOk(s.ready, p);
    RemoveOk(s.blocked, p);
    assert forall x :: Member(s, x) <==> Member(t, x);
  }

  /** t has the records of s, apart from their status. */
  ghost predicate SameButStatus(s: Sched, t: Sched) {
    && t.procs == s.procs && t.qty == s.qty && t.current == s.current && t.currentPid == s.currentPid
    && t.quantums == s.quantums && t.heap.Keys == s.heap.Keys
    && forall p :: p in t.heap ==> t.heap[p] == s.heap[p].(status := t.heap[p].status)
  }

  /** Only blocked processes are woken, and they queue up behind those that were ready. */
  ghost predicate WakesOnly(s: Sched, t: Sched) {
    && s.ready <= t.ready
    && forall p :: p in t.heap && p in s.heap && s.heap[p].status != Blocked ==> t.heap[p].status == s.heap[p].status
  }

  lemma SetReadyWakes(s: Sched, hole: Ptr, pid: int)
    requires InvBut(s, hole)
    ensures var t := SetReady(s, pid).0; SameButStatus(s, t) && WakesOnly(s, t)
  {
    Finds(s, pid);
    hide InvBut, FindProcess, L.RemoveFirst;
  }

  lemma WakesTwice(r: Sched, s: Sched, t: Sched)
    requires SameButStatus(r, s) && WakesOnly(r, s) && SameButStatus(s, t) && WakesOnly(s, t)
    ensures SameButStatus(r, t) && WakesOnly(r, t)
  {
    forall p | p in t.heap ensures t.heap[p] == r.heap[p].(status := t.heap[p].status) {
      assert t.heap[p] == s.heap[p].(status := t.heap[p].status);
      assert s.heap[p] == r.heap[p].(status := s.heap[p].status);
    }
  }

  lemma {:induction false} WakeKeeps(s: Sched, hole: Ptr, ws: seq<Ptr>, i: nat, junk: Junk)
    requires InvBut(s, hole) && i <= |ws|
    ensures var t := WakeFrom(s, ws, i, junk); InvBut(t, hole) && SameButStatus(s, t) && WakesOnly(s, t)
    decreases |ws| - i
  {
    if i == |ws| {
      assert forall p :: p in s.heap ==> s.heap[p] == s.heap[p].(status := s.heap[p].status);
    } else {
      if ws[i] == NULL {
        hide InvBut, SetReady, SameButStatus, WakesOnly;
        WakeKeeps(s, hole, ws, i + 1, junk);
      } else {
        var pid := PidThrough(s, ws, i, junk);
        SetReadyKeeps(s, hole, pid);
        SetReadyWakes(s, hole, pid);
        hide InvBut, SetReady, SameButStatus, WakesOnly;
        WakeKeeps(SetReady(s, pid).0, hole, ws, i + 1, junk);
        WakesTwice(s, SetReady(s, pid).0, WakeFrom(s, ws, i, junk));
      }
    }
  }

  lemma UnlistMembers(s: Sched, p: Ptr)
    requires Distinct(s.procs)
    ensures forall x :: Member(Unlist(s, p), x) <==> Member(s, x) && x != p
  {
    RemoveOk(s.procs, p);
  }

  lemma UnlistTable(s: Sched, p: Ptr)
    requires InvBut(s, p) && Member(s, p) && At(s.heap, p).pid != IDLE_PID
    ensures var t := Unlist(s, p); TableOk(t) && NoLeak(t) && IdleOk(t)
  {
    UnlistPids(s, p);
    UnlistRecords(s, p);
    UnlistIdle(s, p);
    hide TableOk, NoLeak, IdleOk, Unlist;
  }

  lemma UnlistPids(s: Sched, p: Ptr)
    requires TableOk(s) && Distinct(s.procs) && Member(s, p)
    ensures TableOk(Unlist(s, p))
  {
    UnlistMembers(s, p);
  }

  lemma UnlistRecords(s: Sched, p: Ptr)
    requires NoLeak(s) && Distinct(s.procs) && Member(s, p) && p in s.heap
    ensures NoLeak(Unlist(s, p))
  {
    UnlistMembers(s, p);
  }

  lemma UnlistIdle(s: Sched, p: Ptr)
    requires TableOk(s) && IdleOk(s) && Distinct(s.procs) && Member(s, p) && At(s.heap, p).pid != IDLE_PID
    ensures IdleOk(Unlist(s, p))
  {
    UnlistMembers(s, p);
    var t := Unlist(s, p);
    var i: Ptr :| Member(s, i) && At(s.heap, i).pid == IDLE_PID;
    assert Member(t, i) && At(t.heap, i).pid == IDLE_PID;
  }

  lemma UnlistQueues(s: Sched, p: Ptr)
    requires InvBut(s, p) && Member(s, p) && At(s.heap, p).pid != IDLE_PID
    ensures var t := Unlist(s, p); ListsOk(t) && QueuesOk(t, NULL) && CurrentOk(t)
  {
    var t := Unlist(s, p);
    RemoveOk(s.procs, p);
    assert forall x :: Member(t, x) <==> Member(s, x) && x != p;
  }

  lemma UnlistKeeps(s: Sched, p: Ptr)
    requires InvBut(s, p) && Member(s, p) && At(s.heap, p).pid != IDLE_PID
    ensures Inv(Unlist(s, p))
  {
    UnlistTable(s, p);
    UnlistQueues(s, p);
    hide Unlist, TableOk, NoLeak, IdleOk, ListsOk, QueuesOk, CurrentOk;
  }

  /** The state in which kill takes the process off the process list. */
  function Emptied(s: Sched, p: Ptr, junk: Junk): Sched {
    WakeFrom(Dequeue(s, p), At(s.heap, p).waiting, 0, junk)
  }

  lemma EmptiedKeeps(s: Sched, p: Ptr, junk: Junk)
    requires Inv(s) && Member(s, p)
    ensures var t := Emptied(s, p, junk);
            InvBut(t, p) && SameButStatus(Dequeue(s, p), t) && WakesOnly(Dequeue(s, p), t)
  {
    DequeueKeeps(s, p);
    WakeKeeps(Dequeue(s, p), p, At(s.heap, p).waiting, 0, junk);
  }

  /** kill succeeds on every listed process. */
  lemma KillSucceeds(s: Sched, p: Ptr, junk: Junk)
    requires Inv(s) && Member(s, p)
    ensures Kill(s, p, junk) == (Unlist(Emptied(s, p, junk), p), 0)
  {
    EmptiedKeeps(s, p, junk);
    assert Emptied(s, p, junk).procs == s.procs;
  }

  lemma KillKeeps(s: Sched, p: Ptr, junk: Junk)
    requires Inv(s) && Member(s, p) && At(s.heap, p).pid != IDLE_PID
    ensures Inv(Kill(s, p, junk).0)
  {
    KillSucceeds(s, p, junk);
    EmptiedKeeps(s, p, junk);
    assert Member(Emptied(s, p, junk), p) && At(Emptied(s, p, junk).heap, p).pid != IDLE_PID;
    hide InvBut, WakeFrom, Dequeue, Unlist, Kill, Emptied;
    UnlistKeeps(Emptied(s, p, junk), p);
  }

  /** kill touches no other process, except that it wakes some: whoever else was listed still is, with the same record. */
  lemma KillSpares(s: Sched, p: Ptr, junk: Junk, q: Ptr)
    requires Inv(s) && Member(s, p)
    ensures var t := Kill(s, p, junk).0;
            && (Member(t, q) <==> Member(s, q) && q != p)
            && (Member(t, q) ==> At(t.heap, q) == At(s.heap, q).(status := At(t.heap, q).status))
            && (Member(t, q) && At(s.heap, q).status != Blocked ==> At(t.heap, q).status == At(s.heap, q).status)
            && t.current == s.current && t.currentPid == s.currentPid && t.quantums == s.quantums
  {
    KillSucceeds(s, p, junk);
    EmptiedSpares(s, p, junk, q);
    hide InvBut, Kill, Emptied, Unlist, Member;
    UnlistSpares(Emptied(s, p, junk), p, q);
  }

  lemma EmptiedSpares(s: Sched, p: Ptr, junk: Junk, q: Ptr)
    requires Inv(s) && Member(s, p)
    ensures var t := Emptied(s, p, junk);
            && Distinct(t.procs) && p in t.heap && (Member(t, q) <==> Member(s, q))
            && (Member(t, q) ==> At(t.heap, q) == At(s.heap, q).(status := At(t.heap, q).status))
            && (Member(t, q) && At(s.heap, q).status != Blocked ==> At(t.heap, q).status == At(s.heap, q).status)
            && t.current == s.current && t.currentPid == s.currentPid && t.quantums == s.quantums
  {
    EmptiedKeeps(s, p, junk);
    assert Member(s, q) ==> q in s.heap;
    hide InvBut, L.RemoveFirst, Emptied;
    assert Dequeue(s, p).(ready := s.ready, blocked := s.blocked) == s;
    hide Dequeue;
    EmptiedDistinct(s, p, junk);
    SameSpares(Dequeue(s, p), Emptied(s, p, junk), q);
    hide SameButStatus, WakesOnly;
  }

  lemma SameSpares(s: Sched, t: Sched, q: Ptr)
    requires SameButStatus(s, t) && WakesOnly(s, t)
    ensures t.procs == s.procs && t.current == s.current && t.currentPid == s.currentPid && t.quantums == s.quantums
    ensures t.heap.Keys == s.heap.Keys
    ensures q in s.heap ==> At(t.heap, q) == At(s.heap, q).(status := At(t.heap, q).status)
    ensures q in s.heap && At(s.heap, q).status != Blocked ==> At(t.heap, q).status == At(s.heap, q).status
  {
  }

  lemma EmptiedDistinct(s: Sched, p: Ptr, junk: Junk)
    requires Inv(s) && Member(s, p)
    ensures Distinct(Emptied(s, p, junk).procs)
  {
    EmptiedKeeps(s, p, junk);
    hide Emptied;
  }

  lemma UnlistSpares(s: Sched, p: Ptr, q: Ptr)
    requires Distinct(s.procs) && p in s.heap
    ensures var t := Unlist(s, p);
            && (Member(t, q) <==> Member(s, q) && q != p) && (q != p ==> At(t.heap, q) == At(s.heap, q))
            && t.current == s.current && t.currentPid == s.currentPid && t.quantums == s.quantums
  {
    RemoveOk(s.procs, p);
    hide L.RemoveFirst;
  }

  lemma KillProcessKeeps(s: Sched, pid: int, junk: Junk, junk2: Junk)
    requires Inv(s) && pid != IDLE_PID
    ensures Inv(KillProcess(s, pid, junk, junk2).0)
  {
    var p := FindProcess(s, pid);
    Finds(s, pid);
    if p != NULL {
      var fd := PipedFd(At(s.heap, p));
      KillSucceeds(s, p, junk);
      KillKeeps(s, p, junk);
      var t := Kill(s, p, junk).0;
      var q := PipedTo(t.heap, t.procs, fd);
      assert !Member(t, NULL);
      PipedToIs(t.heap, t.procs, fd);
      if fd != -1 && q != NULL {
        assert Member(t, q);
        KillKeeps(t, q, junk2);
      }
    }
  }

  lemma KillForegroundKeeps(s: Sched, junk: Junk, junk2: Junk)
    requires Inv(s)
    ensures Inv(KillForeground(s, junk, junk2).0)
  {
    if s.current != NULL && InForeground(At(s.heap, s.current)) {
      KillProcessKeeps(s, At(s.heap, s.current).pid, junk, junk2);
    } else if s.current != NULL {
      var p := Foreground(s.heap, s.procs);
      assert !Member(s, NULL);
      ForegroundIs(s.heap, s.procs);
      if p != NULL {
        assert Member(s, p);
        KillKeeps(s, p, junk);
      }
    }
  }

  /** killProcess leaves the record of every process that survives it, but for waking it up. */
  lemma KillProcessSpares(s: Sched, pid: int, junk: Junk, junk2: Junk, q: Ptr)
    requires Inv(s) && pid != IDLE_PID
    ensures var t := KillProcess(s, pid, junk, junk2).0;
            && t.quantums == s.quantums && t.current == s.current
            && (Member(t, q) ==> Member(s, q) && At(t.heap, q) == At(s.heap, q).(status := At(t.heap, q).status))
  {
    var p := FindProcess(s, pid);
    Finds(s, pid);
    if p != NULL {
      var fd := PipedFd(At(s.heap, p));
      KillSucceeds(s, p, junk);
      KillKeeps(s, p, junk);
      KillSpares(s, p, junk, q);
      var t := Kill(s, p, junk).0;
      var r := PipedTo(t.heap, t.procs, fd);
      assert !Member(t, NULL);
      PipedToIs(t.heap, t.procs, fd);
      if fd != -1 && r != NULL {
        assert Member(t, r);
        KillSpares(t, r, junk2, q);
      }
    }
  }

  lemma KillForegroundSpares(s: Sched, junk: Junk, junk2: Junk, q: Ptr)
    requires Inv(s)
    ensures var t := KillForeground(s, junk, junk2).0;
            && t.quantums == s.quantums && t.current == s.current
            && (Member(t, q) ==> Member(s, q) && At(t.heap, q) == At(s.heap, q).(status := At(t.heap, q).status))
  {
    if s.current != NULL && InForeground(At(s.heap, s.current)) {
      KillProcessSpares(s, At(s.heap, s.current).pid, junk, junk2, q);
    } else if s.current != NULL {
      var p := Foreground(s.heap, s.procs);
      assert !Member(s, NULL);
      ForegroundIs(s.heap, s.procs);
      if p != NULL {
        assert Member(s, p);
        KillSpares(s, p, junk, q);
      }
    }
  }

  // ---------------------------------------------------------------- whom a kill takes

  /** The process reads from fd instead of the terminal, or else it writes to fd instead of the terminal. */
  predicate PipedOn(r: Process, fd: int) {
    fd != -1 && if r.stdin != 0 then fd == r.stdin else fd == r.stdout && fd != 1
  }

  predicate Uses(heap: map<Ptr, Process>, q: Ptr, fd: int) {
    q in heap && (heap[q].stdin == fd || heap[q].stdout == fd)
  }

  /** Number i of the process list is the first process besides p that uses fd. */
  predicate FirstUser(heap: map<Ptr, Process>, procs: seq<Ptr>, p: Ptr, fd: int, i: nat) {
    && i < |procs| && procs[i] != p && Uses(heap, procs[i], fd)
    && forall j :: 0 <= j < i ==> procs[j] == p || !Uses(heap, procs[j], fd)
  }

  /** q is at the other end of p's pipe. */
  ghost predicate Partner(s: Sched, p: Ptr, q: Ptr) {
    p in s.heap && exists i: nat, fd: int :: PipedOn(s.heap[p], fd) && FirstUser(s.heap, s.procs, p, fd, i) && s.procs[i] == q
  }

  /** q is the listed process with this pid, or the process at the other end of its pipe. */
  ghost predicate Named(s: Sched, pid: int, q: Ptr) {
    exists p :: Member(s, p) && p in s.heap && s.heap[p].pid == pid && (q == p || Partner(s, p, q))
  }

  /** A process in the foreground other than the shell, which is process 1. */
  predicate Interruptible(heap: map<Ptr, Process>, q: Ptr) {
    q in heap && heap[q].ground == 0 && heap[q].pid != 1
  }

  ghost predicate FirstInterruptible(s: Sched, q: Ptr) {
    exists i :: 0 <= i < |s.procs| && s.procs[i] == q && Interruptible(s.heap, q)
                && forall j :: 0 <= j < i ==> !Interruptible(s.heap, s.procs[j])
  }

  /** The processes that an action is to kill. */
  ghost predicate Victim(s: Sched, a: Action, q: Ptr) {
    match a
    case KillAct(pid, _, _) => Named(s, pid, q)
    case ExitAct(_, _) => Named(s, s.currentPid, q)
    case InterruptAct(_, _) =>
      s.current != NULL &&
      if Interruptible(s.heap, s.current) then Named(s, s.currentPid, q) else FirstInterruptible(s, q)
    case _ => false
  }

  lemma {:induction false} PipedToSame(heap: map<Ptr, Process>, heap': map<Ptr, Process>, procs: seq<Ptr>, fd: int)
    requires forall q :: q in procs ==>
               At(heap', q).stdin == At(heap, q).stdin && At(heap', q).stdout == At(heap, q).stdout
    ensures PipedTo(heap', procs, fd) == PipedTo(heap, procs, fd)
  {
    if procs != [] {
      PipedToSame(heap, heap', procs[1..], fd);
    }
  }

  lemma {:induction false} PipedToFirst(heap: map<Ptr, Process>, procs: seq<Ptr>, fd: int) returns (i: nat)
    requires NULL !in procs && forall q :: q in procs ==> q in heap
    ensures var q := PipedTo(heap, procs, fd);
            if q == NULL then i == |procs| else i < |procs| && procs[i] == q && Uses(heap, q, fd)
    ensures forall j :: 0 <= j < i ==> !Uses(heap, procs[j], fd)
    ensures i <= |procs|
  {
    if procs == [] || Uses(heap, procs[0], fd) {
      i := 0;
    } else {
      var k := PipedToFirst(heap, procs[1..], fd);
      i := k + 1;
    }
  }

  lemma OneFirst(heap: map<Ptr, Process>, procs: seq<Ptr>, p: Ptr, fd: int, i: nat, j: nat)
    requires FirstUser(heap, procs, p, fd, i) && FirstUser(heap, procs, p, fd, j)
    ensures i == j
  {
  }

  /** The search for the other end goes through the list without p. */
  lemma OtherEnd(heap: map<Ptr, Process>, procs: seq<Ptr>, p: Ptr, fd: int)
    requires Distinct(procs) && p in procs && NULL !in procs && forall q :: q in procs ==> q in heap
    ensures var q := PipedTo(heap, L.RemoveFirst(procs, p), fd);
            if q == NULL then forall i: nat :: !FirstUser(heap, procs, p, fd, i)
            else q != p && exists i: nat :: FirstUser(heap, procs, p, fd, i) && procs[i] == q
  {
    var r := L.RemoveFirst(procs, p);
    RemoveOk(procs, p);
    var k := L.IndexOf(procs, p);
    assert forall j :: 0 <= j < |r| ==> r[j] == procs[if j < k then j else j + 1];
    hide L.RemoveFirst, L.RemoveAt, L.IndexOf, Distinct;
    var i := PipedToFirst(heap, r, fd);
    var i' := if i < k then i else i + 1;
    forall j | 0 <= j < i' && j < |procs| ensures procs[j] == p || !Uses(heap, procs[j], fd) {
      if j != k {
        assert procs[j] == r[if j < k then j else j - 1];
      }
    }
    if i < |r| {
      assert FirstUser(heap, procs, p, fd, i');
    }
  }

  /** The search through the list without p finds the process at the other end of its pipe. */
  lemma PartnerIs(s: Sched, p: Ptr)
    requires Inv(s) && Member(s, p)
    ensures var fd := PipedFd(At(s.heap, p));
            var q := PipedTo(s.heap, L.RemoveFirst(s.procs, p), fd);
            if fd == -1 || q == NULL then forall x :: !Partner(s, p, x) else q != p && Partner(s, p, q)
  {
    var fd := PipedFd(At(s.heap, p));
    InvSafe(s);
    assert Distinct(s.procs) && forall q :: q in s.procs ==> Member(s, q);
    hide InvBut, L.RemoveFirst, FirstUser, PipedTo;
    OtherEnd(s.heap, s.procs, p, fd);
    PipedOnce(s.heap[p], fd);
    hide PipedOn;
  }

  lemma PipedOnce(r: Process, fd: int)
    requires fd == PipedFd(r)
    ensures forall f :: PipedOn(r, f) <==> f == fd && fd != -1
  {
  }

  /** Whom the second half of killProcess kills: nobody, or the process at the other end of p's pipe. */
  lemma PartnerAfter(s: Sched, p: Ptr, junk: Junk)
    requires Inv(s) && Member(s, p)
    ensures var t := Kill(s, p, junk).0;
            var fd := PipedFd(At(s.heap, p));
            var q := PipedTo(t.heap, t.procs, fd);
            if fd == -1 || q == NULL then forall x :: !Partner(s, p, x) else q != p && Partner(s, p, q)
  {
    var t := Kill(s, p, junk).0;
    KillUnlists(s, p, junk);
    hide Kill, InvBut, L.RemoveFirst, Partner, PipedFd;
    SameDescriptors(s, p, junk);
    PipedToSame(s.heap, t.heap, t.procs, PipedFd(At(s.heap, p)));
    PartnerIs(s, p);
  }

  lemma KillUnlists(s: Sched, p: Ptr, junk: Junk)
    requires Inv(s) && Member(s, p)
    ensures Kill(s, p, junk).0.procs == L.RemoveFirst(s.procs, p)
  {
    KillSucceeds(s, p, junk);
    EmptiedKeeps(s, p, junk);
    hide L.RemoveFirst;
  }

  lemma SameDescriptors(s: Sched, p: Ptr, junk: Junk)
    requires Inv(s) && Member(s, p)
    ensures var t := Kill(s, p, junk).0;
            forall q :: q in t.procs ==>
              At(t.heap, q).stdin == At(s.heap, q).stdin && At(t.heap, q).stdout == At(s.heap, q).stdout
  {
    var t := Kill(s, p, junk).0;
    hide Kill;
    forall q | q in t.procs
      ensures At(t.heap, q).stdin == At(s.heap, q).stdin && At(t.heap, q).stdout == At(s.heap, q).stdout
    {
      KillSpares(s, p, junk, q);
      assert Member(t, q);
    }
  }

  lemma OnePartner(s: Sched, p: Ptr, q: Ptr, r: Ptr)
    requires Partner(s, p, q) && Partner(s, p, r)
    ensures q == r
  {
    var i: nat, fd: int :| PipedOn(s.heap[p], fd) && FirstUser(s.heap, s.procs, p, fd, i) && s.procs[i] == q;
    var j: nat, fe: int :| PipedOn(s.heap[p], fe) && FirstUser(s.heap, s.procs, p, fe, j) && s.procs[j] == r;
    OneFirst(s.heap, s.procs, p, fd, i, j);
  }

  /** Who is named by the pid of p. */
  lemma NamedIs(s: Sched, p: Ptr, q: Ptr)
    requires TableOk(s) && Member(s, p)
    ensures Named(s, s.heap[p].pid, q) <==> q == p || Partner(s, p, q)
  {
    hide Partner;
  }

  /** killProcess takes the process it names and the one at the other end of its pipe off the list, and nobody else. */
  lemma KillProcessTakes(s: Sched, pid: int, junk: Junk, junk2: Junk, q: Ptr)
    requires Inv(s) && pid != IDLE_PID
    ensures Member(KillProcess(s, pid, junk, junk2).0, q) <==> Member(s, q) && !Named(s, pid, q)
  {
    var p := FindProcess(s, pid);
    Finds(s, pid);
    if p != NULL {
      var fd := PipedFd(At(s.heap, p));
      NamedIs(s, p, q);
      KillSucceeds(s, p, junk);
      KillKeeps(s, p, junk);
      KillSpares(s, p, junk, q);
      PartnerAfter(s, p, junk);
      var t := Kill(s, p, junk).0;
      var r := PipedTo(t.heap, t.procs, fd);
      assert !Member(t, NULL);
      PipedToIs(t.heap, t.procs, fd);
      hide Kill, InvBut, Named, Partner, PipedFd, PipedTo;
      if fd != -1 && r != NULL {
        assert Member(t, r);
        KillSpares(t, r, junk2, q);
        if Partner(s, p, q) {
          OnePartner(s, p, q, r);
        }
      }
    }
  }

  lemma {:induction false} ForegroundFirst(heap: map<Ptr, Process>, procs: seq<Ptr>) returns (i: nat)
    requires NULL !in procs && forall q :: q in procs ==> q in heap
    ensures var q := Foreground(heap, procs);
            if q == NULL then i == |procs| else i < |procs| && procs[i] == q && Interruptible(heap, q)
    ensures i <= |procs| && forall j :: 0 <= j < i ==> !Interruptible(heap, procs[j])
  {
    if procs == [] || Interruptible(heap, procs[0]) {
      i := 0;
    } else {
      var k := ForegroundFirst(heap, procs[1..]);
      i := k + 1;
    }
  }

  lemma KillForegroundTakes(s: Sched, junk: Junk, junk2: Junk, q: Ptr)
    requires Inv(s)
    ensures Member(KillForeground(s, junk, junk2).0, q) <==> Member(s, q) && !Victim(s, InterruptAct(junk, junk2), q)
  {
    InvSafe(s);
    if s.current != NULL && Interruptible(s.heap, s.current) {
      KillProcessTakes(s, At(s.heap, s.current).pid, junk, junk2, q);
    } else if s.current != NULL {
      assert forall x :: x in s.procs ==> Member(s, x);
      var i := ForegroundFirst(s.heap, s.procs);
      var p := Foreground(s.heap, s.procs);
      if p != NULL {
        assert Member(s, p);
        KillSpares(s, p, junk, q);
      }
    }
  }

  // ---------------------------------------------------------------- creation

  lemma {:induction false} Fits(a: seq<Ptr>, b: seq<Ptr>)
    requires Distinct(a) && Distinct(b) && forall x :: x in a ==> x in b
    ensures |a| <= |b|
    decreases |a|
  {
    if a != [] {
      PopOk(a);
      RemoveOk(b, a[0]);
      Fits(a[1..], L.RemoveFirst(b, a[0]));
    }
  }

  /** The processes that have the pids below n. */
  lemma {:induction false} Owners(s: Sched, n: nat) returns (a: seq<Ptr>)
    requires TableOk(s) && forall q :: 0 <= q < n ==> FindProcess(s, q) != NULL
    ensures |a| == n && Distinct(a)
    ensures forall x :: x in a ==> Member(s, x) && 0 <= At(s.heap, x).pid < n
  {
    if n == 0 {
      a := [];
    } else {
      var b := Owners(s, n - 1);
      var p := FindProcess(s, n - 1);
      Finds(s, n - 1);
      assert p !in b;
      a := b + [p];
    }
  }

  /** With fewer than 30 processes there is a pid to give. */
  lemma PidIsFree(s: Sched)
    requires Inv(s) && s.qty < MAX_PROCESS
    ensures FreePid(s, 0) < MAX_PROCESS
  {
    if FreePid(s, 0) == MAX_PROCESS {
      var a := Owners(s, MAX_PROCESS);
      assert forall x :: x in a ==> Member(s, x);
      Fits(a, s.procs);
    }
  }

  /** A record that is not listed has no part in a search. */
  lemma SameFind(s: Sched, t: Sched, pid: int)
    requires t.procs == s.procs && forall x :: Member(s, x) ==> At(t.heap, x) == At(s.heap, x)
    ensures FindProcess(t, pid) == FindProcess(s, pid)
  {
    FindFrame(s.heap, t.heap, s.procs, pid);
  }

  lemma SamePids(s: Sched, t: Sched)
    requires TableOk(s) && NULL !in t.heap
    requires t.procs == s.procs && forall x :: Member(s, x) ==> x in t.heap && t.heap[x] == s.heap[x]
    ensures TableOk(t) && FreePid(t, 0) == FreePid(s, 0)
  {
    assert forall x :: Member(t, x) <==> Member(s, x);
    forall pid ensures FindProcess(t, pid) == FindProcess(s, pid) {
      SameFind(s, t, pid);
    }
    var i, j := FreePid(s, 0), FreePid(t, 0);
    assert i < j ==> FindProcess(t, i) != NULL;
    assert j < i ==> FindProcess(s, j) != NULL;
  }

  lemma {:induction false} FindFrame(h: map<Ptr, Process>, g: map<Ptr, Process>, procs: seq<Ptr>, pid: int)
    requires forall x :: x in procs ==> At(g, x) == At(h, x)
    ensures Find(g, procs, pid) == Find(h, procs, pid)
  {
    if procs != [] {
      FindFrame(h, g, procs[1..], pid);
    }
  }

  /** A new process with a pid of its own, at an address of its own. */
  function Joined(s: Sched, ptr: Ptr, c: Process): Sched {
    s.(heap := s.heap[ptr := c], procs := s.procs + [ptr], ready := s.ready + [ptr], qty := s.qty + 1)
  }

  lemma JoinTable(s: Sched, ptr: Ptr, c: Process)
    requires Inv(s) && ptr !in s.heap && ptr != NULL && s.qty < MAX_PROCESS && c.status == Ready
    requires 0 < c.pid < MAX_PROCESS && forall x :: Member(s, x) ==> At(s.heap, x).pid != c.pid
    ensures var t := Joined(s, ptr, c); TableOk(t) && NoLeak(t) && IdleOk(t)
  {
    var t := Joined(s, ptr, c);
    hide QueuesOk, Distinct;
    assert forall x :: Member(t, x) <==> Member(s, x) || x == ptr;
    assert !Member(s, ptr);
    var i :| Member(s, i) && At(s.heap, i).pid == IDLE_PID;
    assert Member(t, i) && At(t.heap, i).pid == IDLE_PID;
  }

  lemma JoinQueues(s: Sched, ptr: Ptr, c: Process)
    requires Inv(s) && ptr !in s.heap && ptr != NULL && s.qty < MAX_PROCESS && c.status == Ready
    ensures var t := Joined(s, ptr, c); ListsOk(t) && QueuesOk(t, NULL) && CurrentOk(t)
  {
    var t := Joined(s, ptr, c);
    assert forall x :: Member(t, x) <==> Member(s, x) || x == ptr;
    assert !Member(s, ptr) && ptr !in s.ready && ptr !in s.procs;
    AppendOk(s.procs, ptr);
    AppendOk(s.ready, ptr);
    hide IdleOk, NoLeak, Distinct;
  }

  lemma CreateKeeps(s: Sched, priority: nat, stdin: int, stdout: int, ground: int, ptr: Ptr, stack: int)
    requires Inv(s) && ptr !in s.heap
    ensures Inv(Create(s, priority, stdin, stdout, ground, ptr, stack).0)
  {
    if s.qty < MAX_PROCESS && ptr != NULL {
      PidIsFree(s);
      var pid := FreePid(s, 0);
      Finds(s, pid);
      Finds(s, IDLE_PID);
      var c := Process(pid, priority, Ready, stdin, stdout, ground, stack, []);
      JoinTable(s, ptr, c);
      JoinQueues(s, ptr, c);
      hide TableOk, NoLeak, IdleOk, ListsOk, QueuesOk, CurrentOk, FreePid, FindProcess;
    }
  }

  /** A successful creation keeps the invariant if and only if both of its list nodes are granted. */
  lemma CreateRefusedBreaks(s: Sched, priority: nat, stdin: int, stdout: int, ground: int, ptr: Ptr, stack: int,
                            inList: bool, inReady: bool)
    requires Inv(s) && ptr !in s.heap && Create(s, priority, stdin, stdout, ground, ptr, stack).1 != -1
    ensures Inv(Relist(s, Create(s, priority, stdin, stdout, ground, ptr, stack).0, inList, inReady)) <==> inList && inReady
  {
    var t := Create(s, priority, stdin, stdout, ground, ptr, stack).0;
    CreateKeeps(s, priority, stdin, stdout, ground, ptr, stack);
    var v := Relist(s, t, inList, inReady);
    assert inList && inReady ==> v == t;
    assert ptr in t.ready && t.procs == s.procs + [ptr];
    if inList && !inReady {
      assert Member(v, ptr) && ptr !in s.ready;
    }
  }

  lemma BootInv(ptr: Ptr, stack: int)
    requires ptr != NULL
    ensures Inv(Boot(ptr, stack))
  {
    var t := Boot(ptr, stack);
    assert t.procs == [ptr];
    assert Member(t, ptr) && forall x :: Member(t, x) ==> x == ptr;
  }

  // ---------------------------------------------------------------- changes of one record

  lemma FieldsKeep(s: Sched, t: Sched, p: Ptr, c: Process)
    requires Inv(s) && Member(s, p)
    requires t == s.(heap := s.heap[p := c])
    requires c.pid == At(s.heap, p).pid && c.status == At(s.heap, p).status && (c.pid == IDLE_PID ==> IdleLike(c))
    ensures Inv(t)
  {
    RecordKeeps(s, t, p, c);
    assert forall x :: Member(s, x) <==> Member(t, x);
  }

  lemma EnlistKeeps(s: Sched, pid: int, node: bool)
    requires Inv(s) && FindProcess(s, pid) != NULL
    ensures Inv(Enlist(s, FindProcess(s, pid), node))
  {
    var p := FindProcess(s, pid);
    Finds(s, pid);
    if node {
      FieldsKeep(s, Enlist(s, p, node), p, Enlist(s, p, node).heap[p]);
    }
  }

  /** A waiter that is refused the node of blockProcess goes on; the invariant does not suffer. */
  lemma WaitForPassedKeeps(s: Sched, pid: int, rsp: int, node: bool)
    requires Inv(s) && s.currentPid != IDLE_PID && Member(s, s.current)
    ensures var t := WaitForPassed(s, pid, rsp, node).0;
            Inv(t) && t.current == s.current && t.ready == s.ready && t.blocked == s.blocked
  {
    var p := FindProcess(s, pid);
    if p != NULL && s.currentPid != pid {
      EnlistKeeps(s, pid, node);
      var e := Enlist(s, p, node);
      assert Member(e, e.current);
      InvSafe(e);
      FindsThis(e, e.current);
      assert BlockRefused(e, e.currentPid, rsp).0 == e;
    }
  }

  lemma WaitForKeeps(s: Sched, pid: int, rsp: int, node: bool)
    requires Inv(s) && s.currentPid != IDLE_PID
    ensures Inv(WaitFor(s, pid, rsp, node).0)
  {
    var p := FindProcess(s, pid);
    Finds(s, pid);
    if p != NULL && s.currentPid != pid {
      EnlistKeeps(s, pid, node);
      BlockKeeps(Enlist(s, p, node), s.currentPid, rsp);
    }
  }

  lemma ChangesKeep(s: Sched, pid: int, priority: nat, stdin: int, stdout: int)
    requires Inv(s)
    ensures Inv(ChangePriority(s, pid, priority).0)
    ensures pid != IDLE_PID ==> Inv(ChangeFds(s, pid, stdin, stdout).0)
  {
    var p := FindProcess(s, pid);
    Finds(s, pid);
    if p != NULL {
      FieldsKeep(s, s.(heap := s.heap[p := At(s.heap, p).(priority := priority)]), p, At(s.heap, p).(priority := priority));
      if pid != IDLE_PID {
        var d := At(s.heap, p).(stdin := stdin, stdout := stdout);
        FieldsKeep(s, s.(heap := s.heap[p := d]), p, d);
      }
    }
  }

  /** Every action keeps the invariant. */
  lemma NextKeeps(s: Sched, a: Action)
    requires Inv(s) && Allowed(s, a)
    ensures Inv(Next(s, a))
  {
    match a
    case TickAct(rsp) => TickKeeps(s, rsp);
    case YieldAct(rsp) => YieldKeeps(s, rsp);
    case CreateAct(priority, stdin, stdout, ground, ptr, stack) => CreateKeeps(s, priority, stdin, stdout, ground, ptr, stack);
    case ReadyAct(pid) => SetReadyKeeps(s, NULL, pid);
    case BlockAct(pid, rsp) => BlockKeeps(s, pid, rsp);
    case KillAct(pid, junk, junk2) => KillProcessKeeps(s, pid, junk, junk2);
    case ExitAct(junk, junk2) => KillProcessKeeps(s, At(s.heap, s.current).pid, junk, junk2);
    case InterruptAct(junk, junk2) => KillForegroundKeeps(s, junk, junk2);
    case WaitAct(pid, rsp, node) => WaitForKeeps(s, pid, rsp, node);
    case PriorityAct(pid, priority) => ChangesKeep(s, pid, priority, 0, 0);
    case FdsAct(pid, stdin, stdout) => ChangesKeep(s, pid, 0, stdin, stdout);
  }

  /** Whatever the kernel does from boot on, the process table and its queues stay consistent. */
  lemma {:induction false} EveryRun(s: Sched, run: seq<Action>)
    requires Inv(s) && AllowedRun(s, run)
    ensures Inv(Final(s, run))
    decreases |run|
  {
    if run != [] {
      NextKeeps(s, run[0]);
      EveryRun(Next(s, run[0]), run[1..]);
    }
  }

  // ---------------------------------------------------------------- who is woken

  lemma ReadiesFound(s: Sched, hole: Ptr, q: Ptr)
    requires InvBut(s, hole) && Member(s, q) && q != hole
    ensures At(SetReady(s, At(s.heap, q).pid).0.heap, q).status != Blocked
    ensures q in s.heap
  {
    FindsThis(s, q);
  }

  lemma WakeLeavesAwake(s: Sched, hole: Ptr, ws: seq<Ptr>, i: nat, junk: Junk, q: Ptr)
    requires InvBut(s, hole) && i <= |ws| && q in s.heap && At(s.heap, q).status != Blocked
    ensures At(WakeFrom(s, ws, i, junk).heap, q).status != Blocked
  {
    WakeKeeps(s, hole, ws, i, junk);
    hide InvBut, WakeFrom;
  }

  lemma WakingLists(s: Sched, hole: Ptr, pid: int, q: Ptr)
    requires InvBut(s, hole) && Member(s, q)
    ensures var t := SetReady(s, pid).0; InvBut(t, hole) && Member(t, q) && q in t.heap
  {
    SetReadyKeeps(s, hole, pid);
    SetReadyWakes(s, hole, pid);
  }

  /** Whomever a waiting list names is not blocked once the list was gone through, whatever freed entries say. */
  lemma {:induction false} WakesNamed(s: Sched, hole: Ptr, ws: seq<Ptr>, i: nat, k: nat, junk: Junk)
    requires InvBut(s, hole) && i <= k < |ws| && Member(s, ws[k]) && ws[k] != hole && ws[k] != NULL
    ensures At(WakeFrom(s, ws, i, junk).heap, ws[k]).status != Blocked
    decreases |ws| - i
  {
    hide InvBut, SetReady, Member;
    var t := SetReady(s, PidThrough(s, ws, i, junk)).0;
    if i == k {
      WakesAt(s, hole, ws, i, junk);
    } else if ws[i] == NULL {
      WakesNamed(s, hole, ws, i + 1, k, junk);
    } else {
      WakingLists(s, hole, PidThrough(s, ws, i, junk), ws[k]);
      WakesNamed(t, hole, ws, i + 1, k, junk);
    }
  }

  lemma WakesAt(s: Sched, hole: Ptr, ws: seq<Ptr>, i: nat, junk: Junk)
    requires InvBut(s, hole) && i < |ws| && Member(s, ws[i]) && ws[i] != hole && ws[i] != NULL
    ensures At(WakeFrom(s, ws, i, junk).heap, ws[i]).status != Blocked
  {
    hide InvBut, SetReady, Member;
    var pid := PidThrough(s, ws, i, junk);
    WakingLists(s, hole, pid, ws[i]);
    ReadiesFound(s, hole, ws[i]);
    WakeLeavesAwake(SetReady(s, pid).0, hole, ws, i + 1, junk, ws[i]);
  }

  /** Waking p leaves q as it is. */
  lemma WakesThis(s: Sched, hole: Ptr, p: Ptr, q: Ptr)
    requires InvBut(s, hole) && Member(s, p) && Member(s, q) && p != q
    ensures var t := SetReady(s, At(s.heap, p).pid).0;
            InvBut(t, hole) && t.procs == s.procs && At(t.heap, q).status == At(s.heap, q).status
  {
    FindsThis(s, p);
    SetReadyKeeps(s, hole, At(s.heap, p).pid);
    hide InvBut;
  }

  /** A waiting list without freed entries wakes nobody else. */
  lemma {:induction false} WakesNoOther(s: Sched, hole: Ptr, ws: seq<Ptr>, i: nat, q: Ptr, junk: Junk)
    requires InvBut(s, hole) && i <= |ws| && Member(s, q)
    requires forall k :: i <= k < |ws| ==> ws[k] != q && (ws[k] == NULL || Member(s, ws[k]))
    ensures At(WakeFrom(s, ws, i, junk).heap, q).status == At(s.heap, q).status
    decreases |ws| - i
  {
    if i < |ws| && ws[i] == NULL {
      WakesNoOther(s, hole, ws, i + 1, q, junk);
    } else if i < |ws| {
      var t := SetReady(s, PidThrough(s, ws, i, junk)).0;
      assert ws[i] in s.heap;
      WakesThis(s, hole, ws[i], q);
      hide InvBut, SetReady;
      WakesNoOther(t, hole, ws, i + 1, q, junk);
    }
  }

  /** Killing a process makes every listed process that waits for it ready, even if other waiters are gone. */
  lemma KillWakesWaiters(s: Sched, p: Ptr, junk: Junk, k: nat)
    requires Inv(s) && Member(s, p) && At(s.heap, p).pid != IDLE_PID && k < |At(s.heap, p).waiting|
    requires var q := At(s.heap, p).waiting[k]; Member(s, q) && q != p && At(s.heap, q).status == Blocked
    ensures At(s.heap, p).waiting[k] in Kill(s, p, junk).0.ready
  {
    var ws := At(s.heap, p).waiting;
    assert ws[k] != NULL;
    DequeueKeeps(s, p);
    WakesNamed(Dequeue(s, p), p, ws, 0, k, junk);
    KillSucceeds(s, p, junk);
    KillKeeps(s, p, junk);
    KillSpares(s, p, junk, ws[k]);
    WakeKeeps(Dequeue(s, p), p, ws, 0, junk);
    var t := Kill(s, p, junk).0;
    assert Member(t, ws[k]) && At(t.heap, ws[k]).status != Blocked;
    assert At(t.heap, ws[k]).status != Running;
  }

  /** If all waiters are still there, killing a process wakes nobody but them. */
  lemma KillWakesNoOther(s: Sched, p: Ptr, junk: Junk, q: Ptr)
    requires Inv(s) && Member(s, p) && Member(s, q) && q != p && q !in At(s.heap, p).waiting
    requires forall k :: 0 <= k < |At(s.heap, p).waiting| ==>
               At(s.heap, p).waiting[k] == NULL || Member(s, At(s.heap, p).waiting[k])
    ensures At(Kill(s, p, junk).0.heap, q) == At(s.heap, q)
  {
    EmptiedLeaves(s, p, junk, q);
    KillSucceeds(s, p, junk);
    KillSpares(s, p, junk, q);
    hide InvBut, Emptied, Kill;
  }

  lemma EmptiedLeaves(s: Sched, p: Ptr, junk: Junk, q: Ptr)
    requires Inv(s) && Member(s, p) && Member(s, q) && q != p && q !in At(s.heap, p).waiting
    requires forall k :: 0 <= k < |At(s.heap, p).waiting| ==>
               At(s.heap, p).waiting[k] == NULL || Member(s, At(s.heap, p).waiting[k])
    ensures At(Emptied(s, p, junk).heap, q).status == At(s.heap, q).status
  {
    var ws := At(s.heap, p).waiting;
    var d := Dequeue(s, p);
    DequeueKeeps(s, p);
    hide InvBut, WakeFrom, L.RemoveFirst;
    assert d.procs == s.procs && d.heap == s.heap;
    hide Dequeue;
    assert forall k :: 0 <= k < |ws| ==> ws[k] != q && (ws[k] == NULL || Member(d, ws[k]));
    WakesNoOther(d, p, ws, 0, q, junk);
  }

  // ---------------------------------------------------------------- who comes and goes

  /** The record that an action may add. */
  function FreshIn(a: Action): Ptr {
    if a.CreateAct? then a.ptr else NULL
  }

  /** Only its victims does an action take off the process list, and only a creation puts somebody on it. */
  lemma NextLists(s: Sched, a: Action, p: Ptr)
    requires Inv(s) && Allowed(s, a)
    ensures Member(Next(s, a), p) ==> Member(s, p) || p == FreshIn(a)
    ensures Member(s, p) ==> (Member(Next(s, a), p) <==> !Victim(s, a, p))
  {
    match a
    case KillAct(pid, junk, junk2) => KillProcessTakes(s, pid, junk, junk2, p);
    case ExitAct(junk, junk2) => InvSafe(s); KillProcessTakes(s, s.currentPid, junk, junk2, p);
    case InterruptAct(junk, junk2) => KillForegroundTakes(s, junk, junk2, p);
    case TickAct(rsp) => TickProcs(s, rsp);
    case YieldAct(rsp) => TickProcs(s.(quantums := 0), rsp);
    case BlockAct(pid, rsp) => BlockProcs(s, pid, rsp);
    case WaitAct(pid, rsp, node) =>
      BlockProcs(Enlist(s, FindProcess(s, pid), node), s.currentPid, rsp);
    case _ =>
  }

  lemma TickProcs(s: Sched, rsp: int)
    ensures Tick(s, rsp).0.procs == s.procs
  {
  }

  lemma BlockProcs(s: Sched, pid: int, rsp: int)
    ensures Block(s, pid, rsp).0.procs == s.procs
  {
    TickProcs(MarkBlocked(s, FindProcess(s, pid)).(quantums := 0), rsp);
  }
}
