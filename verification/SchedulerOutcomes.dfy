/**
 What each scheduler operation does, said of the records and lists themselves: quanta, new records, blocking and waking,
 waiting for a process to end, and what every operation leaves alone.
 */
module SchedulerOutcomes {
  import opened SchedulerSpec
  import opened SchedulerProofs

  /** t is s without p, in the same order. */
  ghost predicate Without(s: seq<Ptr>, t: seq<Ptr>, p: Ptr) {
    exists i :: 0 <= i < |s| && s[i] == p && t == s[..i] + s[i + 1..]
  }

  lemma RemoveWithout(q: seq<Ptr>, p: Ptr)
    requires p in q
    ensures Without(q, L.RemoveFirst(q, p), p)
  {
    var k := L.IndexOf(q, p);
    assert q[k] == p && L.RemoveFirst(q, p) == q[..k] + q[k + 1..];
  }

  // ---------------------------------------------------------------- the quantum

  /** A tick that leaves more than nothing of the quantum only counts down. */
  lemma TickCounts(s: Sched, rsp: int)
    requires Stopping(s) && s.quantums > 1
    ensures Tick(s, rsp) == (s.(quantums := s.quantums - 1), rsp)
  {
  }

  /** The ready list after the running process was put at its end; a blocked or killed one is not. */
  function Queue(s: Sched): seq<Ptr> {
    if s.current in s.heap && s.heap[s.current].status == Running then s.ready + [s.current] else s.ready
  }

  /** Whether the record at p is given back at the tick. */
  predicate Dies(s: Sched, p: Ptr) {
    p == s.current && p in s.heap && s.heap[p].status == Terminated
  }

  /** The record of p once the running process is off the processor. */
  function Stopped(s: Sched, p: Ptr, rsp: int): Process
    requires p in s.heap
  {
    var r := s.heap[p];
    if p != s.current then r else r.(stackPos := rsp, status := if r.status == Running then Ready else r.status)
  }

  /**
   A tick at the end of the quantum: the head of the ready list, the running process being its last, takes over with its
   priority as quantum and its stack position; the process that ran keeps the position it was stopped at, and the record of
   a killed one is gone.
   */
  lemma TickSwitches(s: Sched, rsp: int)
    requires Stopping(s) && s.quantums <= 1
    ensures Queue(s) != []
    ensures var h, (t, pos) := Queue(s)[0], Tick(s, rsp);
            && h in s.heap && !Dies(s, h)
            && t.current == h && t.currentPid == s.heap[h].pid && t.quantums == s.heap[h].priority
            && pos == Stopped(s, h, rsp).stackPos
            && t.ready == Queue(s)[1..] && t.blocked == s.blocked && t.procs == s.procs && t.qty == s.qty
            && (forall p :: p in t.heap <==> p in s.heap && !Dies(s, p))
            && t.heap[h] == Stopped(s, h, rsp).(status := Running)
            && forall p :: p in t.heap && p != h ==> t.heap[p] == Stopped(s, p, rsp)
  {
    assert Switches(s) by { SomeQty(s); }
    hide Stopping, AtRest, Retire, Tick, Queue, Stopped, Dies, Dispatched;
    TickDispatches(s, rsp);
    RetireIs(s, rsp);
    var r := Retire(s.(quantums := s.quantums - 1), rsp);
    HeadListed(r);
    DispatchIs(r);
    RunsHead(s, r, Dispatched(r), rsp);
  }

  /** What the records are like once the head of the ready list runs. */
  lemma RunsHead(s: Sched, r: Sched, t: Sched, rsp: int)
    requires r.ready != [] && r.ready[0] in r.heap && (forall p :: p in r.heap <==> p in s.heap && !Dies(s, p))
    requires forall p :: p in r.heap ==> r.heap[p] == Stopped(s, p, rsp)
    requires t.heap == r.heap[r.ready[0] := r.heap[r.ready[0]].(status := Running)]
    ensures r.ready[0] in s.heap && r.heap[r.ready[0]].pid == s.heap[r.ready[0]].pid
    ensures r.heap[r.ready[0]].priority == s.heap[r.ready[0]].priority
    ensures forall p :: p in t.heap <==> p in s.heap && !Dies(s, p)
    ensures t.heap[r.ready[0]] == Stopped(s, r.ready[0], rsp).(status := Running)
    ensures forall p :: p in t.heap && p != r.ready[0] ==> t.heap[p] == Stopped(s, p, rsp)
  {
    hide Dies;
  }

  lemma DispatchIs(r: Sched)
    requires r.ready != [] && r.ready[0] in r.heap
    ensures var h, t := r.ready[0], Dispatched(r);
            && t == r.(heap := r.heap[h := r.heap[h].(status := Running)], ready := r.ready[1..], current := h,
                       currentPid := r.heap[h].pid, quantums := r.heap[h].priority)
            && At(r.heap, h) == r.heap[h]
  {
  }

  lemma SomeQty(s: Sched)
    requires Stopping(s)
    ensures s.qty > 0
  {
    SomeProcess(s);
  }

  lemma RetireIs(s: Sched, rsp: int)
    requires Stopping(s)
    ensures var r := Retire(s.(quantums := s.quantums - 1), rsp);
            && r.ready == Queue(s) && r.blocked == s.blocked && r.procs == s.procs && r.qty == s.qty
            && (forall p :: p in r.heap <==> p in s.heap && !Dies(s, p))
            && forall p :: p in r.heap ==> r.heap[p] == Stopped(s, p, rsp)
  {
    assert NULL !in s.heap;
    hide ListsOk, TableOk, QueuesOk, IdleOk, NoLeak;
  }

  lemma HeadListed(r: Sched)
    requires AtRest(r) && r.ready != []
    ensures r.ready[0] in r.heap
  {
    assert r.ready[0] in r.ready;
    assert Member(r, r.ready[0]);
  }

  /** Ticks, each at some stack position. */
  function Ticks(s: Sched, rsps: seq<int>): Sched
    decreases |rsps|
  {
    if rsps == [] then s else Ticks(Tick(s, rsps[0]).0, rsps[1..])
  }

  /**
   A process that was dispatched with priority q stays on the processor for q - 1 ticks, during which nothing changes but
   the quantum that is left, and the q-th tick takes it off. (A priority of 0 counts as 1.)
   */
  lemma {:induction false} FullQuantum(s: Sched, rsps: seq<int>)
    requires Inv(s) && |rsps| < s.quantums
    ensures Ticks(s, rsps) == s.(quantums := s.quantums - |rsps|)
    decreases |rsps|
  {
    if rsps != [] {
      InvStops(s);
      TickCounts(s, rsps[0]);
      TickKeeps(s, rsps[0]);
      hide Inv, Tick, Stopping;
      FullQuantum(Tick(s, rsps[0]).0, rsps[1..]);
    }
  }

  lemma QuantumEnds(s: Sched, rsps: seq<int>, rsp: int)
    requires Inv(s) && s.current != NULL && Member(s, s.current) && |rsps| == s.quantums - 1
    ensures var t := Tick(Ticks(s, rsps), rsp).0;
            && t.current == (s.ready + [s.current])[0] && t.ready == (s.ready + [s.current])[1..]
            && t.current in s.heap && t.quantums == s.heap[t.current].priority
            && (s.ready != [] ==> t.current != s.current && s.current in t.ready)
            && s.current in t.heap && t.heap[s.current].stackPos == rsp
  {
    FullQuantum(s, rsps);
    var u := s.(quantums := 1);
    LastTick(s);
    RunsNotReady(s);
    hide Stopping, Inv;
    TickSwitches(u, rsp);
    hide Tick, Ticks;
    if s.ready != [] {
      assert (s.ready + [s.current])[1..] == s.ready[1..] + [s.current];
    }
  }

  lemma LastTick(s: Sched)
    requires Inv(s)
    ensures Stopping(s.(quantums := 1))
  {
    InvStops(s);
    assert forall x :: Member(s.(quantums := 1), x) <==> Member(s, x);
  }

  lemma RunsNotReady(s: Sched)
    requires Inv(s) && s.current != NULL && Member(s, s.current)
    ensures s.current in s.heap && s.heap[s.current].status == Running
    ensures s.ready != [] ==> s.ready[0] in s.heap && s.ready[0] != s.current
  {
    InvSafe(s);
    if s.ready != [] {
      assert s.ready[0] in s.ready;
      assert Member(s, s.ready[0]);
    }
  }

  // ---------------------------------------------------------------- giving up the processor

  /** Whether an action leaves the running process its quantum: any but a tick, a yield, and blocking or waiting oneself. */
  predicate Undisturbing(s: Sched, a: Action) {
    match a
    case TickAct(_) => false
    case YieldAct(_) => false
    case BlockAct(pid, _) => pid != s.currentPid
    case WaitAct(_, _, _) => false
    case _ => true
  }

  /** Other actions take the processor from nobody, whoever is killed, and leave the quantum alone. */
  lemma KeepsQuantum(s: Sched, a: Action)
    requires Inv(s) && Allowed(s, a) && Undisturbing(s, a)
    ensures var t := Next(s, a); t.current == s.current && t.currentPid == s.currentPid && t.quantums == s.quantums
  {
    match a
    case CreateAct(_, _, _, _, _, _) =>
    case ReadyAct(pid) => SetReadyWakes(s, NULL, pid);
    case BlockAct(pid, _) => Finds(s, pid);
    case KillAct(pid, junk, junk2) => KillKeepsCurrent(s, pid, junk, junk2);
    case ExitAct(junk, junk2) => InvSafe(s); KillKeepsCurrent(s, s.currentPid, junk, junk2);
    case InterruptAct(junk, junk2) => InterruptKeepsCurrent(s, junk, junk2);
    case PriorityAct(pid, _) =>
    case FdsAct(pid, _, _) =>
  }

  lemma KillKeepsCurrent(s: Sched, pid: int, junk: Junk, junk2: Junk)
    requires Inv(s) && pid != IDLE_PID
    ensures var t := KillProcess(s, pid, junk, junk2).0;
            t.current == s.current && t.currentPid == s.currentPid && t.quantums == s.quantums
  {
    var p := FindProcess(s, pid);
    Finds(s, pid);
    if p != NULL {
      var t := Kill(s, p, junk).0;
      var r := PipedTo(t.heap, t.procs, PipedFd(At(s.heap, p)));
      KillSucceeds(s, p, junk);
      KillSpares(s, p, junk, p);
      KillKeeps(s, p, junk);
      assert !Member(t, NULL);
      PipedToIs(t.heap, t.procs, PipedFd(At(s.heap, p)));
      hide Kill, InvBut;
      if PipedFd(At(s.heap, p)) != -1 && r != NULL {
        assert Member(t, r);
        KillSpares(t, r, junk2, r);
      }
    }
  }

  lemma InterruptKeepsCurrent(s: Sched, junk: Junk, junk2: Junk)
    requires Inv(s)
    ensures var t := KillForeground(s, junk, junk2).0;
            t.current == s.current && t.currentPid == s.currentPid && t.quantums == s.quantums
  {
    InvSafe(s);
    if s.current != NULL && InForeground(At(s.heap, s.current)) {
      KillKeepsCurrent(s, At(s.heap, s.current).pid, junk, junk2);
    } else if s.current != NULL {
      var p := Foreground(s.heap, s.procs);
      ForegroundIs(s.heap, s.procs);
      if p != NULL {
        assert Member(s, p);
        KillSpares(s, p, junk, p);
      }
    }
  }

  /** The ticks of a run. */
  function TickCount(run: seq<Action>): nat {
    if run == [] then 0 else TickCount(run[1..]) + if run[0].TickAct? then 1 else 0
  }

  /** Nobody on the processor gives it up. */
  predicate KeepsAtIt(s: Sched, run: seq<Action>)
    decreases |run|
  {
    run == [] || ((run[0].TickAct? || Undisturbing(s, run[0])) && KeepsAtIt(Next(s, run[0]), run[1..]))
  }

  /**
   Whatever else happens, a process that does not give up the processor keeps it for exactly its quantum: after fewer ticks
   than the quantum that is left it is still the current one, and each tick took one off.
   */
  lemma {:induction false} KeepsProcessor(s: Sched, run: seq<Action>)
    requires Inv(s) && AllowedRun(s, run) && KeepsAtIt(s, run) && TickCount(run) < s.quantums
    ensures var t := Final(s, run);
            t.current == s.current && t.currentPid == s.currentPid && t.quantums == s.quantums - TickCount(run)
    decreases |run|
  {
    if run != [] {
      NextKeeps(s, run[0]);
      InvStops(s);
      if run[0].TickAct? {
        TickCounts(s, run[0].rsp);
      } else {
        KeepsQuantum(s, run[0]);
      }
      hide Inv, Next, Allowed, Stopping, Undisturbing;
      KeepsProcessor(Next(s, run[0]), run[1..]);
    }
  }

  // ---------------------------------------------------------------- creation

  /** Some listed process has this pid. */
  ghost predicate Taken(s: Sched, pid: int) {
    exists p :: Member(s, p) && p in s.heap && s.heap[p].pid == pid
  }

  lemma TakenIs(s: Sched, pid: int)
    requires Inv(s)
    ensures Taken(s, pid) <==> FindProcess(s, pid) != NULL
  {
    Finds(s, pid);
    InvSafe(s);
    hide InvBut, FindProcess;
  }

  /**
   createProcess fails exactly if it gets no record or there are 30 processes; otherwise the record holds what the caller
   gave and the least free pid, the process is the last one in the list and in the ready list, and nothing else changes.
   */
  lemma Creates(s: Sched, priority: nat, stdin: int, stdout: int, ground: int, ptr: Ptr, stack: int)
    requires Inv(s) && ptr !in s.heap
    ensures var (t, pid) := Create(s, priority, stdin, stdout, ground, ptr, stack);
            && (pid == -1 <==> ptr == 0 || |s.procs| >= 30)
            && (pid == -1 ==> t == s)
            && (pid != -1 ==>
                  && t == s.(heap := s.heap[ptr := Process(pid, priority, Ready, stdin, stdout, ground, stack, [])],
                             procs := s.procs + [ptr], ready := s.ready + [ptr], qty := s.qty + 1)
                  && 0 <= pid < 30 && !Taken(s, pid) && forall q :: 0 <= q < pid ==> Taken(s, q))
  {
    if ptr != NULL && s.qty < MAX_PROCESS {
      PidIsFree(s);
      forall q ensures Taken(s, q) <==> FindProcess(s, q) != NULL {
        TakenIs(s, q);
      }
    }
  }

  /** The kernel's first process is idle, as createScheduler describes it. */
  lemma Boots(ptr: Ptr, stack: int)
    requires ptr != 0
    ensures Boot(ptr, stack) == Sched(map[ptr := Process(0, 1, Ready, -1, -1, 1, stack, [])], [ptr], [ptr], [], 0, -1, 1, 1)
  {
    assert FindProcess(Empty, 0) == NULL;
    assert FreePid(Empty, 0) == 0;
    assert [] + [ptr] == [ptr];
  }

  // ---------------------------------------------------------------- blocking and waking

  /**
   setReadyProcess moves a blocked process from the blocked list to the end of the ready list, and leaves any other one
   alone; it fails exactly for a pid that no process has.
   */
  lemma Wakes(s: Sched, p: Ptr)
    requires Inv(s) && Member(s, p) && p in s.heap
    ensures var (t, r) := SetReady(s, s.heap[p].pid);
            && r == 0
            && if s.heap[p].status == Blocked
               then t == s.(heap := s.heap[p := s.heap[p].(status := Ready)], ready := s.ready + [p], blocked := t.blocked)
                    && Without(s.blocked, t.blocked, p)
               else t == s
  {
    FindsThis(s, p);
    if s.heap[p].status == Blocked {
      RemoveWithout(s.blocked, p);
    }
  }

  /** blockProcess of a ready process moves it to the end of the blocked list, and of a blocked one does nothing. */
  lemma BlocksOther(s: Sched, p: Ptr, rsp: int)
    requires Inv(s) && Member(s, p) && p in s.heap && p != s.current && s.heap[p].pid != s.currentPid
    ensures var (t, r) := Block(s, s.heap[p].pid, rsp);
            && r == 0
            && if s.heap[p].status == Ready
               then t == s.(heap := s.heap[p := s.heap[p].(status := Blocked)], blocked := s.blocked + [p], ready := t.ready)
                    && Without(s.ready, t.ready, p)
               else s.heap[p].status == Blocked && t == s
  {
    FindsThis(s, p);
    if s.heap[p].status == Ready {
      RemoveWithout(s.ready, p);
    }
  }

  /** A process that blocks itself ends up in the blocked list, and the head of the ready list takes over. */
  lemma BlocksSelf(s: Sched, rsp: int)
    requires Inv(s) && s.current != NULL && Member(s, s.current) && s.currentPid != 0
    ensures s.ready != [] && s.ready[0] in s.heap && s.current in s.heap
    ensures var (t, r) := Block(s, s.currentPid, rsp);
            && r == 0 && t.blocked == s.blocked + [s.current] && t.procs == s.procs
            && t.current == s.ready[0] && t.ready == s.ready[1..] && t.quantums == s.heap[s.ready[0]].priority
            && t.heap == s.heap[s.current := s.heap[s.current].(status := Blocked, stackPos := rsp)]
                               [s.ready[0] := s.heap[s.ready[0]].(status := Running)]
  {
    BlockingStops(s, rsp);
    RunsNotReady(s);
    hide InvBut, Stopping, Block, Tick;
    BlockedTick(Blocking(s), rsp);
    var c, h := s.current, s.ready[0];
    Overwritten(s.heap, c, s.heap[c].(status := Blocked), s.heap[c].(status := Blocked, stackPos := rsp), h, s.heap[h].(status := Running));
  }

  lemma Overwritten(heap: map<Ptr, Process>, c: Ptr, was: Process, now: Process, h: Ptr, head: Process)
    ensures heap[c := was][c := now][h := head] == heap[c := now][h := head]
  {
  }

  /** The running process marked as blocked, at the end of its quantum. */
  function Blocking(s: Sched): Sched
    requires s.current in s.heap
  {
    s.(heap := s.heap[s.current := s.heap[s.current].(status := Blocked)], blocked := s.blocked + [s.current], quantums := 0)
  }

  /** The last tick of a process that is marked blocked already. */
  lemma BlockedTick(s: Sched, rsp: int)
    requires Stopping(s) && s.quantums <= 1 && s.current in s.heap && s.heap[s.current].status == Blocked
    ensures s.ready != [] && s.ready[0] in s.heap
    ensures var t := Tick(s, rsp).0;
            && t.blocked == s.blocked && t.procs == s.procs
            && t.current == s.ready[0] && t.ready == s.ready[1..] && t.quantums == s.heap[s.ready[0]].priority
            && (s.ready[0] != s.current ==>
                  t.heap == s.heap[s.current := s.heap[s.current].(stackPos := rsp)]
                                  [s.ready[0] := s.heap[s.ready[0]].(status := Running)])
  {
    TickSwitches(s, rsp);
    hide Tick, Stopping;
    assert Queue(s) == s.ready;
    assert forall p :: p in Tick(s, rsp).0.heap <==> p in s.heap;
  }

  /** The moment before the tick by which a process blocks itself. */
  lemma BlockingStops(s: Sched, rsp: int)
    requires Inv(s) && s.current != NULL && Member(s, s.current) && s.currentPid != 0
    ensures s.current in s.heap
    ensures Stopping(Blocking(s)) && Block(s, s.currentPid, rsp) == (Tick(Blocking(s), rsp).0, 0)
    ensures s.ready != [] ==> s.ready[0] != s.current
  {
    InvSafe(s);
    FindsThis(s, s.current);
    MarkBlockedRunning(s, s.current);
    QuantumStops(MarkBlocked(s, s.current));
    if s.ready != [] {
      assert s.ready[0] in s.ready;
    }
    hide Tick;
  }

  /** yield is a tick at the end of the quantum, whatever is left of it. */
  lemma Yields(s: Sched, rsp: int)
    requires Inv(s)
    ensures Stopping(s.(quantums := 0)) && Yield(s, rsp) == Tick(s.(quantums := 0), rsp).0
  {
    InvStops(s);
    QuantumStops(s);
  }

  // ---------------------------------------------------------------- changes

  /** changePriority sets priorities from 1 to 10 of listed processes, and refuses all others. */
  lemma SetsPriority(s: Sched, pid: int, priority: nat)
    requires Inv(s)
    ensures var (t, r) := ChangePriority(s, pid, priority);
            && (r == -1 <==> priority < 1 || priority > 10 || !Taken(s, pid))
            && (r == -1 ==> t == s)
            && forall p :: Member(s, p) && p in s.heap && s.heap[p].pid == pid && r != -1 ==>
                 r == priority && t == s.(heap := s.heap[p := s.heap[p].(priority := priority)])
  {
    TakenIs(s, pid);
    OneWith(s, pid);
    hide InvBut, FindProcess;
  }

  lemma OneWith(s: Sched, pid: int)
    requires Inv(s)
    ensures forall p :: Member(s, p) && p in s.heap && s.heap[p].pid == pid ==> p == FindProcess(s, pid) && p != NULL
  {
    Finds(s, pid);
    InvSafe(s);
    hide FindProcess;
  }

  lemma SetsDescriptors(s: Sched, pid: int, stdin: int, stdout: int)
    requires Inv(s)
    ensures var (t, r) := ChangeFds(s, pid, stdin, stdout);
            && r == (if Taken(s, pid) then 0 else -1) && (r == -1 ==> t == s)
            && forall p :: Member(s, p) && p in s.heap && s.heap[p].pid == pid ==>
                 t == s.(heap := s.heap[p := s.heap[p].(stdin := stdin, stdout := stdout)])
  {
    TakenIs(s, pid);
    OneWith(s, pid);
    hide InvBut, FindProcess;
  }

  // ---------------------------------------------------------------- what an operation leaves alone

  /** The same record, but for the status and the saved stack position. */
  predicate SameCore(r: Process, r': Process) {
    r' == r.(status := r'.status, stackPos := r'.stackPos)
  }

  /** Nobody who is on the list of both loses anything by the operation, but perhaps the status and the stack position. */
  ghost predicate Frames(s: Sched, t: Sched, q: Ptr) {
    q in s.heap && q in t.heap ==> SameCore(s.heap[q], t.heap[q]) && (q != s.current ==> t.heap[q].stackPos == s.heap[q].stackPos)
  }

  lemma TickFrames(s: Sched, rsp: int, q: Ptr)
    requires Stopping(s)
    ensures Frames(s, Tick(s, rsp).0, q)
  {
    if s.quantums > 1 {
      TickCounts(s, rsp);
    } else {
      TickSwitches(s, rsp);
      hide Tick, Stopping, Queue;
    }
  }

  lemma BlockFrames(s: Sched, pid: int, rsp: int, q: Ptr)
    requires Inv(s) && pid != IDLE_PID
    ensures Frames(s, Block(s, pid, rsp).0, q)
  {
    var p := FindProcess(s, pid);
    Finds(s, pid);
    if p != NULL {
      BlockStops(s, p);
      var m := MarkBlocked(s, p);
      MarkFrames(s, p, q);
      hide InvBut, Stopping, MarkBlocked, FindProcess, Frames;
      QuantumStops(m);
      TickFrames(m.(quantums := 0), rsp, q);
      hide Tick;
      FramesTwice(s, m, m.(quantums := 0), q);
      FramesTwice(s, m.(quantums := 0), Tick(m.(quantums := 0), rsp).0, q);
    }
  }

  lemma MarkFrames(s: Sched, p: Ptr, q: Ptr)
    requires p in s.heap
    ensures var m := MarkBlocked(s, p); Frames(s, m, q) && m.current == s.current && m.heap.Keys == s.heap.Keys
    ensures var m := MarkBlocked(s, p); Frames(m, m.(quantums := 0), q)
    ensures Frames(s, s, q)
  {
  }

  lemma FramesTwice(s: Sched, m: Sched, t: Sched, q: Ptr)
    requires Frames(s, m, q) && Frames(m, t, q) && m.current == s.current && m.heap.Keys == s.heap.Keys
    ensures Frames(s, t, q)
  {
  }

  lemma KillFrames(s: Sched, a: Action, q: Ptr)
    requires Inv(s) && Allowed(s, a) && (a.KillAct? || a.ExitAct? || a.InterruptAct?) && Member(Next(s, a), q)
    ensures Frames(s, Next(s, a), q)
  {
    match a
    case KillAct(pid, junk, junk2) => KillProcessSpares(s, pid, junk, junk2, q);
    case ExitAct(junk, junk2) => InvSafe(s); KillProcessSpares(s, s.currentPid, junk, junk2, q);
    case InterruptAct(junk, junk2) => KillForegroundSpares(s, junk, junk2, q);
  }

  /** Who waits for q after an action, when whoever ran was listed. */
  function Waiting(s: Sched, a: Action, r: Process): seq<Ptr> {
    if a.WaitAct? && a.node && a.pid == r.pid && a.pid != s.currentPid then r.waiting + [s.current] else r.waiting
  }

  /** The record of q after an action, status and stack position apart. */
  function Changed(s: Sched, a: Action, r: Process): Process {
    if a.PriorityAct? && a.pid == r.pid && 1 <= a.priority <= 10 then r.(priority := a.priority)
    else if a.FdsAct? && a.pid == r.pid then r.(stdin := a.stdin, stdout := a.stdout)
    else r.(waiting := Waiting(s, a, r))
  }

  lemma WaitFrames(s: Sched, pid: int, rsp: int, node: bool, q: Ptr)
    requires Inv(s) && s.currentPid != IDLE_PID && Member(s, s.current)
    ensures var t := WaitFor(s, pid, rsp, node).0;
            q in s.heap && q in t.heap ==>
              && SameCore(Changed(s, WaitAct(pid, rsp, node), s.heap[q]), t.heap[q])
              && (q != s.current ==> t.heap[q].stackPos == s.heap[q].stackPos)
  {
    var p := FindProcess(s, pid);
    Finds(s, pid);
    InvSafe(s);
    FindsThis(s, s.current);
    if p != NULL && s.currentPid != pid {
      EnlistKeeps(s, pid, node);
      var e := Enlist(s, p, node);
      EnlistChanges(s, pid, p, rsp, node, q);
      hide InvBut, FindProcess, Block, Changed, Enlist;
      BlockFrames(e, s.currentPid, rsp, q);
    } else if q in s.heap {
      NobodyElse(s, pid, q);
    }
  }

  lemma EnlistChanges(s: Sched, pid: int, p: Ptr, rsp: int, node: bool, q: Ptr)
    requires Inv(s) && Member(s, s.current) && p == FindProcess(s, pid) && p != NULL && s.currentPid != pid
    requires FindProcess(s, s.currentPid) == s.current
    ensures var e := Enlist(s, p, node);
            && e.current == s.current && e.currentPid == s.currentPid && (q in e.heap <==> q in s.heap)
            && (q in s.heap ==> e.heap[q] == Changed(s, WaitAct(pid, rsp, node), s.heap[q]))
  {
    Finds(s, pid);
    OneRecord(s, p, q);
    InvSafe(s);
    hide InvBut, FindProcess;
  }

  lemma OneRecord(s: Sched, p: Ptr, q: Ptr)
    requires Inv(s) && Member(s, p) && Member(s, s.current)
    ensures p in s.heap && (q in s.heap && s.heap[q].pid == s.heap[p].pid ==> q == p)
  {
    InvSafe(s);
  }

  lemma NobodyElse(s: Sched, pid: int, q: Ptr)
    requires Inv(s) && Member(s, s.current) && q in s.heap && (FindProcess(s, pid) == NULL || s.currentPid == pid)
    ensures s.heap[q].pid != pid || pid == s.currentPid
  {
    Finds(s, pid);
    assert Member(s, q);
  }

  /** What NextFrames says of one action. */
  ghost predicate Framed(s: Sched, a: Action, t: Sched, q: Ptr) {
    && q in s.heap && q in t.heap && SameCore(Changed(s, a, s.heap[q]), t.heap[q])
    && (q != s.current ==> t.heap[q].stackPos == s.heap[q].stackPos)
  }

  lemma ChangesFramed(s: Sched, a: Action, q: Ptr)
    requires Inv(s) && Allowed(s, a) && Member(s, q) && q in s.heap
    requires a.PriorityAct? || a.FdsAct? || a.CreateAct? || a.ReadyAct?
    ensures Framed(s, a, Next(s, a), q)
  {
    match a
    case CreateAct(_, _, _, _, _, _) => hide InvBut, FreePid;
    case ReadyAct(pid) => ReadyFramed(s, pid, q);
    case PriorityAct(pid, priority) => PriorityFramed(s, pid, priority, q);
    case FdsAct(pid, stdin, stdout) => DescriptorsFramed(s, pid, stdin, stdout, q);
  }

  lemma PriorityFramed(s: Sched, pid: int, priority: nat, q: Ptr)
    requires Inv(s) && Member(s, q) && q in s.heap
    ensures Framed(s, PriorityAct(pid, priority), Next(s, PriorityAct(pid, priority)), q)
  {
    FindsThis(s, q);
    Finds(s, pid);
    hide InvBut, FindProcess;
  }

  lemma DescriptorsFramed(s: Sched, pid: int, stdin: int, stdout: int, q: Ptr)
    requires Inv(s) && Member(s, q) && q in s.heap
    ensures Framed(s, FdsAct(pid, stdin, stdout), Next(s, FdsAct(pid, stdin, stdout)), q)
  {
    FindsThis(s, q);
    Finds(s, pid);
    hide InvBut, FindProcess;
  }

  /**
   Every action changes the record of a listed process in the one way that it is for, and leaves the rest of it alone; the
   stack position changes only when the process is taken off the processor.
   */
  lemma NextFrames(s: Sched, a: Action, q: Ptr)
    requires Inv(s) && Allowed(s, a) && Member(s, q) && Member(Next(s, a), q) && (a.WaitAct? ==> Member(s, s.current))
    ensures Framed(s, a, Next(s, a), q)
  {
    InvSafe(s);
    NextKeeps(s, a);
    InvSafe(Next(s, a));
    InvStops(s);
    QuantumStops(s);
    hide InvBut, Stopping, Tick, Block, WaitFor, KillProcess, KillForeground, Create, SetReady, ChangePriority, ChangeFds;
    hide Frames, Framed, Changed, SameCore, Member;
    match a
    case TickAct(rsp) => TickFrames(s, rsp, q); FramesOnly(s, a, Next(s, a), q);
    case YieldAct(rsp) => YieldFrames(s, rsp, q); FramesOnly(s, a, Next(s, a), q);
    case BlockAct(pid, rsp) => BlockFrames(s, pid, rsp, q); FramesOnly(s, a, Next(s, a), q);
    case KillAct(_, _, _) => KillFrames(s, a, q); FramesOnly(s, a, Next(s, a), q);
    case ExitAct(_, _) => KillFrames(s, a, q); FramesOnly(s, a, Next(s, a), q);
    case InterruptAct(_, _) => KillFrames(s, a, q); FramesOnly(s, a, Next(s, a), q);
    case WaitAct(pid, rsp, node) => WaitFramed(s, a, q);
    case _ => ChangesFramed(s, a, q);
  }

  lemma ReadyFramed(s: Sched, pid: int, q: Ptr)
    requires Inv(s) && q in s.heap
    ensures Framed(s, ReadyAct(pid), Next(s, ReadyAct(pid)), q)
  {
    SetReadyWakes(s, NULL, pid);
    SetReadyStack(s, pid, q);
    hide InvBut, SetReady;
  }

  lemma FramesOnly(s: Sched, a: Action, t: Sched, q: Ptr)
    requires Frames(s, t, q) && q in s.heap && q in t.heap && !a.PriorityAct? && !a.FdsAct? && !a.WaitAct?
    ensures Framed(s, a, t, q)
  {
  }

  lemma YieldFrames(s: Sched, rsp: int, q: Ptr)
    requires Stopping(s)
    ensures Frames(s, Yield(s, rsp), q)
  {
    QuantumStops(s);
    hide Stopping, Tick;
    TickFrames(s.(quantums := 0), rsp, q);
  }

  lemma WaitFramed(s: Sched, a: Action, q: Ptr)
    requires Inv(s) && a.WaitAct? && s.currentPid != IDLE_PID && Member(s, s.current) && q in s.heap && q in Next(s, a).heap
    ensures Framed(s, a, Next(s, a), q)
  {
    hide Inv, WaitFor, Member;
    WaitFrames(s, a.pid, a.rsp, a.node, q);
    hide Changed;
  }

  lemma SetReadyStack(s: Sched, pid: int, q: Ptr)
    requires Inv(s)
    ensures Frames(s, SetReady(s, pid).0, q)
  {
    SetReadyWakes(s, NULL, pid);
  }

  // ---------------------------------------------------------------- whom a kill takes

  /** killProcess takes along the first other process that has the descriptor p is redirected to, stdin before stdout. */
  lemma KillsBothEnds(s: Sched, p: Ptr, fd: int, i: nat, junk: Junk, junk2: Junk)
    requires Inv(s) && Member(s, p) && p in s.heap && s.heap[p].pid != 0
    requires fd != -1 && ((s.heap[p].stdin == fd && fd != 0) || (s.heap[p].stdin == 0 && s.heap[p].stdout == fd && fd != 1))
    requires i < |s.procs| && s.procs[i] != p && s.procs[i] in s.heap
    requires s.heap[s.procs[i]].stdin == fd || s.heap[s.procs[i]].stdout == fd
    requires forall j :: 0 <= j < i && s.procs[j] != p ==>
               s.procs[j] in s.heap && s.heap[s.procs[j]].stdin != fd && s.heap[s.procs[j]].stdout != fd
    ensures var (t, r) := KillProcess(s, s.heap[p].pid, junk, junk2);
            r == 0 && forall q :: q in t.procs <==> q in s.procs && q != p && q != s.procs[i]
  {
    var t := KillProcess(s, s.heap[p].pid, junk, junk2).0;
    KillsListed(s, p, junk, junk2);
    assert PipedOn(s.heap[p], fd) && FirstUser(s.heap, s.procs, p, fd, i);
    hide InvBut, KillProcess, FirstUser, PipedOn;
    forall q ensures q in t.procs <==> q in s.procs && q != p && q != s.procs[i] {
      TakesExactly(s, p, q, junk, junk2);
      if Partner(s, p, q) {
        OnePartner(s, p, q, s.procs[i]);
      }
      assert Member(t, q) <==> q in t.procs;
      assert Member(s, q) <==> q in s.procs;
    }
  }

  lemma TakesExactly(s: Sched, p: Ptr, q: Ptr, junk: Junk, junk2: Junk)
    requires Inv(s) && Member(s, p) && p in s.heap && s.heap[p].pid != 0
    ensures Member(KillProcess(s, s.heap[p].pid, junk, junk2).0, q) <==> Member(s, q) && q != p && !Partner(s, p, q)
  {
    KillProcessTakes(s, s.heap[p].pid, junk, junk2, q);
    NamedIs(s, p, q);
  }

  /** A kill of a listed process does not fail, and one of any other pid does nothing but fail. */
  lemma KillsListed(s: Sched, p: Ptr, junk: Junk, junk2: Junk)
    requires Inv(s) && Member(s, p) && p in s.heap && s.heap[p].pid != 0
    ensures KillProcess(s, s.heap[p].pid, junk, junk2).1 == 0
  {
    FindsThis(s, p);
    KillSucceeds(s, p, junk);
    KillKeeps(s, p, junk);
    var t := Kill(s, p, junk).0;
    var fd := PipedFd(At(s.heap, p));
    if fd != -1 {
      PartnerNotIdle(t, fd);
      var r := PipedTo(t.heap, t.procs, fd);
      hide Kill;
      if r != NULL {
        KillSucceeds(t, r, junk2);
      }
    }
  }

  lemma KillsNobody(s: Sched, pid: int, junk: Junk, junk2: Junk)
    requires Inv(s) && !Taken(s, pid)
    ensures KillProcess(s, pid, junk, junk2) == (s, -1)
  {
    TakenIs(s, pid);
  }

  /** It takes nobody along if both descriptors are the terminal's, the first other one is -1, or nobody else has it. */
  lemma KillsAlone(s: Sched, p: Ptr, junk: Junk, junk2: Junk)
    requires Inv(s) && Member(s, p) && p in s.heap && s.heap[p].pid != 0
    requires var r := s.heap[p];
             var fd := if r.stdin != 0 then r.stdin else if r.stdout != 1 then r.stdout else -1;
             fd == -1 || forall q :: q in s.procs && q != p && q in s.heap ==> s.heap[q].stdin != fd && s.heap[q].stdout != fd
    ensures var (t, r) := KillProcess(s, s.heap[p].pid, junk, junk2);
            r == 0 && forall q :: q in t.procs <==> q in s.procs && q != p
  {
    var t := KillProcess(s, s.heap[p].pid, junk, junk2).0;
    KillsListed(s, p, junk, junk2);
    assert forall i: nat :: i < |s.procs| ==> s.procs[i] in s.procs;
    assert forall q :: !Partner(s, p, q);
    hide InvBut, KillProcess, Partner;
    forall q ensures q in t.procs <==> q in s.procs && q != p {
      TakesExactly(s, p, q, junk, junk2);
      assert Member(t, q) <==> q in t.procs;
      assert Member(s, q) <==> q in s.procs;
    }
  }

  /** The interrupt key kills the running process if that is in the foreground and not the shell, as killProcess does. */
  lemma InterruptsRunning(s: Sched, junk: Junk, junk2: Junk)
    requires Inv(s)
    ensures s.current == NULL ==> KillForeground(s, junk, junk2) == (s, -1)
    ensures s.current != NULL ==>
              && s.current in s.heap
              && (s.heap[s.current].ground == 0 && s.heap[s.current].pid != 1 ==>
                    KillForeground(s, junk, junk2) == KillProcess(s, s.currentPid, junk, junk2))
  {
    InvSafe(s);
    hide InvBut, KillProcess, Kill, Foreground;
  }

  /** Otherwise it kills the first such process in the list, alone. */
  lemma InterruptsFirst(s: Sched, i: nat, junk: Junk, junk2: Junk)
    requires Inv(s) && s.current != NULL && s.current in s.heap && (s.heap[s.current].ground != 0 || s.heap[s.current].pid == 1)
    requires i < |s.procs| && s.procs[i] in s.heap && s.heap[s.procs[i]].ground == 0 && s.heap[s.procs[i]].pid != 1
    requires forall j :: 0 <= j < i && s.procs[j] in s.heap ==> s.heap[s.procs[j]].ground != 0 || s.heap[s.procs[j]].pid == 1
    ensures KillForeground(s, junk, junk2) == Kill(s, s.procs[i], junk)
  {
    ListedRecords(s);
    hide InvBut, Kill, KillProcess, Foreground;
    var k := ForegroundFirst(s.heap, s.procs);
    OneForeground(s.heap, s.procs, i, k);
  }

  lemma ListedRecords(s: Sched)
    requires Inv(s)
    ensures NULL !in s.procs && forall q :: q in s.procs ==> q in s.heap
  {
    InvSafe(s);
    assert forall q :: q in s.procs ==> Member(s, q);
  }

  lemma OneForeground(heap: map<Ptr, Process>, procs: seq<Ptr>, i: nat, k: nat)
    requires (forall q :: q in procs ==> q in heap) && i < |procs| && k <= |procs|
    requires heap[procs[i]].ground == 0 && heap[procs[i]].pid != 1
    requires forall j :: 0 <= j < i && procs[j] in heap ==> heap[procs[j]].ground != 0 || heap[procs[j]].pid == 1
    requires k < |procs| ==> Interruptible(heap, procs[k])
    requires forall j :: 0 <= j < k ==> !Interruptible(heap, procs[j])
    ensures i == k
  {
    assert Interruptible(heap, procs[i]);
  }

  /** And if there is none, nobody. */
  lemma InterruptsNobody(s: Sched, junk: Junk, junk2: Junk)
    requires Inv(s) && s.current != NULL && s.current in s.heap && (s.heap[s.current].ground != 0 || s.heap[s.current].pid == 1)
    requires forall q :: q in s.procs && q in s.heap ==> s.heap[q].ground != 0 || s.heap[q].pid == 1
    ensures KillForeground(s, junk, junk2) == (s, 0)
  {
    ListedRecords(s);
    hide InvBut, Kill, KillProcess, Foreground;
    assert forall j :: 0 <= j < |s.procs| ==> s.procs[j] in s.procs;
    var k := ForegroundFirst(s.heap, s.procs);
  }

  /** The shell survives the interrupt key, unless the process that it kills is redirected to one of the shell's descriptors. */
  lemma ShellSurvives(s: Sched, shell: Ptr, junk: Junk, junk2: Junk)
    requires Inv(s) && Member(s, shell) && shell in s.heap && s.heap[shell].pid == 1
    requires s.heap[shell].stdin == 0 && s.heap[shell].stdout == 1
    requires forall p :: p in s.heap && s.heap[p].pid == s.currentPid ==>
               s.heap[p].stdin != 1 && (s.heap[p].stdin == 0 ==> s.heap[p].stdout != 0)
    ensures shell in KillForeground(s, junk, junk2).0.procs
  {
    KillForegroundTakes(s, junk, junk2, shell);
    InvSafe(s);
    assert forall p :: p in s.heap && s.heap[p].pid == s.currentPid ==> !Partner(s, p, shell);
    assert Member(KillForeground(s, junk, junk2).0, shell);
  }

  // ---------------------------------------------------------------- waiting for a process to end

  /** A process that waits for another one is on its waiting list, and blocked. */
  lemma WaitsFor(s: Sched, p: Ptr, rsp: int)
    requires Inv(s) && s.current != NULL && Member(s, s.current) && s.currentPid != 0
    requires Member(s, p) && p in s.heap && p != s.current
    ensures var (t, r) := WaitFor(s, s.heap[p].pid, rsp, true);
            && r == 0 && Inv(t) && Member(t, p) && p in t.heap && t.heap[p].waiting == s.heap[p].waiting + [s.current]
            && Member(t, s.current) && s.current in t.heap && t.heap[s.current].status == Blocked && s.current in t.blocked
            && t.current != s.current
  {
    InvSafe(s);
    OneRecord(s, p, s.current);
    FindsThis(s, p);
    FindsThis(s, s.current);
    WaitForKeeps(s, s.heap[p].pid, rsp, true);
    EnlistKeeps(s, s.heap[p].pid, true);
    var e := Enlist(s, p, true);
    assert Member(e, e.current);
    BlocksSelf(e, rsp);
    var t := WaitFor(s, s.heap[p].pid, rsp, true).0;
    assert t == Block(e, e.currentPid, rsp).0;
    assert e.ready[0] in e.ready && Member(e, e.ready[0]);
    hide Block, Enlist;
  }

  lemma WaitsForNobody(s: Sched, pid: int, rsp: int, node: bool)
    requires Inv(s)
    ensures WaitFor(s, pid, rsp, node) == (s, -1) <==> pid == s.currentPid || !Taken(s, pid)
  {
    TakenIs(s, pid);
  }

  /** c is listed, and ready, or blocked and on the waiting list of p. */
  ghost predicate AwaitsEnd(s: Sched, p: Ptr, c: Ptr) {
    && Inv(s) && Member(s, c) && c in s.heap
    && if s.heap[c].status == Blocked then Member(s, p) && p in s.heap && c in s.heap[p].waiting else c in s.ready
  }

  /** Killing p makes c ready, and killing anybody else but c leaves it waiting or ready. */
  lemma KillStep(s: Sched, x: Ptr, junk: Junk, p: Ptr, c: Ptr)
    requires AwaitsEnd(s, p, c) && Member(s, x) && x != c && At(s.heap, x).pid != IDLE_PID
    ensures var t := Kill(s, x, junk).0; AwaitsEnd(t, p, c) && (x == p || c in s.ready ==> c in t.ready)
  {
    var t := Kill(s, x, junk).0;
    InvSafe(s);
    KillKeeps(s, x, junk);
    KillSpares(s, x, junk, c);
    KillSpares(s, x, junk, p);
    InvSafe(t);
    if s.heap[c].status == Blocked && x == p {
      var k :| 0 <= k < |s.heap[p].waiting| && s.heap[p].waiting[k] == c;
      KillWakesWaiters(s, p, junk, k);
    }
    ReadyOrBlocked(s, c);
    hide Kill;
    StillOrWoken(s, t, c);
  }

  lemma ReadyOrBlocked(s: Sched, c: Ptr)
    requires Inv(s) && Member(s, c) && c in s.heap
    ensures c in s.ready <==> s.heap[c].status == Ready
    ensures c in s.blocked <==> s.heap[c].status == Blocked
    ensures s.heap[c].status == Running ==> c == s.current
  {
    assert !Member(s, NULL);
  }

  /** A listed process that was ready or blocked, and that nobody dispatched, is one of the two still. */
  lemma StillOrWoken(s: Sched, t: Sched, c: Ptr)
    requires Inv(s) && Inv(t) && Member(s, c) && Member(t, c) && c in s.heap && c in t.heap && t.current == s.current
    requires s.heap[c].status == Ready || s.heap[c].status == Blocked
    requires s.heap[c].status == Ready ==> t.heap[c].status == Ready
    ensures t.heap[c].status == Blocked || c in t.ready
  {
    ReadyOrBlocked(s, c);
    ReadyOrBlocked(t, c);
    assert c != s.current;
  }

  /** killProcess kills nobody, the process it finds, or that one and then another one. */
  lemma KillPhases(s: Sched, pid: int, junk: Junk, junk2: Junk) returns (x: Ptr, r: Ptr)
    requires Inv(s) && pid != IDLE_PID
    ensures x == NULL ==> KillProcess(s, pid, junk, junk2).0 == s
    ensures x != NULL ==>
              && Member(s, x) && At(s.heap, x).pid != IDLE_PID && Inv(Kill(s, x, junk).0)
              && if r == NULL then KillProcess(s, pid, junk, junk2).0 == Kill(s, x, junk).0
                 else
                   && Member(Kill(s, x, junk).0, r) && At(Kill(s, x, junk).0.heap, r).pid != IDLE_PID
                   && KillProcess(s, pid, junk, junk2).0 == Kill(Kill(s, x, junk).0, r, junk2).0
  {
    x, r := FindProcess(s, pid), NULL;
    Finds(s, pid);
    if x != NULL {
      var fd := PipedFd(At(s.heap, x));
      KillSucceeds(s, x, junk);
      KillKeeps(s, x, junk);
      var t := Kill(s, x, junk).0;
      if fd != -1 {
        PartnerNotIdle(t, fd);
        r := PipedTo(t.heap, t.procs, fd);
      }
    }
  }

  lemma KillProcessWakes(s: Sched, pid: int, junk: Junk, junk2: Junk, p: Ptr, c: Ptr)
    requires AwaitsEnd(s, p, c) && pid != IDLE_PID && Member(s, p)
    requires var t := KillProcess(s, pid, junk, junk2).0; !Member(t, p) && Member(t, c)
    ensures c in KillProcess(s, pid, junk, junk2).0.ready
  {
    var x, r := KillPhases(s, pid, junk, junk2);
    hide KillProcess, InvBut;
    if x != NULL {
      var t := Kill(s, x, junk).0;
      KillSpares(s, x, junk, c);
      KillSpares(s, x, junk, p);
      hide Kill;
      if r != NULL {
        KillSpares(t, r, junk2, c);
        KillSpares(t, r, junk2, p);
      }
      hide Member;
      KillStep(s, x, junk, p, c);
      if r != NULL {
        KillStep(t, r, junk2, p, c);
      }
    }
  }

  /** Idle is at the end of no pipe. */
  lemma PartnerNotIdle(s: Sched, fd: int)
    requires Inv(s) && fd != -1
    ensures var r := PipedTo(s.heap, s.procs, fd); r != NULL ==> Member(s, r) && At(s.heap, r).pid != IDLE_PID
  {
    assert !Member(s, NULL);
    PipedToIs(s.heap, s.procs, fd);
  }

  /** An action that kills p makes a blocked process on p's waiting list ready, unless it kills that one too. */
  lemma DeathWakes(s: Sched, a: Action, p: Ptr, c: Ptr)
    requires Inv(s) && Allowed(s, a) && Member(s, p) && p in s.heap && Member(s, c) && c in s.heap
    requires c in s.heap[p].waiting && s.heap[c].status == Blocked
    requires !Member(Next(s, a), p) && Member(Next(s, a), c)
    ensures c in Next(s, a).ready
  {
    NextLists(s, a, p);
    InvSafe(s);
    hide Kill, KillProcess, Tick, Block, SetReady, Create, WaitFor, Victim, InvBut, PipedFd;
    match a
    case KillAct(pid, junk, junk2) => KillProcessWakes(s, pid, junk, junk2, p, c);
    case ExitAct(junk, junk2) => KillProcessWakes(s, s.currentPid, junk, junk2, p, c);
    case InterruptAct(junk, junk2) => InterruptWakes(s, junk, junk2, p, c);
    case _ =>
  }

  lemma InterruptWakes(s: Sched, junk: Junk, junk2: Junk, p: Ptr, c: Ptr)
    requires AwaitsEnd(s, p, c) && Member(s, p)
    requires var t := KillForeground(s, junk, junk2).0; !Member(t, p) && Member(t, c)
    ensures c in KillForeground(s, junk, junk2).0.ready
  {
    InvSafe(s);
    if s.current != NULL && InForeground(At(s.heap, s.current)) {
      KillProcessWakes(s, At(s.heap, s.current).pid, junk, junk2, p, c);
    } else if s.current != NULL {
      var x := Foreground(s.heap, s.procs);
      ForegroundIs(s.heap, s.procs);
      if x != NULL {
        assert Member(s, x);
        ForegroundNotIdle(s, x);
        hide InvBut, Kill;
        KillSpares(s, x, junk, c);
        KillSpares(s, x, junk, p);
        KillStep(s, x, junk, p, c);
      }
    }
  }

  lemma ForegroundNotIdle(s: Sched, x: Ptr)
    requires Inv(s) && Member(s, x) && InForeground(At(s.heap, x))
    ensures At(s.heap, x).pid != IDLE_PID
  {
  }

  /** Both processes stay on the list throughout the run. */
  ghost predicate BothStay(s: Sched, p: Ptr, c: Ptr, run: seq<Action>)
    decreases |run|
  {
    Member(s, p) && Member(s, c) && (run == [] || BothStay(Next(s, run[0]), p, c, run[1..]))
  }

  /** A wait, whoever calls it, takes nobody off a waiting list. */
  lemma WaitGrows(s: Sched, pid: int, rsp: int, node: bool, q: Ptr)
    requires Inv(s) && s.currentPid != IDLE_PID
    ensures var t := WaitFor(s, pid, rsp, node).0;
            q in s.heap && q in t.heap ==> s.heap[q].waiting <= t.heap[q].waiting
  {
    var p := FindProcess(s, pid);
    Finds(s, pid);
    if p != NULL && s.currentPid != pid {
      EnlistKeeps(s, pid, node);
      var e := Enlist(s, p, node);
      hide InvBut, FindProcess, Block;
      BlockFrames(e, s.currentPid, rsp, q);
    }
  }

  /** Whoever is on a waiting list stays on it. */
  lemma {:induction false} StaysWaiting(s: Sched, p: Ptr, c: Ptr, run: seq<Action>)
    requires Inv(s) && AllowedRun(s, run) && BothStay(s, p, c, run) && p in s.heap && c in s.heap[p].waiting
    ensures var v := Final(s, run);
            Inv(v) && Member(v, p) && Member(v, c) && p in v.heap && c in v.heap && c in v.heap[p].waiting
    decreases |run|
  {
    InvSafe(s);
    if run != [] {
      NextKeeps(s, run[0]);
      assert BothStay(Next(s, run[0]), p, c, run[1..]);
      InvSafe(Next(s, run[0]));
      if run[0].WaitAct? {
        WaitGrows(s, run[0].pid, run[0].rsp, run[0].node, p);
      } else {
        NextFrames(s, run[0], p);
      }
      hide Inv, Next, Allowed, Member;
      StaysWaiting(Next(s, run[0]), p, c, run[1..]);
    }
  }

  /**
   waitProcess keeps its promise: process c waits for p; whatever happens as long as both are there, an action that kills p
   makes c ready if it is blocked, unless it kills c too.
   */
  lemma WaitEnds(s: Sched, p: Ptr, rsp: int, run: seq<Action>, a: Action)
    requires Inv(s) && s.current != NULL && Member(s, s.current) && s.currentPid != 0
    requires Member(s, p) && p in s.heap && p != s.current
    requires var t := WaitFor(s, s.heap[p].pid, rsp, true).0; AllowedRun(t, run) && BothStay(t, p, s.current, run)
    requires var v := Final(WaitFor(s, s.heap[p].pid, rsp, true).0, run);
             Allowed(v, a) && !Member(Next(v, a), p) && Member(Next(v, a), s.current)
    ensures var v := Final(WaitFor(s, s.heap[p].pid, rsp, true).0, run);
            s.current in v.heap && (v.heap[s.current].status == Blocked ==> s.current in Next(v, a).ready)
  {
    WaitsFor(s, p, rsp);
    var t := WaitFor(s, s.heap[p].pid, rsp, true).0;
    StaysWaiting(t, p, s.current, run);
    var v := Final(t, run);
    hide Inv, WaitFor, Final, AllowedRun, BothStay, Next;
    if v.heap[s.current].status == Blocked {
      DeathWakes(v, a, p, s.current);
    }
  }

  // ---------------------------------------------------------------- refused list nodes

  /** setReadyProcess takes a blocked process off the blocked list before it finds that it has no node for it. */
  lemma WakesNobody(s: Sched, p: Ptr)
    requires Inv(s) && Member(s, p) && p in s.heap
    ensures var (t, r) := SetReadyRefused(s, s.heap[p].pid);
            if s.heap[p].status == Blocked then r == -1 && t == s.(blocked := t.blocked) && Without(s.blocked, t.blocked, p)
            else (t, r) == (s, 0)
  {
    FindsThis(s, p);
    if s.heap[p].status == Blocked {
      RemoveWithout(s.blocked, p);
    }
  }

  /** blockProcess takes a ready process off the ready list, and leaves the running one running. */
  lemma BlocksNobody(s: Sched, p: Ptr, rsp: int)
    requires Inv(s) && Member(s, p) && p in s.heap && s.heap[p].status != Blocked
    ensures var (t, r) := BlockRefused(s, s.heap[p].pid, rsp);
            && r == -1
            && if s.heap[p].status == Ready then t == s.(ready := t.ready) && Without(s.ready, t.ready, p) else t == s
  {
    FindsThis(s, p);
    if s.heap[p].status == Ready {
      RemoveWithout(s.ready, p);
    }
  }

  /** createProcess without a node in one of its lists. */
  lemma CreatesUnlisted(s: Sched, priority: nat, stdin: int, stdout: int, ground: int, ptr: Ptr, stack: int, inList: bool, inReady: bool)
    requires Inv(s) && ptr !in s.heap && Create(s, priority, stdin, stdout, ground, ptr, stack).1 != -1
    ensures var (t, pid) := Create(s, priority, stdin, stdout, ground, ptr, stack);
            Relist(s, t, inList, inReady)
            == s.(heap := s.heap[ptr := Process(pid, priority, Ready, stdin, stdout, ground, stack, [])],
                  procs := if inList then s.procs + [ptr] else s.procs,
                  ready := if inReady then s.ready + [ptr] else s.ready, qty := s.qty + 1)
  {
    Creates(s, priority, stdin, stdout, ground, ptr, stack);
    hide Create;
  }

  /** waitProcess without a node of blockProcess only puts the caller on the waiting list. */
  lemma WaitsRunning(s: Sched, p: Ptr, rsp: int, node: bool)
    requires Inv(s) && s.current != NULL && Member(s, s.current) && Member(s, p) && p in s.heap && p != s.current
    ensures WaitForPassed(s, s.heap[p].pid, rsp, node)
            == (s.(heap := s.heap[p := s.heap[p].(waiting := s.heap[p].waiting + if node then [s.current] else [])]), 0)
  {
    InvSafe(s);
    OneRecord(s, p, s.current);
    FindsThis(s, p);
    FindsThis(s, s.current);
    EnlistKeeps(s, s.heap[p].pid, node);
    var e := Enlist(s, p, node);
    assert s.heap[p].(waiting := s.heap[p].waiting + []) == s.heap[p];
    assert s.heap[p := s.heap[p]] == s.heap;
    assert e == s.(heap := s.heap[p := s.heap[p].(waiting := s.heap[p].waiting + if node then [s.current] else [])]);
    assert Member(e, e.current);
    hide InvBut, Enlist, FindProcess, Member;
    GoesOn(e, rsp);
  }

  lemma GoesOn(s: Sched, rsp: int)
    requires Inv(s) && s.current != NULL && Member(s, s.current)
    ensures BlockRefused(s, s.currentPid, rsp).0 == s
  {
    InvSafe(s);
    FindsThis(s, s.current);
  }

  /** A tick without a node for the process that it takes off the processor differs from any other in the ready list alone. */
  lemma TicksWithout(s: Sched, rsp: int)
    requires Inv(s) && s.quantums <= 1 && s.current != NULL && Member(s, s.current) && s.ready != []
    ensures var (t, pos) := Tick(s, rsp); TickRefused(s, rsp) == (t.(ready := s.ready[1..]), pos)
  {
    InvStops(s);
    SomeQty(s);
    RunsNotReady(s);
    InvSafe(s);
    assert (s.ready + [s.current])[0] == s.ready[0];
  }
}
