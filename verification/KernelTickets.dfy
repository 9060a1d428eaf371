/**
 Who gets a permit. The kernel queues pids; here every queue entry also records which process made it, by a number that
 no other process ever has. The numbers change nothing (WaitErases, PostErases); they say what the pids cannot.
 */
module KernelTickets {
  import opened SemaphoreSpec
  import S = SchedulerSpec
  import opened SchedulerProofs
  import opened KernelSync

  datatype Ticket = Ticket(pid: Pid, who: nat)

  datatype KSem = KSem(counter: nat, queue: seq<Ticket>)

  /** who numbers the records of the heap; `born` is the next number to give. */
  datatype Kernel = Kernel(s: S.Sched, who: map<Ptr, nat>, born: nat, sems: map<int, KSem>)

  // ---------------------------------------------------------------- semaphores with tickets

  function PidsOf(q: seq<Ticket>): (r: seq<Pid>)
    ensures |r| == |q|
  {
    seq(|q|, i requires 0 <= i < |q| => q[i].pid)
  }

  function Plain(k: KSem): Sem {
    Sem(k.counter, PidsOf(k.queue))
  }

  function PurgeTickets(q: seq<Ticket>, live: set<Pid>): (r: seq<Ticket>)
    ensures forall t :: t in r ==> t in q && t.pid in live
  {
    if q == [] then [] else (if q[0].pid in live then [q[0]] else []) + PurgeTickets(q[1..], live)
  }

  function WaitTicket(k: KSem, t: Ticket, g: Grant): (KSem, Waited) {
    if k.counter > 0 then (k.(counter := k.counter - 1), Acquired)
    else match g
      case NoCell => (k, Failed)
      case NoNode => (k, Stranded)
      case NoBlock => (k.(queue := k.queue + [t]), Passed)
      case _ => (k.(queue := k.queue + [t]), Joined)
  }

  function PostTicket(k: KSem, live: set<Pid>): (KSem, Option<Ticket>) {
    var q := PurgeTickets(k.queue, live);
    if q != [] then (KSem(k.counter, q[1..]), Some(q[0])) else (KSem((k.counter + 1) % TWO_32, []), None)
  }

  lemma WaitErases(k: KSem, t: Ticket, g: Grant)
    ensures Wait(Plain(k), t.pid, g) == (Plain(WaitTicket(k, t, g).0), WaitTicket(k, t, g).1)
  {
    assert PidsOf(k.queue + [t]) == PidsOf(k.queue) + [t.pid];
  }

  lemma PidsCons(t: Ticket, q: seq<Ticket>)
    ensures PidsOf([t] + q) == [t.pid] + PidsOf(q)
  {
  }

  lemma {:induction false} PurgeErases(q: seq<Ticket>, live: set<Pid>)
    ensures PidsOf(PurgeTickets(q, live)) == Purge(PidsOf(q), live)
  {
    if q != [] {
      PurgeErases(q[1..], live);
      PidsTail(q);
      PidsCons(q[0], PurgeTickets(q[1..], live));
      hide PidsOf;
      if q[0].pid !in live {
        assert [] + PurgeTickets(q[1..], live) == PurgeTickets(q[1..], live);
      }
    }
  }

  lemma PidsTail(q: seq<Ticket>)
    requires q != []
    ensures PidsOf(q)[1..] == PidsOf(q[1..]) && PidsOf(q)[0] == q[0].pid
  {
  }

  lemma PostErases(k: KSem, live: set<Pid>)
    ensures var (k', woken) := PostTicket(k, live);
            Post(Plain(k), live) == (Plain(k'), if woken.Some? then Some(woken.value.pid) else None)
  {
    PurgeErases(k.queue, live);
    hide PurgeTickets, Purge;
    var q := PurgeTickets(k.queue, live);
    if q != [] {
      PidsTail(q);
    }
  }

  // ---------------------------------------------------------------- the kernel

  datatype Act = Sched(a: S.Action) | WaitOn(sem: int, rsp: int, grant: Grant) | PostTo(sem: int)

  /** What the scheduler allows; and a process that runs on after it was killed is not refused the node of blockProcess. */
  ghost predicate Allowed(k: Kernel, a: Act) {
    match a
    case Sched(act) => S.Allowed(k.s, act)
    case WaitOn(sem, _, g) =>
      && sem in k.sems && k.s.current != S.NULL && k.s.currentPid != S.IDLE_PID
      && (g == NoBlock ==> Member(k.s, k.s.current))
    case PostTo(sem) => sem in k.sems
  }

  /** Records keep their numbers, and a new record gets a new one. */
  function Renumber(k: Kernel, s: S.Sched): Kernel {
    k.(s := s, who := map p | p in s.heap :: if p in k.who then k.who[p] else k.born, born := k.born + 1)
  }

  ghost function Next(k: Kernel, a: Act): Kernel
    requires Allowed(k, a)
  {
    match a
    case Sched(act) => Renumber(k, S.Next(k.s, act))
    case WaitOn(sem, rsp, g) =>
      var me := Ticket(k.s.currentPid, if k.s.current in k.who then k.who[k.s.current] else 0);
      var (q, r) := WaitTicket(k.sems[sem], me, g);
      Renumber(k.(sems := k.sems[sem := q]), BlockCaller(k.s, r, rsp))
    case PostTo(sem) =>
      var (q, woken) := PostTicket(k.sems[sem], Pids(k.s));
      Renumber(k.(sems := k.sems[sem := q]), if woken.Some? then S.SetReady(k.s, woken.value.pid).0 else k.s)
  }

  /** The process with this number is in the process list. */
  ghost predicate Listed(k: Kernel, w: nat) {
    exists p :: Member(k.s, p) && p in k.who && k.who[p] == w
  }

  /** A ticket has been made, and whoever made it still has the pid on it. */
  ghost predicate TicketOk(k: Kernel, t: Ticket) {
    t.who < k.born && forall p :: p in k.who && k.who[p] == t.who ==> S.At(k.s.heap, p).pid == t.pid
  }

  ghost predicate Numbered(k: Kernel) {
    && k.who.Keys == k.s.heap.Keys
    && (forall p :: p in k.who ==> k.who[p] < k.born)
    && forall p, q :: p in k.who && q in k.who && p != q ==> k.who[p] != k.who[q]
  }

  ghost predicate KInv(k: Kernel) {
    Inv(k.s) && Numbered(k) && forall sem :: sem in k.sems ==> forall t :: t in k.sems[sem].queue ==> TicketOk(k, t)
  }

  /** The kernel as it boots, with idle at ptr and semaphores that nobody waits for. */
  predicate Booted(k: Kernel, ptr: Ptr, stack: int) {
    && k.s == S.Boot(ptr, stack) && k.who == map[ptr := 0] && k.born == 1
    && forall sem :: sem in k.sems ==> k.sems[sem].queue == []
  }

  lemma BootedInv(k: Kernel, ptr: Ptr, stack: int)
    requires ptr != S.NULL && Booted(k, ptr, stack)
    ensures KInv(k)
  {
    BootInv(ptr, stack);
    assert k.s.heap.Keys == {ptr};
  }

  // ---------------------------------------------------------------- records keep their pids

  /** Every record of t was there before with the same pid, except perhaps one. */
  ghost predicate Evolves(s: S.Sched, t: S.Sched, added: Ptr) {
    forall p :: p in t.heap ==> if p in s.heap then t.heap[p].pid == s.heap[p].pid else p == added
  }

  lemma EvolvesTwice(r: S.Sched, s: S.Sched, t: S.Sched)
    requires Evolves(r, s, S.NULL) && Evolves(s, t, S.NULL) && S.NULL !in s.heap && S.NULL !in t.heap
    ensures Evolves(r, t, S.NULL)
  {
  }

  lemma DispatchEvolves(s: S.Sched)
    requires AtRest(s) && s.ready != []
    ensures Evolves(s, Dispatched(s), S.NULL)
  {
    assert s.ready[0] in s.ready && Member(s, s.ready[0]);
  }

  lemma RetireEvolves(s: S.Sched, rsp: int)
    requires Stopping(s)
    ensures Evolves(s, S.Retire(s.(quantums := s.quantums - 1), rsp), S.NULL)
  {
    hide ListsOk, TableOk, QueuesOk, IdleOk, NoLeak;
  }

  lemma TickEvolves(s: S.Sched, rsp: int)
    requires Stopping(s)
    ensures Evolves(s, S.Tick(s, rsp).0, S.NULL)
  {
    if S.Switches(s) {
      TickDispatches(s, rsp);
      var r := S.Retire(s.(quantums := s.quantums - 1), rsp);
      RetireEvolves(s, rsp);
      DispatchEvolves(r);
      hide S.Tick, Stopping, S.Retire, Dispatched;
    }
  }

  lemma YieldEvolves(s: S.Sched, rsp: int)
    requires Stopping(s)
    ensures Evolves(s, S.Yield(s, rsp), S.NULL)
  {
    QuantumStops(s);
    TickEvolves(s.(quantums := 0), rsp);
  }

  lemma MarkEvolves(s: S.Sched, p: Ptr)
    requires p in s.heap
    ensures Evolves(s, S.MarkBlocked(s, p), S.NULL)
  {
  }

  lemma BlockEvolves(s: S.Sched, pid: int, rsp: int)
    requires Inv(s) && pid != S.IDLE_PID
    ensures Evolves(s, S.Block(s, pid, rsp).0, S.NULL)
  {
    var p := S.FindProcess(s, pid);
    Finds(s, pid);
    if p != S.NULL {
      BlockStops(s, p);
      var m := S.MarkBlocked(s, p);
      MarkEvolves(s, p);
      hide InvBut, Stopping, S.Yield, S.FindProcess, S.MarkBlocked;
      YieldEvolves(m, rsp);
    }
  }

  lemma ReadyEvolves(s: S.Sched, pid: int)
    requires Inv(s)
    ensures Evolves(s, S.SetReady(s, pid).0, S.NULL)
  {
    SetReadyWakes(s, S.NULL, pid);
  }

  lemma KillEvolves(s: S.Sched, p: Ptr, junk: S.Junk)
    requires Inv(s) && Member(s, p)
    ensures Evolves(s, S.Kill(s, p, junk).0, S.NULL)
  {
    KillSucceeds(s, p, junk);
    EmptiedKeeps(s, p, junk);
    hide InvBut, Emptied, S.Kill, SameButStatus, WakesOnly;
    assert S.Dequeue(s, p).heap == s.heap;
    hide S.Dequeue;
    var t := S.Kill(s, p, junk).0;
    forall q | q in t.heap ensures q in s.heap && t.heap[q].pid == s.heap[q].pid {
      SameSpares(S.Dequeue(s, p), Emptied(s, p, junk), q);
      SameSpares(S.Dequeue(s, p), Emptied(s, p, junk), p);
    }
  }

  lemma KillProcessEvolves(s: S.Sched, pid: int, junk: S.Junk, junk2: S.Junk)
    requires Inv(s) && pid != S.IDLE_PID
    ensures Evolves(s, S.KillProcess(s, pid, junk, junk2).0, S.NULL)
  {
    var p := S.FindProcess(s, pid);
    Finds(s, pid);
    if p != S.NULL {
      var fd := S.PipedFd(S.At(s.heap, p));
      KillSucceeds(s, p, junk);
      KillKeeps(s, p, junk);
      KillEvolves(s, p, junk);
      var t := S.Kill(s, p, junk).0;
      var r := S.PipedTo(t.heap, t.procs, fd);
      assert !Member(t, S.NULL);
      PipedToIs(t.heap, t.procs, fd);
      if fd != -1 && r != S.NULL {
        assert Member(t, r);
        KillEvolves(t, r, junk2);
        KillKeeps(t, r, junk2);
        EvolvesTwice(s, t, S.Kill(t, r, junk2).0);
      }
    }
  }

  lemma KillForegroundEvolves(s: S.Sched, junk: S.Junk, junk2: S.Junk)
    requires Inv(s)
    ensures Evolves(s, S.KillForeground(s, junk, junk2).0, S.NULL)
  {
    if s.current != S.NULL && S.InForeground(S.At(s.heap, s.current)) {
      KillProcessEvolves(s, S.At(s.heap, s.current).pid, junk, junk2);
    } else if s.current != S.NULL {
      var p := S.Foreground(s.heap, s.procs);
      assert !Member(s, S.NULL);
      ForegroundIs(s.heap, s.procs);
      if p != S.NULL {
        assert Member(s, p);
        KillEvolves(s, p, junk);
      }
    }
  }

  lemma WaitForEvolves(s: S.Sched, pid: int, rsp: int, node: bool)
    requires Inv(s) && s.currentPid != S.IDLE_PID
    ensures Evolves(s, S.WaitFor(s, pid, rsp, node).0, S.NULL)
  {
    var p := S.FindProcess(s, pid);
    Finds(s, pid);
    if p != S.NULL && s.currentPid != pid {
      EnlistKeeps(s, pid, node);
      BlockEvolves(S.Enlist(s, p, node), s.currentPid, rsp);
      BlockKeeps(S.Enlist(s, p, node), s.currentPid, rsp);
    }
  }

  lemma NextEvolves(s: S.Sched, a: S.Action)
    requires Inv(s) && S.Allowed(s, a)
    ensures Evolves(s, S.Next(s, a), FreshIn(a))
  {
    hide Stopping, S.KillProcess, S.KillForeground, S.Tick, S.Yield, S.Block, S.WaitFor, S.SetReady, S.FreePid, S.FindProcess;
    hide ListsOk, QueuesOk, IdleOk, NoLeak, CurrentOk;
    match a
    case TickAct(rsp) => InvStops(s); TickEvolves(s, rsp);
    case YieldAct(rsp) => InvStops(s); YieldEvolves(s, rsp);
    case CreateAct(_, _, _, _, _, _) =>
    case ReadyAct(pid) => ReadyEvolves(s, pid);
    case BlockAct(pid, rsp) => BlockEvolves(s, pid, rsp);
    case KillAct(pid, junk, junk2) => KillProcessEvolves(s, pid, junk, junk2);
    case ExitAct(junk, junk2) => InvSafe(s); KillProcessEvolves(s, s.currentPid, junk, junk2);
    case InterruptAct(junk, junk2) => KillForegroundEvolves(s, junk, junk2);
    case WaitAct(pid, rsp, node) => WaitForEvolves(s, pid, rsp, node);
    case PriorityAct(pid, _) => Finds(s, pid);
    case FdsAct(pid, _, _) => Finds(s, pid);
  }

  // ---------------------------------------------------------------- numbers are never given twice

  lemma RenumberKeeps(k: Kernel, s: S.Sched, added: Ptr)
    requires Numbered(k) && Evolves(k.s, s, added)
    ensures Numbered(Renumber(k, s))
    ensures forall t :: TicketOk(k, t) ==> TicketOk(Renumber(k, s), t)
  {
    var v := Renumber(k, s);
    forall t | TicketOk(k, t) ensures TicketOk(v, t) {
      forall p | p in v.who && v.who[p] == t.who ensures S.At(s.heap, p).pid == t.pid {
        assert p in k.who;
      }
    }
  }

  /** Changing one semaphore's queue to tickets that are in order. */
  lemma QueueKeeps(k: Kernel, sem: int, q: KSem)
    requires KInv(k) && forall t :: t in q.queue ==> TicketOk(k, t)
    ensures KInv(k.(sems := k.sems[sem := q]))
  {
    var v := k.(sems := k.sems[sem := q]);
    assert forall t :: TicketOk(k, t) ==> TicketOk(v, t);
  }

  lemma AdvanceKeeps(k: Kernel, s: S.Sched, added: Ptr)
    requires KInv(k) && Inv(s) && Evolves(k.s, s, added)
    ensures KInv(Renumber(k, s))
  {
    RenumberKeeps(k, s, added);
  }

  lemma WaitTicketOk(k: Kernel, sem: int, g: Grant)
    requires KInv(k) && sem in k.sems && k.s.current != S.NULL
    ensures var me := Ticket(k.s.currentPid, if k.s.current in k.who then k.who[k.s.current] else 0);
            k.s.current in k.who && forall t :: t in WaitTicket(k.sems[sem], me, g).0.queue ==> TicketOk(k, t)
  {
    InvSafe(k.s);
  }

  lemma SameHeapEvolves(s: S.Sched)
    ensures Evolves(s, s, S.NULL)
  {
  }

  lemma NextKeeps(k: Kernel, a: Act)
    requires KInv(k) && Allowed(k, a)
    ensures KInv(Next(k, a))
  {
    hide InvBut, Numbered, TicketOk, Evolves, Renumber;
    SameHeapEvolves(k.s);
    match a
    case Sched(act) =>
      SchedulerProofs.NextKeeps(k.s, act);
      NextEvolves(k.s, act);
      AdvanceKeeps(k, S.Next(k.s, act), FreshIn(act));
    case WaitOn(sem, rsp, g) =>
      WaitTicketOk(k, sem, g);
      var me := Ticket(k.s.currentPid, if k.s.current in k.who then k.who[k.s.current] else 0);
      var q := WaitTicket(k.sems[sem], me, g).0;
      QueueKeeps(k, sem, q);
      BlockKeeps(k.s, k.s.currentPid, rsp);
      BlockEvolves(k.s, k.s.currentPid, rsp);
      AdvanceKeeps(k.(sems := k.sems[sem := q]), k.s, S.NULL);
      AdvanceKeeps(k.(sems := k.sems[sem := q]), S.Block(k.s, k.s.currentPid, rsp).0, S.NULL);
      if g == NoBlock {
        PassesOn(k.s, rsp);
      }
    case PostTo(sem) =>
      var (q, woken) := PostTicket(k.sems[sem], Pids(k.s));
      PostTicketOk(k, sem);
      QueueKeeps(k, sem, q);
      AdvanceKeeps(k.(sems := k.sems[sem := q]), k.s, S.NULL);
      if woken.Some? {
        SetReadyKeeps(k.s, S.NULL, woken.value.pid);
        ReadyEvolves(k.s, woken.value.pid);
        AdvanceKeeps(k.(sems := k.sems[sem := q]), S.SetReady(k.s, woken.value.pid).0, S.NULL);
      }
  }

  lemma PostTicketOk(k: Kernel, sem: int)
    requires KInv(k) && sem in k.sems
    ensures forall t :: t in PostTicket(k.sems[sem], Pids(k.s)).0.queue ==> TicketOk(k, t)
  {
    var q := PurgeTickets(k.sems[sem].queue, Pids(k.s));
    assert q != [] ==> forall t :: t in q[1..] ==> t in q;
  }

  lemma ActLists(k: Kernel, a: Act, p: Ptr)
    requires KInv(k) && Allowed(k, a)
    ensures Member(Next(k, a).s, p) ==> Member(k.s, p) || (a.Sched? && p == FreshIn(a.a))
    ensures Member(k.s, p) ==> (Member(Next(k, a).s, p) <==> !(a.Sched? && Victim(k.s, a.a, p)))
  {
    hide Victim, Numbered, TicketOk, S.Next, S.Block;
    match a
    case Sched(act) => NextLists(k.s, act, p);
    case WaitOn(_, rsp, g) =>
      BlockProcs(k.s, k.s.currentPid, rsp);
      if g == NoBlock {
        PassesOn(k.s, rsp);
      }
    case PostTo(sem) =>
  }

  /** A process that is not listed any more, or never was, is never listed again under its number. */
  lemma GoneForGood(k: Kernel, a: Act, w: nat)
    requires KInv(k) && Allowed(k, a) && w < k.born && !Listed(k, w)
    ensures !Listed(Next(k, a), w) && w < Next(k, a).born
  {
    var s := Next(k, a).s;
    ActEvolves(k, a);
    InvSafe(k.s);
    forall p | Member(s, p) && p in Next(k, a).who ensures Next(k, a).who[p] != w {
      ActLists(k, a, p);
      assert a.Sched? && a.a.CreateAct? ==> a.a.ptr !in k.s.heap;
      assert p in k.who ==> Member(k.s, p) || p == S.NULL;
    }
  }

  lemma ActEvolves(k: Kernel, a: Act)
    requires KInv(k) && Allowed(k, a)
    ensures Next(k, a) == Renumber(k, Next(k, a).s).(sems := Next(k, a).sems)
    ensures Evolves(k.s, Next(k, a).s, if a.Sched? then FreshIn(a.a) else S.NULL)
  {
    hide Inv, Evolves, Numbered, TicketOk;
    SameHeapEvolves(k.s);
    match a
    case Sched(act) => NextEvolves(k.s, act);
    case WaitOn(_, rsp, g) =>
      BlockEvolves(k.s, k.s.currentPid, rsp);
      if g == NoBlock {
        PassesOn(k.s, rsp);
      }
    case PostTo(sem) =>
      var woken := PostTicket(k.sems[sem], Pids(k.s)).1;
      if woken.Some? {
        ReadyEvolves(k.s, woken.value.pid);
      }
  }

  // ---------------------------------------------------------------- runs

  ghost predicate AllowedRun(k: Kernel, run: seq<Act>)
    decreases |run|
  {
    run == [] || (Allowed(k, run[0]) && AllowedRun(Next(k, run[0]), run[1..]))
  }

  ghost function Final(k: Kernel, run: seq<Act>): Kernel
    requires AllowedRun(k, run)
    decreases |run|
  {
    if run == [] then k else Final(Next(k, run[0]), run[1..])
  }

  lemma {:induction false} EveryRun(k: Kernel, run: seq<Act>)
    requires KInv(k) && AllowedRun(k, run)
    ensures KInv(Final(k, run)) && k.born <= Final(k, run).born
    decreases |run|
  {
    if run != [] {
      NextKeeps(k, run[0]);
      NextBorn(k, run[0]);
      hide KInv, Next, Allowed;
      EveryRun(Next(k, run[0]), run[1..]);
    }
  }

  lemma NextBorn(k: Kernel, a: Act)
    requires Allowed(k, a)
    ensures Next(k, a).born == k.born + 1
  {
  }

  /** The action kills process w: it names w or the process at the other end of w's pipe. */
  ghost predicate KillsProcess(k: Kernel, a: Act, w: nat) {
    a.Sched? && exists p :: Member(k.s, p) && p in k.who && k.who[p] == w && Victim(k.s, a.a, p)
  }

  /** Some action of the run kills process w. */
  ghost predicate KilledIn(k: Kernel, run: seq<Act>, w: nat)
    requires AllowedRun(k, run)
    decreases |run|
  {
    run != [] && (KillsProcess(k, run[0], w) || KilledIn(Next(k, run[0]), run[1..], w))
  }

  /** A listed process keeps its number, and stays listed unless it is a victim. */
  lemma KeepsNumber(k: Kernel, a: Act, p: Ptr)
    requires KInv(k) && Allowed(k, a) && Member(k.s, p)
    ensures p in k.who && (Member(Next(k, a).s, p) <==> !(a.Sched? && Victim(k.s, a.a, p)))
    ensures Member(Next(k, a).s, p) ==> p in Next(k, a).who && Next(k, a).who[p] == k.who[p]
  {
    InvSafe(k.s);
    NextKeeps(k, a);
    ActEvolves(k, a);
    ActLists(k, a, p);
    hide InvBut, Victim, Evolves, TicketOk;
    InvSafe(Next(k, a).s);
  }

  /** An action takes a listed process off the process list if and only if it kills it. */
  lemma OnlyKillsUnlist(k: Kernel, a: Act, w: nat)
    requires KInv(k) && Allowed(k, a) && Listed(k, w)
    ensures !Listed(Next(k, a), w) <==> KillsProcess(k, a, w)
  {
    var p: Ptr :| Member(k.s, p) && p in k.who && k.who[p] == w;
    KeepsNumber(k, a, p);
    OneNumber(k);
    hide KInv, Victim, Allowed, Next;
    forall q | Member(Next(k, a).s, q) && q in Next(k, a).who && Next(k, a).who[q] == w ensures q == p {
      SameNumber(k, a, p, q);
    }
  }

  lemma OneNumber(k: Kernel)
    requires KInv(k)
    ensures forall p, q :: p in k.who && q in k.who && k.who[p] == k.who[q] ==> p == q
  {
  }

  /** The number of a record that was there stays with it. */
  lemma SameNumber(k: Kernel, a: Act, p: Ptr, q: Ptr)
    requires KInv(k) && Allowed(k, a) && p in k.who && q in Next(k, a).who && Next(k, a).who[q] == k.who[p]
    ensures p == q
  {
    ActEvolves(k, a);
  }

  lemma {:induction false} StillListed(k: Kernel, run: seq<Act>, w: nat)
    requires KInv(k) && AllowedRun(k, run) && Listed(k, w) && w < k.born
    ensures Listed(Final(k, run), w) <==> !KilledIn(k, run, w)
    decreases |run|
  {
    if run != [] {
      NextKeeps(k, run[0]);
      NextBorn(k, run[0]);
      OnlyKillsUnlist(k, run[0], w);
      hide KInv, Next, Allowed, Listed, KillsProcess;
      if Listed(Next(k, run[0]), w) {
        StillListed(Next(k, run[0]), run[1..], w);
      } else {
        NeverBack(Next(k, run[0]), run[1..], w);
      }
    }
  }

  lemma {:induction false} NeverBack(k: Kernel, run: seq<Act>, w: nat)
    requires KInv(k) && AllowedRun(k, run) && !Listed(k, w) && w < k.born
    ensures !Listed(Final(k, run), w)
    decreases |run|
  {
    if run != [] {
      NextKeeps(k, run[0]);
      GoneForGood(k, run[0], w);
      hide KInv, Next, Allowed, Listed;
      NeverBack(Next(k, run[0]), run[1..], w);
    }
  }

  // ---------------------------------------------------------------- who gets the permit

  /** The ticket that the next post on this semaphore hands its permit to. */
  ghost predicate NextServed(k: Kernel, sem: int, t: Ticket) {
    sem in k.sems && PostTicket(k.sems[sem], Pids(k.s)).1 == Some(t)
  }

  /** The process that sem_post finds under the pid of the ticket. */
  ghost function Receiver(k: Kernel, t: Ticket): Ptr {
    S.FindProcess(k.s, t.pid)
  }

  lemma ReceiverListed(k: Kernel, sem: int, t: Ticket)
    requires KInv(k) && NextServed(k, sem, t)
    ensures Member(k.s, Receiver(k, t)) && Receiver(k, t) in k.who
    ensures S.At(k.s.heap, Receiver(k, t)).pid == t.pid
    ensures TicketOk(k, t)
  {
    var q := PurgeTickets(k.sems[sem].queue, Pids(k.s));
    assert q[0] == t && t in q;
    assert t.pid in Pids(k.s);
    var x :| x in k.s.procs && S.At(k.s.heap, x).pid == t.pid;
    assert Member(k.s, x);
    FindsThis(k.s, x);
    InvSafe(k.s);
  }

  /** The process that gets the permit is the one that queued the ticket if and only if that one is still listed. */
  lemma ReceiverIsMaker(k: Kernel, sem: int, t: Ticket)
    requires KInv(k) && NextServed(k, sem, t)
    ensures Member(k.s, Receiver(k, t)) && Receiver(k, t) in k.who
    ensures k.who[Receiver(k, t)] == t.who <==> Listed(k, t.who)
  {
    ReceiverListed(k, sem, t);
    if Listed(k, t.who) {
      var p :| Member(k.s, p) && p in k.who && k.who[p] == t.who;
      FindsThis(k.s, p);
    }
  }

  /** After any run, the process whose pid is on the ticket of w is w if and only if w was not killed in the run. */
  lemma ReachesMaker(k: Kernel, run: seq<Act>, sem: int, t: Ticket)
    requires KInv(k) && AllowedRun(k, run) && Listed(k, t.who) && t.who < k.born
    requires NextServed(Final(k, run), sem, t)
    ensures var v := Final(k, run);
            var p := Receiver(v, t);
            && Allowed(v, PostTo(sem)) && Member(v.s, p) && p in v.who
            && (v.who[p] == t.who <==> !KilledIn(k, run, t.who))
            && (S.At(v.s.heap, p).status == S.Blocked ==> p in Next(v, PostTo(sem)).s.ready)
  {
    EveryRun(k, run);
    StillListed(k, run, t.who);
    var v := Final(k, run);
    hide AllowedRun, Final, KilledIn;
    ReceiverIsMaker(v, sem, t);
    ReceiverListed(v, sem, t);
    Wakes(v.s, t.pid);
  }

  lemma Wakes(s: S.Sched, pid: int)
    requires Inv(s) && Member(s, S.FindProcess(s, pid)) && S.At(s.heap, S.FindProcess(s, pid)).pid == pid
    ensures S.At(s.heap, S.FindProcess(s, pid)).status == S.Blocked ==> S.FindProcess(s, pid) in S.SetReady(s, pid).0.ready
  {
  }

  /** The running process goes into the queue of a semaphore. */
  ghost predicate Queues(k: Kernel, sem: int, rsp: int, g: Grant) {
    && Allowed(k, WaitOn(sem, rsp, g)) && Member(k.s, k.s.current) && k.sems[sem].counter == 0
    && g != NoCell && g != NoNode
  }

  /** The ticket of the running process. */
  ghost function MyTicket(k: Kernel): Ticket
    requires KInv(k) && Member(k.s, k.s.current)
  {
    InvSafe(k.s);
    Ticket(k.s.currentPid, k.who[k.s.current])
  }

  /** Queueing a ticket: the caller is listed, and the ticket has its number. */
  lemma QueuesOwnTicket(k: Kernel, sem: int, rsp: int, g: Grant)
    requires KInv(k) && Queues(k, sem, rsp, g)
    ensures var t, v := MyTicket(k), Next(k, WaitOn(sem, rsp, g));
            v.sems[sem].queue == k.sems[sem].queue + [t] && Listed(v, t.who) && t.who < v.born
  {
    var a := WaitOn(sem, rsp, g);
    InvSafe(k.s);
    ActLists(k, a, k.s.current);
    NextKeeps(k, a);
    hide InvBut, BlockCaller, TicketOk;
    InvSafe(Next(k, a).s);
  }

  /**
   A process queues itself at a semaphore. After any run of the kernel since then, the permit that is handed to its entry
   reaches it if and only if the run did not kill it. If the process that the permit reaches is blocked, it becomes ready.
   */
  lemma PermitArrives(k: Kernel, sem: int, rsp: int, g: Grant, run: seq<Act>)
    requires KInv(k) && Queues(k, sem, rsp, g)
    requires AllowedRun(Next(k, WaitOn(sem, rsp, g)), run)
    requires NextServed(Final(Next(k, WaitOn(sem, rsp, g)), run), sem, MyTicket(k))
    ensures var t, u := MyTicket(k), Next(k, WaitOn(sem, rsp, g));
            var v := Final(u, run);
            var p := Receiver(v, t);
            && Allowed(v, PostTo(sem)) && Member(v.s, p) && p in v.who
            && (v.who[p] == t.who <==> !KilledIn(u, run, t.who))
            && (S.At(v.s.heap, p).status == S.Blocked ==> p in Next(v, PostTo(sem)).s.ready)
  {
    QueuesOwnTicket(k, sem, rsp, g);
    NextKeeps(k, WaitOn(sem, rsp, g));
    hide KInv, Next, Listed, NextServed, KilledIn;
    ReachesMaker(Next(k, WaitOn(sem, rsp, g)), run, sem, MyTicket(k));
  }

  // ---------------------------------------------------------------- a run that goes wrong

  /** The scheduler's state, and the pids in the queues of semaphores 7 and 8. */
  ghost predicate Looks(k: Kernel, s: S.Sched, q7: seq<Pid>, q8: seq<Pid>) {
    k.s == s && 7 in k.sems && 8 in k.sems && Plain(k.sems[7]) == Sem(0, q7) && Plain(k.sems[8]) == Sem(0, q8)
  }

  lemma SchedLooks(k: Kernel, s: S.Sched, q7: seq<Pid>, q8: seq<Pid>, a: S.Action)
    requires Looks(k, s, q7, q8) && S.Allowed(s, a)
    ensures Allowed(k, Sched(a)) && Looks(Next(k, Sched(a)), S.Next(s, a), q7, q8)
  {
  }

  /** Process 1 waits for a semaphore. */
  lemma WaitLooks(k: Kernel, q7: seq<Pid>, q8: seq<Pid>, sem: int)
    requires Looks(k, BeforeWait(), q7, q8) && (sem == 7 || sem == 8)
    ensures Allowed(k, WaitOn(sem, 300, Granted))
    ensures Looks(Next(k, WaitOn(sem, 300, Granted)), AfterWait(), if sem == 7 then q7 + [1] else q7, if sem == 8 then q8 + [1] else q8)
  {
    WaitHere();
    InvHere();
    var me := Ticket(k.s.currentPid, if k.s.current in k.who then k.who[k.s.current] else 0);
    WaitErases(k.sems[sem], me, Granted);
    hide PidsOf, S.Block;
  }

  lemma Extend(k: Kernel, a: Act, run: seq<Act>)
    requires Allowed(k, a) && AllowedRun(Next(k, a), run)
    ensures AllowedRun(k, [a] + run) && Final(k, [a] + run) == Final(Next(k, a), run)
  {
    assert ([a] + run)[1..] == run;
  }

  /** Process 1 is created, and dispatched after idle. */
  function Opening(): seq<Act> {
    [Sched(CreateOther()), Sched(S.TickAct(0)), Sched(S.TickAct(100))]
  }

  lemma OpeningLooks(k: Kernel)
    requires Looks(k, S.Boot(1, 100), [], [])
    ensures AllowedRun(k, Opening()) && Looks(Final(k, Opening()), BeforeWait(), [], [])
  {
    BootHere();
    CreateHere();
    TicksHere();
    hide S.Next, S.Boot, Next, Looks;
    SchedLooks(k, JustBooted(), [], [], CreateOther());
    var k1 := Next(k, Sched(CreateOther()));
    SchedLooks(k1, BothReady(), [], [], S.TickAct(0));
    var k2 := Next(k1, Sched(S.TickAct(0)));
    SchedLooks(k2, IdleRuns(), [], [], S.TickAct(100));
    hide Allowed;
    Extend(k2, Sched(S.TickAct(100)), []);
    Extend(k1, Sched(S.TickAct(0)), [Sched(S.TickAct(100))]);
    Extend(k, Sched(CreateOther()), [Sched(S.TickAct(0)), Sched(S.TickAct(100))]);
  }

  /** The waiter is killed, its pid goes to a new process, and this one waits for the other semaphore. */
  function Takeover(junk: S.Junk): seq<Act> {
    [Sched(S.KillAct(1, junk, junk)), Sched(CreateOther()), Sched(S.TickAct(100)), WaitOn(8, 300, Granted)]
  }

  lemma TakeoverLooks(k: Kernel, junk: S.Junk)
    requires Looks(k, AfterWait(), [1], [])
    ensures AllowedRun(k, Takeover(junk)) && Looks(Final(k, Takeover(junk)), AfterWait(), [1], [1])
  {
    KillHere(junk);
    CreateHere();
    var kill := S.KillAct(1, junk, junk);
    assert S.Next(AfterWait(), kill) == AfterKill();
    hide S.Next, S.KillProcess, Next, Looks, AfterWait, AfterKill, IdleRuns;
    SchedLooks(k, AfterWait(), [1], [], kill);
    var k1 := Next(k, Sched(kill));
    SchedLooks(k1, AfterKill(), [1], [], CreateOther());
    var k2 := Next(k1, Sched(CreateOther()));
    hide Allowed;
    NewWaits(k2);
    Extend(k1, Sched(CreateOther()), [Sched(S.TickAct(100)), WaitOn(8, 300, Granted)]);
    Extend(k, Sched(kill), [Sched(CreateOther()), Sched(S.TickAct(100)), WaitOn(8, 300, Granted)]);
  }

  lemma NewWaits(k: Kernel)
    requires Looks(k, IdleRuns(), [1], [])
    ensures var run := [Sched(S.TickAct(100)), WaitOn(8, 300, Granted)];
            AllowedRun(k, run) && Looks(Final(k, run), AfterWait(), [1], [1])
  {
    TicksHere();
    hide S.Next, Next, Looks, AfterWait, IdleRuns, BeforeWait;
    SchedLooks(k, IdleRuns(), [1], [], S.TickAct(100));
    var k1 := Next(k, Sched(S.TickAct(100)));
    WaitLooks(k1, [1], [], 8);
    assert [] + [1] == [1];
    hide Allowed;
    Extend(k1, WaitOn(8, 300, Granted), []);
    Extend(k, Sched(S.TickAct(100)), [WaitOn(8, 300, Granted)]);
  }

  /**
   The next post on 7 serves ticket t and reaches the process at 2, which did not make t and waits for 8; it becomes ready,
   while its own entry is still in the queue of 8.
   */
  ghost predicate Misdelivers(k: Kernel, t: Ticket) {
    && NextServed(k, 7, t) && 2 in k.who && k.who[2] != t.who && k.s.blocked == [2]
    && 8 in k.sems && PidsOf(k.sems[8].queue) == [1]
    && var v := Next(k, PostTo(7));
       2 in v.s.ready && 7 in v.sems && v.sems[7] == KSem(0, []) && 8 in v.sems && v.sems[8] == k.sems[8]
  }

  /**
   A run from boot that leads to the situation of KernelSync.WrongSemaphore: process 1 waits for semaphore 7 and is killed,
   a new process gets its pid and waits for semaphore 8, and then a post on 7 reaches the new process.
   */
  lemma StaleEntry(k: Kernel, junk: S.Junk)
    requires Booted(k, 1, 100) && Looks(k, S.Boot(1, 100), [], [])
    ensures AllowedRun(k, Opening()) && KInv(Final(k, Opening())) && Queues(Final(k, Opening()), 7, 300, Granted)
    ensures var k1 := Final(k, Opening());
            var u := Next(k1, WaitOn(7, 300, Granted));
            && AllowedRun(u, Takeover(junk)) && KilledIn(u, Takeover(junk), MyTicket(k1).who)
            && Misdelivers(Final(u, Takeover(junk)), MyTicket(k1))
  {
    BootedInv(k, 1, 100);
    OpeningLooks(k);
    EveryRun(k, Opening());
    var k1 := Final(k, Opening());
    hide AllowedRun, Final, Next, KInv, KilledIn, Looks, Queues, Misdelivers, MyTicket, Booted, S.Boot;
    Queueing(k1);
    TakesOver(k1, junk);
  }

  lemma Queueing(k: Kernel)
    requires KInv(k) && Looks(k, BeforeWait(), [], [])
    ensures Queues(k, 7, 300, Granted)
    ensures var u := Next(k, WaitOn(7, 300, Granted));
            && KInv(u) && Looks(u, AfterWait(), [1], []) && u.sems[7].queue == [MyTicket(k)] && MyTicket(k).pid == 1
            && 2 in u.who && u.who[2] == MyTicket(k).who
  {
    WaitLooks(k, [], [], 7);
    assert [] + [1] == [1];
    assert Member(k.s, k.s.current);
    QueuesOwnTicket(k, 7, 300, Granted);
    NextKeeps(k, WaitOn(7, 300, Granted));
    assert |k.sems[7].queue| == |PidsOf(k.sems[7].queue)| == 0;
    assert 2 in k.who && 2 in AfterWait().heap;
    hide KInv, S.Block;
  }

  /** The second half of that run. */
  lemma TakesOver(k: Kernel, junk: S.Junk)
    requires KInv(k) && Looks(k, BeforeWait(), [], []) && Queues(k, 7, 300, Granted)
    ensures var u := Next(k, WaitOn(7, 300, Granted));
            && AllowedRun(u, Takeover(junk)) && KilledIn(u, Takeover(junk), MyTicket(k).who)
            && Misdelivers(Final(u, Takeover(junk)), MyTicket(k))
  {
    Queueing(k);
    var u := Next(k, WaitOn(7, 300, Granted));
    var t := MyTicket(k);
    TakeoverLooks(u, junk);
    var v := Final(u, Takeover(junk));
    hide AllowedRun, Final, Next, KInv, KilledIn, MyTicket, Queues, NextServed, Allowed;
    FirstDies(u, junk, t);
    StillFirst(u, junk, t);
    PermitArrives(k, 7, 300, Granted, Takeover(junk));
    FindSecond(v.s);
  }

  lemma FirstDies(u: Kernel, junk: S.Junk, t: Ticket)
    requires u.s == AfterWait() && AllowedRun(u, Takeover(junk)) && 2 in u.who && u.who[2] == t.who
    ensures KilledIn(u, Takeover(junk), t.who)
  {
    FindSecond(u.s);
    assert Takeover(junk)[0] == Sched(S.KillAct(1, junk, junk));
    assert Member(u.s, 2) && Victim(u.s, S.KillAct(1, junk, junk), 2);
  }

  lemma {:induction false} Untouched(k: Kernel, run: seq<Act>, sem: int)
    requires AllowedRun(k, run) && sem in k.sems
    requires forall a :: a in run && !a.Sched? ==> a.sem != sem
    ensures sem in Final(k, run).sems && Final(k, run).sems[sem] == k.sems[sem]
    decreases |run|
  {
    if run != [] {
      assert run[0] in run;
      Untouched(Next(k, run[0]), run[1..], sem);
    }
  }

  /** The entry of the killed process is still there, and the next post on 7 goes to it. */
  lemma StillFirst(u: Kernel, junk: S.Junk, t: Ticket)
    requires 7 in u.sems && u.sems[7] == KSem(0, [t]) && t.pid == 1
    requires AllowedRun(u, Takeover(junk)) && Final(u, Takeover(junk)).s == AfterWait()
    ensures var v := Final(u, Takeover(junk));
            && 7 in v.sems && NextServed(v, 7, t) && (8 in v.sems ==> 8 in Next(v, PostTo(7)).sems)
            && var w := Next(v, PostTo(7));
               7 in w.sems && w.sems[7] == KSem(0, []) && (8 in v.sems ==> w.sems[8] == v.sems[8])
  {
    Untouched(u, Takeover(junk), 7);
    var v := Final(u, Takeover(junk));
    hide AllowedRun, Final;
    assert 2 in v.s.procs && S.At(v.s.heap, 2).pid == 1;
    assert 1 in Pids(v.s);
    assert PurgeTickets([t], Pids(v.s)) == [t] + PurgeTickets([], Pids(v.s));
  }
}
