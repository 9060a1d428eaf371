/** Bounded waiting, and what a process finds when it runs again. */
module SchedulerFairness {
  import L = DoublyLinkedList
  import opened SchedulerSpec
  import opened SchedulerProofs

  // ---------------------------------------------------------------- who is ahead in the ready list

  function Ahead(q: seq<Ptr>, p: Ptr): (a: seq<Ptr>)
    ensures |a| <= |q|
    ensures forall x :: x in a ==> x in q && x != p
  {
    if q == [] || q[0] == p then [] else [q[0]] + Ahead(q[1..], p)
  }

  lemma {:induction false} AheadPrefix(q: seq<Ptr>, r: seq<Ptr>, p: Ptr)
    requires q <= r && p in q
    ensures Ahead(r, p) == Ahead(q, p)
  {
    if q[0] != p {
      AheadPrefix(q[1..], r[1..], p);
    }
  }

  lemma {:induction false} AheadIndex(q: seq<Ptr>, k: nat)
    requires k < |q| && Distinct(q)
    ensures Ahead(q, q[k]) == q[..k]
  {
    if k > 0 {
      assert q[0] != q[k];
      PopOk(q);
      AheadIndex(q[1..], k - 1);
      assert q[1..][k - 1] == q[k];
      assert [q[0]] + q[1..][..k - 1] == q[..k];
    }
  }

  /** A process's share of the wait it causes: its quantum, or at most 10 ticks whatever its priority. */
  function Weight(heap: map<Ptr, Process>, p: Ptr, exact: bool): nat {
    if !exact then MAX_PRIORITY else if At(heap, p).priority == 0 then 1 else At(heap, p).priority
  }

  function Cost(heap: map<Ptr, Process>, a: seq<Ptr>, exact: bool): nat {
    if a == [] then 0 else Weight(heap, a[0], exact) + Cost(heap, a[1..], exact)
  }

  lemma {:induction false} CostBound(heap: map<Ptr, Process>, a: seq<Ptr>)
    ensures Cost(heap, a, false) == MAX_PRIORITY * |a|
  {
    if a != [] {
      CostBound(heap, a[1..]);
    }
  }

  lemma {:induction false} CostSame(h: map<Ptr, Process>, g: map<Ptr, Process>, a: seq<Ptr>, exact: bool)
    requires exact ==> forall x :: x in a ==> At(g, x).priority == At(h, x).priority
    ensures Cost(g, a, exact) == Cost(h, a, exact)
  {
    if a != [] {
      assert a[0] in a;
      CostSame(h, g, a[1..], exact);
    }
  }

  lemma RemoveHead(q: seq<Ptr>)
    requires q != []
    ensures L.RemoveFirst(q, q[0]) == q[1..]
  {
  }

  lemma RemoveAtCons(y: Ptr, q: seq<Ptr>, k: nat)
    requires k < |q|
    ensures L.RemoveAt([y] + q, k + 1) == [y] + L.RemoveAt(q, k)
  {
    assert ([y] + q)[..k + 1] == [y] + q[..k];
    assert ([y] + q)[k + 2..] == q[k + 1..];
  }

  lemma IndexCons(y: Ptr, q: seq<Ptr>, x: Ptr)
    requires y != x
    ensures L.IndexOf([y] + q, x) == 1 + L.IndexOf(q, x) && (x in [y] + q <==> x in q)
  {
    assert ([y] + q)[1..] == q;
  }

  lemma RemoveCons(y: Ptr, q: seq<Ptr>, x: Ptr)
    requires y != x
    ensures L.RemoveFirst([y] + q, x) == [y] + L.RemoveFirst(q, x)
  {
    IndexCons(y, q, x);
    hide L.RemoveAt, L.IndexOf;
    if x in q {
      RemoveAtCons(y, q, L.IndexOf(q, x));
    }
  }

  lemma CostCons(heap: map<Ptr, Process>, y: Ptr, a: seq<Ptr>, exact: bool)
    ensures Cost(heap, [y] + a, exact) == Weight(heap, y, exact) + Cost(heap, a, exact)
  {
    assert ([y] + a)[1..] == a;
  }

  /** Taking somebody else off the list cannot put more in front of p. */
  lemma {:induction false} AheadRemove(heap: map<Ptr, Process>, q: seq<Ptr>, x: Ptr, p: Ptr, exact: bool)
    requires p != x && p in q
    ensures var r := L.RemoveFirst(q, x);
            && p in r && |Ahead(r, p)| <= |Ahead(q, p)|
            && Cost(heap, Ahead(r, p), exact) <= Cost(heap, Ahead(q, p), exact)
  {
    var r := L.RemoveFirst(q, x);
    hide L.RemoveFirst, Cost, Weight;
    assert q == [q[0]] + q[1..];
    if q[0] == x {
      RemoveHead(q);
      CostCons(heap, q[0], Ahead(r, p), exact);
    } else {
      RemoveCons(q[0], q[1..], x);
      var u := L.RemoveFirst(q[1..], x);
      assert r[1..] == u;
      if q[0] != p {
        AheadRemove(heap, q[1..], x, p, exact);
        CostCons(heap, q[0], Ahead(q[1..], p), exact);
        CostCons(heap, q[0], Ahead(u, p), exact);
      }
    }
  }

  // ---------------------------------------------------------------- the wait that p still has before it

  function Quantum(s: Sched): nat {
    if s.quantums <= 0 then 1 else s.quantums
  }

  /** Ticks until p is dispatched, at most. */
  function Wait(s: Sched, p: Ptr, exact: bool): nat {
    Quantum(s) + Cost(s.heap, Ahead(s.ready, p), exact)
  }

  /** From s to t, p stayed ready and nobody got in front of it. */
  ghost predicate Calm(s: Sched, t: Sched, p: Ptr, exact: bool) {
    && p in t.ready && |Ahead(t.ready, p)| <= |Ahead(s.ready, p)|
    && Cost(t.heap, Ahead(t.ready, p), exact) <= Cost(s.heap, Ahead(s.ready, p), exact)
    && Quantum(t) <= Quantum(s)
  }

  lemma SetReadyCalm(s: Sched, pid: int, p: Ptr, exact: bool)
    requires Inv(s) && p in s.ready
    ensures Calm(s, SetReady(s, pid).0, p, exact)
  {
    var t := SetReady(s, pid).0;
    SetReadyWakes(s, NULL, pid);
    AheadPrefix(s.ready, t.ready, p);
    CostSame(s.heap, t.heap, Ahead(s.ready, p), exact);
  }

  lemma MarkBlockedCalm(s: Sched, x: Ptr, p: Ptr, exact: bool)
    requires Inv(s) && Member(s, x) && p in s.ready && p in MarkBlocked(s, x).ready
    ensures Calm(s, MarkBlocked(s, x), p, exact)
  {
    var t := MarkBlocked(s, x);
    if At(s.heap, x).status == Ready {
      RemoveOk(s.ready, x);
      AheadRemove(s.heap, s.ready, x, p, exact);
    }
    CostSame(s.heap, t.heap, Ahead(t.ready, p), exact);
  }

  lemma CreateCalm(s: Sched, priority: nat, stdin: int, stdout: int, ground: int, ptr: Ptr, stack: int, p: Ptr, exact: bool)
    requires Inv(s) && p in s.ready && ptr !in s.heap
    ensures Calm(s, Create(s, priority, stdin, stdout, ground, ptr, stack).0, p, exact)
  {
    var t := Create(s, priority, stdin, stdout, ground, ptr, stack).0;
    AheadPrefix(s.ready, t.ready, p);
    forall x | x in Ahead(s.ready, p) ensures At(t.heap, x).priority == At(s.heap, x).priority {
      assert Member(s, x);
    }
    CostSame(s.heap, t.heap, Ahead(s.ready, p), exact);
  }

  /** What a kill of x does to the ready list: x is out of it, and whoever is woken comes behind the others. */
  lemma KillReady(s: Sched, x: Ptr, junk: Junk)
    requires Inv(s) && Member(s, x)
    ensures var q := if x in s.ready then L.RemoveFirst(s.ready, x) else s.ready;
            x !in q && q <= Kill(s, x, junk).0.ready && forall y :: y in q ==> y in s.ready && Member(s, y)
  {
    KillSucceeds(s, x, junk);
    EmptiedKeeps(s, x, junk);
    RemoveOk(s.ready, x);
  }

  /** A process that is not killed itself keeps its place. */
  lemma KillCalm(s: Sched, x: Ptr, junk: Junk, p: Ptr, exact: bool)
    requires Inv(s) && Member(s, x) && p in s.ready && p != x
    ensures Calm(s, Kill(s, x, junk).0, p, exact)
  {
    var t := Kill(s, x, junk).0;
    var q := if x in s.ready then L.RemoveFirst(s.ready, x) else s.ready;
    hide InvBut, Kill, L.RemoveFirst, Cost;
    KillReady(s, x, junk);
    if x in s.ready {
      AheadRemove(s.heap, s.ready, x, p, exact);
    }
    AheadPrefix(q, t.ready, p);
    forall y | y in Ahead(q, p) ensures At(t.heap, y).priority == At(s.heap, y).priority {
      KillSpares(s, x, junk, y);
      StillMember(s, x, junk, y);
    }
    CostSame(s.heap, t.heap, Ahead(q, p), exact);
    KillSpares(s, x, junk, p);
  }

  lemma StillMember(s: Sched, x: Ptr, junk: Junk, y: Ptr)
    requires Inv(s) && Member(s, x) && Member(s, y) && y != x
    ensures Member(Kill(s, x, junk).0, y)
  {
    KillSpares(s, x, junk, y);
  }

  lemma KillProcessCalm(s: Sched, pid: int, junk: Junk, junk2: Junk, p: Ptr, exact: bool)
    requires Inv(s) && pid != IDLE_PID && p in s.ready && p in KillProcess(s, pid, junk, junk2).0.ready
    ensures Calm(s, KillProcess(s, pid, junk, junk2).0, p, exact)
  {
    var x := FindProcess(s, pid);
    Finds(s, pid);
    if x != NULL {
      var fd := PipedFd(At(s.heap, x));
      KillSucceeds(s, x, junk);
      KillKeeps(s, x, junk);
      KillSpares(s, x, junk, p);
      var t := Kill(s, x, junk).0;
      var y := PipedTo(t.heap, t.procs, fd);
      assert !Member(t, NULL);
      PipedToIs(t.heap, t.procs, fd);
      if fd != -1 && y != NULL {
        assert Member(t, y);
        KillKeeps(t, y, junk2);
        KillSpares(t, y, junk2, p);
        KillCalm(s, x, junk, p, exact);
        KillCalm(t, y, junk2, p, exact);
      } else {
        KillCalm(s, x, junk, p, exact);
      }
    }
  }

  lemma KillForegroundCalm(s: Sched, junk: Junk, junk2: Junk, p: Ptr, exact: bool)
    requires Inv(s) && p in s.ready && p in KillForeground(s, junk, junk2).0.ready
    ensures Calm(s, KillForeground(s, junk, junk2).0, p, exact)
  {
    if s.current != NULL && InForeground(At(s.heap, s.current)) {
      KillProcessCalm(s, At(s.heap, s.current).pid, junk, junk2, p, exact);
    } else if s.current != NULL {
      var x := Foreground(s.heap, s.procs);
      assert !Member(s, NULL);
      ForegroundIs(s.heap, s.procs);
      if x != NULL {
        assert Member(s, x);
        KillKeeps(s, x, junk);
        KillSpares(s, x, junk, p);
        KillCalm(s, x, junk, p, exact);
      }
    }
  }

  // ---------------------------------------------------------------- actions, up to their call of schedule

  function BeforeYield(s: Sched, pid: int): (Sched, bool) {
    var p := FindProcess(s, pid);
    if p == NULL || (At(s.heap, p).status == Ready && p !in s.ready) then (s, false)
    else
      var t := MarkBlocked(s, p);
      if t.currentPid == pid then (t.(quantums := 0), true) else (t, false)
  }

  /** The state in which an action calls schedule, if it does; else the state it ends in. */
  function BeforeTick(s: Sched, a: Action): (Sched, bool) {
    match a
    case TickAct(_) => (s, true)
    case YieldAct(_) => (s.(quantums := 0), true)
    case BlockAct(pid, _) => BeforeYield(s, pid)
    case WaitAct(pid, _, node) =>
      var p := FindProcess(s, pid);
      if p == NULL || s.currentPid == pid then (s, false) else BeforeYield(Enlist(s, p, node), s.currentPid)
    case _ => (Next(s, a), false)
  }

  function StackOf(a: Action): int {
    match a
    case TickAct(rsp) => rsp
    case YieldAct(rsp) => rsp
    case BlockAct(_, rsp) => rsp
    case WaitAct(_, rsp, _) => rsp
    case _ => 0
  }

  lemma NextSplits(s: Sched, a: Action)
    ensures var (t, ticks) := BeforeTick(s, a); Next(s, a) == if ticks then Tick(t, StackOf(a)).0 else t
  {
    hide FindProcess, MarkBlocked, Tick;
  }

  lemma BeforeYieldStops(s: Sched, pid: int)
    requires Inv(s) && pid != IDLE_PID
    ensures Stopping(BeforeYield(s, pid).0)
  {
    var p := FindProcess(s, pid);
    Finds(s, pid);
    InvStops(s);
    if p != NULL {
      var t := MarkBlocked(s, p);
      BlockStops(s, p);
      QuantumStops(t);
    }
  }

  lemma BeforeYieldCalm(s: Sched, pid: int, p: Ptr, exact: bool)
    requires Inv(s) && p in s.ready && p in BeforeYield(s, pid).0.ready
    ensures Calm(s, BeforeYield(s, pid).0, p, exact)
  {
    var x := FindProcess(s, pid);
    Finds(s, pid);
    if x != NULL {
      MarkBlockedCalm(s, x, p, exact);
    }
  }

  lemma BeforeTickStops(s: Sched, a: Action)
    requires Inv(s) && Allowed(s, a)
    ensures Stopping(BeforeTick(s, a).0)
  {
    hide InvBut, Stopping, BeforeYield, Next;
    InvStops(s);
    match a
    case TickAct(_) =>
    case YieldAct(_) => QuantumStops(s);
    case BlockAct(pid, _) => BeforeYieldStops(s, pid);
    case WaitAct(pid, _, node) =>
      var p := FindProcess(s, pid);
      if p != NULL && s.currentPid != pid {
        EnlistKeeps(s, pid, node);
        BeforeYieldStops(Enlist(s, p, node), s.currentPid);
      }
    case _ =>
      NextKeeps(s, a);
      InvStops(Next(s, a));
  }

  lemma EnlistCalm(s: Sched, x: Ptr, node: bool, p: Ptr, exact: bool)
    requires p in s.ready
    ensures Calm(s, Enlist(s, x, node), p, exact)
  {
    CostSame(s.heap, Enlist(s, x, node).heap, Ahead(s.ready, p), exact);
  }

  lemma PriorityCalm(s: Sched, pid: int, priority: nat, p: Ptr)
    requires p in s.ready
    ensures Calm(s, ChangePriority(s, pid, priority).0, p, false)
  {
    CostSame(s.heap, ChangePriority(s, pid, priority).0.heap, Ahead(s.ready, p), false);
  }

  lemma FdsCalm(s: Sched, pid: int, stdin: int, stdout: int, p: Ptr, exact: bool)
    requires p in s.ready
    ensures Calm(s, ChangeFds(s, pid, stdin, stdout).0, p, exact)
  {
    CostSame(s.heap, ChangeFds(s, pid, stdin, stdout).0.heap, Ahead(s.ready, p), exact);
  }

  /** Up to its call of schedule, no action puts anybody in front of p. */
  lemma BeforeTickCalm(s: Sched, a: Action, p: Ptr, exact: bool)
    requires Inv(s) && Allowed(s, a) && p in s.ready && p in BeforeTick(s, a).0.ready
    requires exact ==> !a.PriorityAct?
    ensures Calm(s, BeforeTick(s, a).0, p, exact)
  {
    hide InvBut, BeforeYield, Enlist, Cost, Ahead;
    match a
    case TickAct(_) =>
    case YieldAct(_) =>
    case CreateAct(priority, stdin, stdout, ground, ptr, stack) =>
      CreateCalm(s, priority, stdin, stdout, ground, ptr, stack, p, exact);
    case ReadyAct(pid) => SetReadyCalm(s, pid, p, exact);
    case BlockAct(pid, _) => BeforeYieldCalm(s, pid, p, exact);
    case KillAct(pid, junk, junk2) => KillProcessCalm(s, pid, junk, junk2, p, exact);
    case ExitAct(junk, junk2) =>
      assert s.currentPid == At(s.heap, s.current).pid by { CurrentAgrees(s); }
      KillProcessCalm(s, At(s.heap, s.current).pid, junk, junk2, p, exact);
    case InterruptAct(junk, junk2) => KillForegroundCalm(s, junk, junk2, p, exact);
    case WaitAct(pid, _, node) => WaitCalm(s, pid, node, p, exact);
    case PriorityAct(pid, priority) => PriorityCalm(s, pid, priority, p);
    case FdsAct(pid, stdin, stdout) => FdsCalm(s, pid, stdin, stdout, p, exact);
  }

  lemma CurrentAgrees(s: Sched)
    requires Inv(s)
    ensures s.currentPid == if s.current == NULL then NO_PROCESS else At(s.heap, s.current).pid
  {
  }

  lemma WaitCalm(s: Sched, pid: int, node: bool, p: Ptr, exact: bool)
    requires Inv(s) && p in s.ready && p in BeforeTick(s, WaitAct(pid, 0, node)).0.ready
    ensures Calm(s, BeforeTick(s, WaitAct(pid, 0, node)).0, p, exact)
  {
    var x := FindProcess(s, pid);
    if x != NULL && s.currentPid != pid {
      EnlistKeeps(s, pid, node);
      EnlistCalm(s, x, node, p, exact);
      BeforeYieldCalm(Enlist(s, x, node), s.currentPid, p, exact);
    }
  }

  // ---------------------------------------------------------------- ticks

  /** Priorities as changePriority and the shell set them, and a quantum to match. */
  ghost predicate Capped(s: Sched) {
    s.quantums <= MAX_PRIORITY && forall p :: Member(s, p) ==> At(s.heap, p).priority <= MAX_PRIORITY
  }

  /** A waiting process stays in the list as long as it is not at the head. */
  lemma RetireAhead(s: Sched, rsp: int, p: Ptr)
    requires Stopping(s) && p in s.ready
    ensures var r := Retire(s, rsp); p in r.ready && Ahead(r.ready, p) == Ahead(s.ready, p)
    ensures forall x :: Member(s, x) ==> At(Retire(s, rsp).heap, x).priority == At(s.heap, x).priority
  {
    AheadPrefix(s.ready, Retire(s, rsp).ready, p);
  }

  lemma PopAhead(q: seq<Ptr>, p: Ptr)
    requires Distinct(q) && q != [] && p in q && p in q[1..]
    ensures p != q[0] && Ahead(q, p) == [q[0]] + Ahead(q[1..], p)
  {
    PopOk(q);
  }

  lemma SwitchPriority(s: Sched, rsp: int, x: Ptr)
    requires Stopping(s) && Switches(s) && Member(s, x)
    ensures At(Tick(s, rsp).0.heap, x).priority == At(s.heap, x).priority
  {
    TickDispatches(s, rsp);
    RetirePriority(s, rsp, x);
    hide Stopping, AtRest, Retire, Tick;
  }

  lemma RetirePriority(s: Sched, rsp: int, x: Ptr)
    requires Stopping(s) && Member(s, x)
    ensures var r := Retire(s.(quantums := s.quantums - 1), rsp); At(r.heap, x).priority == At(s.heap, x).priority
  {
    hide ListsOk, QueuesOk, IdleOk, NoLeak;
  }

  lemma SwitchReady(s: Sched, rsp: int, p: Ptr)
    requires Stopping(s) && Switches(s) && p in s.ready
    ensures var r := Retire(s.(quantums := s.quantums - 1), rsp);
            var t := Tick(s, rsp).0;
            && Distinct(r.ready) && r.ready != [] && p in r.ready && Ahead(r.ready, p) == Ahead(s.ready, p)
            && t.ready == r.ready[1..] && t.quantums == At(r.heap, r.ready[0]).priority
            && (Member(s, r.ready[0]) ==> At(r.heap, r.ready[0]).priority == At(s.heap, r.ready[0]).priority)
  {
    TickDispatches(s, rsp);
    QuantumOff(s);
    RetireAhead(s.(quantums := s.quantums - 1), rsp, p);
    hide Stopping, Ahead;
  }

  lemma ReadyMembers(s: Sched)
    requires Stopping(s)
    ensures forall x :: x in s.ready ==> Member(s, x)
  {
  }

  /** The ready list and the records that a switch leaves. */
  lemma SwitchPops(s: Sched, rsp: int, p: Ptr)
    requires Stopping(s) && Switches(s) && p in s.ready && p in Tick(s, rsp).0.ready
    ensures var t := Tick(s, rsp).0;
            var ahead := Ahead(s.ready, p);
            && ahead != [] && t.quantums == At(s.heap, ahead[0]).priority
            && Ahead(t.ready, p) == ahead[1..]
            && (Capped(s) ==> t.quantums <= MAX_PRIORITY)
            && forall x :: x in Ahead(t.ready, p) ==> At(t.heap, x).priority == At(s.heap, x).priority
  {
    SwitchReady(s, rsp, p);
    ReadyMembers(s);
    var r := Retire(s.(quantums := s.quantums - 1), rsp);
    var t := Tick(s, rsp).0;
    hide Stopping, Tick, Retire, Switches, Distinct;
    PopAhead(r.ready, p);
    var ahead := Ahead(s.ready, p);
    assert ahead[0] in ahead && Member(s, ahead[0]);
    forall x | x in Ahead(t.ready, p) ensures At(t.heap, x).priority == At(s.heap, x).priority {
      assert x in ahead;
      SwitchPriority(s, rsp, x);
    }
  }

  lemma StayNearer(s: Sched, rsp: int, p: Ptr, exact: bool)
    requires Stopping(s) && p in s.ready && !Switches(s)
    ensures var t := Tick(s, rsp).0; Wait(t, p, exact) < Wait(s, p, exact) && t.ready == s.ready
  {
    CostSame(s.heap, Tick(s, rsp).0.heap, Ahead(s.ready, p), exact);
    SomeProcess(s);
  }

  /** A tick either dispatches p, or brings it nearer by at least one tick, and by one place if it switches. */
  lemma TickNearer(s: Sched, rsp: int, p: Ptr, exact: bool)
    requires Stopping(s) && p in s.ready && p in Tick(s, rsp).0.ready && (exact || Capped(s))
    ensures var t := Tick(s, rsp).0;
            && Wait(t, p, exact) < Wait(s, p, exact)
            && |Ahead(t.ready, p)| == |Ahead(s.ready, p)| - if Switches(s) then 1 else 0
  {
    var t := Tick(s, rsp).0;
    if Switches(s) {
      SwitchPops(s, rsp, p);
      hide Tick, Stopping, Ahead, Capped;
      CostSame(s.heap, t.heap, Ahead(t.ready, p), exact);
    } else {
      StayNearer(s, rsp, p, exact);
    }
  }

  lemma TickReady(s: Sched, rsp: int, p: Ptr)
    requires Stopping(s) && p in Tick(s, rsp).0.ready && p != s.current
    ensures p in s.ready
  {
    if Switches(s) {
      TickDispatches(s, rsp);
    }
  }

  // ---------------------------------------------------------------- bounded waiting

  /** createProcess is called with priorities up to 10. */
  predicate SanePriority(a: Action) {
    a.CreateAct? ==> a.priority <= MAX_PRIORITY
  }

  lemma BeforeYieldCapped(s: Sched, pid: int)
    requires Inv(s) && Capped(s)
    ensures Capped(BeforeYield(s, pid).0)
  {
    var p := FindProcess(s, pid);
    Finds(s, pid);
    var t := BeforeYield(s, pid).0;
    assert forall x :: Member(t, x) ==> Member(s, x) && At(t.heap, x).priority == At(s.heap, x).priority;
  }

  lemma EnlistCapped(s: Sched, pid: int, node: bool)
    requires Inv(s) && Capped(s) && FindProcess(s, pid) != NULL
    ensures Capped(Enlist(s, FindProcess(s, pid), node))
  {
    var t := Enlist(s, FindProcess(s, pid), node);
    assert forall x :: Member(t, x) ==> Member(s, x) && At(t.heap, x).priority == At(s.heap, x).priority;
  }

  lemma ChangesCapped(s: Sched, a: Action)
    requires Inv(s) && Capped(s) && (a.PriorityAct? || a.FdsAct? || a.ReadyAct?)
    ensures Capped(Next(s, a))
  {
    var t := Next(s, a);
    Finds(s, a.pid);
    assert forall x :: Member(t, x) ==> Member(s, x);
  }

  lemma CreateCapped(s: Sched, a: Action)
    requires Inv(s) && Capped(s) && a.CreateAct? && SanePriority(a)
    ensures Capped(Next(s, a))
  {
    var t := Next(s, a);
    assert forall x :: Member(t, x) ==> Member(s, x) || x == a.ptr;
  }

  lemma BeforeTickCapped(s: Sched, a: Action)
    requires Inv(s) && Allowed(s, a) && Capped(s) && SanePriority(a)
    ensures Capped(BeforeTick(s, a).0)
  {
    var t := BeforeTick(s, a).0;
    match a
    case TickAct(_) =>
    case YieldAct(_) =>
      assert forall x :: Member(t, x) ==> Member(s, x);
    case BlockAct(pid, _) => BeforeYieldCapped(s, pid);
    case WaitAct(pid, _, node) =>
      var x := FindProcess(s, pid);
      if x != NULL && s.currentPid != pid {
        EnlistKeeps(s, pid, node);
        EnlistCapped(s, pid, node);
        BeforeYieldCapped(Enlist(s, x, node), s.currentPid);
      }
    case KillAct(pid, junk, junk2) =>
      KillProcessSpares(s, pid, junk, junk2, NULL);
      forall q | Member(t, q) ensures At(t.heap, q).priority <= MAX_PRIORITY {
        KillProcessSpares(s, pid, junk, junk2, q);
      }
    case ExitAct(junk, junk2) =>
      CurrentAgrees(s);
      KillProcessSpares(s, s.currentPid, junk, junk2, NULL);
      forall q | Member(t, q) ensures At(t.heap, q).priority <= MAX_PRIORITY {
        KillProcessSpares(s, s.currentPid, junk, junk2, q);
      }
    case InterruptAct(junk, junk2) =>
      KillForegroundSpares(s, junk, junk2, NULL);
      forall q | Member(t, q) ensures At(t.heap, q).priority <= MAX_PRIORITY {
        KillForegroundSpares(s, junk, junk2, q);
      }
    case CreateAct(_, _, _, _, _, _) => CreateCapped(s, a);
    case _ => ChangesCapped(s, a);
  }

  lemma TickPriority(s: Sched, rsp: int, q: Ptr)
    requires Stopping(s) && Member(s, q)
    ensures At(Tick(s, rsp).0.heap, q).priority == At(s.heap, q).priority
  {
    if Switches(s) {
      SwitchPriority(s, rsp, q);
    }
  }

  lemma TickQuantum(s: Sched, rsp: int)
    requires Stopping(s)
    ensures var t := Tick(s, rsp).0;
            && t.procs == s.procs
            && if Switches(s) then Member(s, t.current) && t.quantums == At(t.heap, t.current).priority
               else t.quantums == s.quantums - 1
  {
    if Switches(s) {
      TickDispatches(s, rsp);
    }
  }

  lemma TickCapped(s: Sched, rsp: int)
    requires Stopping(s) && Capped(s)
    ensures Capped(Tick(s, rsp).0)
  {
    var t := Tick(s, rsp).0;
    TickQuantum(s, rsp);
    hide Tick, Stopping;
    forall q | Member(t, q) ensures At(t.heap, q).priority <= MAX_PRIORITY {
      assert Member(s, q);
      TickPriority(s, rsp, q);
    }
    assert Switches(s) ==> Member(t, t.current);
  }

  lemma NextCapped(s: Sched, a: Action)
    requires Inv(s) && Allowed(s, a) && Capped(s) && SanePriority(a)
    ensures Capped(Next(s, a))
  {
    BeforeTickCapped(s, a);
    BeforeTickStops(s, a);
    NextSplits(s, a);
    hide Capped, Stopping, Next, BeforeTick;
    TickCapped(BeforeTick(s, a).0, StackOf(a));
  }

  /** Calls of schedule in an action. */
  function Ticks(s: Sched, a: Action): nat {
    if BeforeTick(s, a).1 then 1 else 0
  }

  /** Context switches in an action. */
  function ContextSwitches(s: Sched, a: Action): nat {
    if BeforeTick(s, a).1 && Switches(BeforeTick(s, a).0) then 1 else 0
  }

  function TotalTicks(s: Sched, run: seq<Action>): nat
    decreases |run|
  {
    if run == [] then 0 else Ticks(s, run[0]) + TotalTicks(Next(s, run[0]), run[1..])
  }

  function TotalSwitches(s: Sched, run: seq<Action>): nat
    decreases |run|
  {
    if run == [] then 0 else ContextSwitches(s, run[0]) + TotalSwitches(Next(s, run[0]), run[1..])
  }

  /** p is in the ready list all through the run: it is not dispatched, and not blocked or killed either. */
  predicate StaysReady(s: Sched, p: Ptr, run: seq<Action>)
    decreases |run|
  {
    p in s.ready && (run == [] || StaysReady(Next(s, run[0]), p, run[1..]))
  }

  lemma BeforeTickReady(s: Sched, a: Action, p: Ptr)
    requires Inv(s) && Allowed(s, a) && p in s.ready && p in Next(s, a).ready
    ensures p in BeforeTick(s, a).0.ready
  {
    var (t, ticks) := BeforeTick(s, a);
    NextSplits(s, a);
    if ticks {
      BeforeTickStops(s, a);
      BeforeTickLists(s, a);
      assert p != s.current;
      TickReady(t, StackOf(a), p);
    }
  }

  /** One action while p stays ready. */
  lemma NextNearer(s: Sched, a: Action, p: Ptr, exact: bool)
    requires Inv(s) && Allowed(s, a) && p in s.ready && p in Next(s, a).ready
    requires if exact then !a.PriorityAct? else Capped(s) && SanePriority(a)
    ensures var t := Next(s, a);
            && Wait(t, p, exact) + Ticks(s, a) <= Wait(s, p, exact)
            && |Ahead(t.ready, p)| + ContextSwitches(s, a) <= |Ahead(s.ready, p)|
  {
    BeforeTickReady(s, a, p);
    BeforeTickCalm(s, a, p, exact);
    BeforeTickStops(s, a);
    NextSplits(s, a);
    if !exact {
      BeforeTickCapped(s, a);
    }
    hide BeforeTick, Inv, Stopping, Capped, Next;
    if BeforeTick(s, a).1 {
      TickNearer(BeforeTick(s, a).0, StackOf(a), p, exact);
    }
  }

  /**
   A ready process that is neither blocked nor killed is dispatched in time. For as long as it stays ready, there
   are fewer ticks than the quantum that is left and the quanta of those ahead of it, and no more switches than
   there are processes ahead; so the next tick or switch beyond these dispatches it.
   */
  lemma {:induction false} BoundedWaiting(s: Sched, p: Ptr, run: seq<Action>)
    requires Inv(s) && AllowedRun(s, run) && StaysReady(s, p, run)
    requires forall i :: 0 <= i < |run| ==> !run[i].PriorityAct?
    ensures TotalTicks(s, run) + Wait(Final(s, run), p, true) <= Wait(s, p, true)
    ensures TotalSwitches(s, run) + |Ahead(Final(s, run).ready, p)| <= |Ahead(s.ready, p)|
    decreases |run|
  {
    if run != [] {
      NextKeeps(s, run[0]);
      assert p in Next(s, run[0]).ready;
      NextNearer(s, run[0], p, true);
      hide Inv, Allowed, Next, Wait, Ahead, Ticks, ContextSwitches;
      BoundedWaiting(Next(s, run[0]), p, run[1..]);
    }
  }

  /** With priorities up to 10, even when they are changed on the way: at most 10 * (k + 1) ticks from place k. */
  lemma {:induction false} BoundedWaitingCapped(s: Sched, p: Ptr, run: seq<Action>)
    requires Inv(s) && Capped(s) && AllowedRun(s, run) && StaysReady(s, p, run)
    requires forall i :: 0 <= i < |run| ==> SanePriority(run[i])
    ensures TotalTicks(s, run) + Wait(Final(s, run), p, false) <= Wait(s, p, false)
    ensures TotalSwitches(s, run) + |Ahead(Final(s, run).ready, p)| <= |Ahead(s.ready, p)|
    decreases |run|
  {
    if run != [] {
      NextKeeps(s, run[0]);
      NextCapped(s, run[0]);
      assert p in Next(s, run[0]).ready;
      NextNearer(s, run[0], p, false);
      hide Inv, Capped, Allowed, Next, Wait, Ahead, Ticks, ContextSwitches;
      BoundedWaitingCapped(Next(s, run[0]), p, run[1..]);
    }
  }

  lemma TenPerPlace(s: Sched, k: nat, run: seq<Action>)
    requires Inv(s) && Capped(s) && k < |s.ready| && AllowedRun(s, run) && StaysReady(s, s.ready[k], run)
    requires forall i :: 0 <= i < |run| ==> SanePriority(run[i])
    ensures TotalTicks(s, run) < 10 * (k + 1) && TotalSwitches(s, run) <= k
  {
    BoundedWaitingCapped(s, s.ready[k], run);
    AheadIndex(s.ready, k);
    CostBound(s.heap, s.ready[..k]);
  }

  /** A ready process that leaves the ready list was dispatched, blocked or killed. */
  lemma LeavesReady(s: Sched, a: Action, p: Ptr)
    requires Inv(s) && Allowed(s, a) && p in s.ready && p !in Next(s, a).ready
    ensures var t := Next(s, a); p !in t.procs || p in t.blocked || (p == t.current && At(t.heap, p).status == Running)
  {
    NextKeeps(s, a);
    assert p in Next(s, a).procs <==> Member(Next(s, a), p);
  }

  // ---------------------------------------------------------------- what a process finds when it runs again

  /** A suspended process: listed, and not the one that runs. */
  predicate Suspended(s: Sched, p: Ptr) {
    p in s.procs && p != s.current
  }

  lemma BeforeYieldStack(s: Sched, pid: int, q: Ptr)
    requires Inv(s)
    ensures At(BeforeYield(s, pid).0.heap, q).stackPos == At(s.heap, q).stackPos
  {
    Finds(s, pid);
  }

  /** Up to its call of schedule, no action changes the saved stack position of a process that it does not kill. */
  lemma BeforeTickStack(s: Sched, a: Action, q: Ptr)
    requires Inv(s) && Allowed(s, a) && Member(s, q) && Member(BeforeTick(s, a).0, q)
    ensures At(BeforeTick(s, a).0.heap, q).stackPos == At(s.heap, q).stackPos
  {
    match a
    case TickAct(_) =>
    case YieldAct(_) =>
    case CreateAct(_, _, _, _, _, _) =>
    case ReadyAct(pid) => Finds(s, pid);
    case PriorityAct(pid, _) => Finds(s, pid);
    case FdsAct(pid, _, _) => Finds(s, pid);
    case BlockAct(pid, _) => BeforeYieldStack(s, pid, q);
    case WaitAct(pid, _, node) =>
      var x := FindProcess(s, pid);
      Finds(s, pid);
      if x != NULL && s.currentPid != pid {
        EnlistKeeps(s, pid, node);
        BeforeYieldStack(Enlist(s, x, node), s.currentPid, q);
      }
    case KillAct(pid, junk, junk2) => KillProcessSpares(s, pid, junk, junk2, q);
    case ExitAct(junk, junk2) =>
      CurrentAgrees(s);
      KillProcessSpares(s, s.currentPid, junk, junk2, q);
    case InterruptAct(junk, junk2) => KillForegroundSpares(s, junk, junk2, q);
  }

  /**
   A tick that changes processes saves the stack position of the process it stops, keeps that of every other one,
   and goes on with what was saved for the process it starts.
   */
  lemma TickStack(s: Sched, rsp: int, q: Ptr)
    requires Stopping(s) && Member(s, q)
    ensures var (t, out) := Tick(s, rsp);
            && Member(t, q)
            && At(t.heap, q).stackPos == (if Switches(s) && q == s.current then rsp else At(s.heap, q).stackPos)
            && (Switches(s) ==> out == At(t.heap, t.current).stackPos)
            && (!Switches(s) ==> out == rsp && t.current == s.current)
  {
    if Switches(s) {
      TickDispatches(s, rsp);
      RetireStack(s, rsp, q);
      hide Stopping, AtRest, Retire, Tick;
    }
  }

  lemma RetireStack(s: Sched, rsp: int, q: Ptr)
    requires Stopping(s) && Member(s, q)
    ensures var r := Retire(s.(quantums := s.quantums - 1), rsp);
            r.procs == s.procs && At(r.heap, q).stackPos == if q == s.current then rsp else At(s.heap, q).stackPos
  {
    hide ListsOk, QueuesOk, IdleOk, NoLeak;
  }

  lemma BeforeTickLists(s: Sched, a: Action)
    ensures var (t, ticks) := BeforeTick(s, a); ticks ==> t.current == s.current && t.procs == s.procs
  {
    hide FindProcess, L.RemoveFirst;
  }

  /** One action while p stays suspended, or up to the moment that it is dispatched. */
  lemma NextStack(s: Sched, a: Action, p: Ptr)
    requires Inv(s) && Allowed(s, a) && Suspended(s, p) && p in Next(s, a).procs
    ensures At(Next(s, a).heap, p).stackPos == At(s.heap, p).stackPos
  {
    var (t, ticks) := BeforeTick(s, a);
    NextSplits(s, a);
    BeforeTickStops(s, a);
    BeforeTickLists(s, a);
    hide Next, BeforeTick, Tick, Inv, Stopping, Allowed;
    if ticks {
      BeforeTickStack(s, a, p);
      TickStack(t, StackOf(a), p);
    } else {
      BeforeTickStack(s, a, p);
    }
  }

  predicate StaysSuspended(s: Sched, p: Ptr, run: seq<Action>)
    decreases |run|
  {
    Suspended(s, p) && (run == [] || StaysSuspended(Next(s, run[0]), p, run[1..]))
  }

  /** However long a process is suspended, a tick that dispatches it goes on with the stack position it was stopped at. */
  lemma {:induction false} ResumesWhereStopped(s: Sched, p: Ptr, run: seq<Action>, rsp: int)
    requires Inv(s) && AllowedRun(s, run) && StaysSuspended(s, p, run)
    ensures var v := Final(s, run);
            && Inv(v) && Member(v, p)
            && (Tick(v, rsp).0.current == p ==> Tick(v, rsp).1 == At(s.heap, p).stackPos)
    decreases |run|
  {
    if run == [] {
      InvStops(s);
      TickStack(s, rsp, p);
    } else {
      NextKeeps(s, run[0]);
      assert Suspended(Next(s, run[0]), p);
      NextStack(s, run[0], p);
      hide Inv, Allowed, Next, Suspended, Tick;
      ResumesWhereStopped(Next(s, run[0]), p, run[1..], rsp);
    }
  }

  // ---------------------------------------------------------------- branches that no run reaches

  /** No call of schedule in this action looks idle up, and a creation would find a pid. */
  ghost predicate NoFallback(s: Sched, a: Action) {
    var (t, ticks) := BeforeTick(s, a);
    && (ticks && Switches(t) ==> Retire(t.(quantums := t.quantums - 1), StackOf(a)).ready != [])
    && (s.qty < MAX_PROCESS ==> FreePid(s, 0) < MAX_PROCESS)
  }

  lemma FallbacksDead(s: Sched, a: Action)
    requires Inv(s) && Allowed(s, a)
    ensures NoFallback(s, a)
  {
    hide Stopping, BeforeTick, Retire, AtRest, InvBut, Allowed;
    BeforeTickStops(s, a);
    if Switches(BeforeTick(s, a).0) {
      TickDispatches(BeforeTick(s, a).0, StackOf(a));
    }
    if s.qty < MAX_PROCESS {
      PidIsFree(s);
    }
  }

  /** From boot on, no call of schedule falls back on looking idle up, and creation never runs out of pids. */
  lemma FallbacksUnreachable(ptr: Ptr, stack: int, run: seq<Action>, a: Action)
    requires ptr != NULL && AllowedRun(Boot(ptr, stack), run) && Allowed(Final(Boot(ptr, stack), run), a)
    ensures NoFallback(Final(Boot(ptr, stack), run), a)
  {
    BootInv(ptr, stack);
    EveryRun(Boot(ptr, stack), run);
    hide *;
    FallbacksDead(Final(Boot(ptr, stack), run), a);
  }
}
