/** Semaphores and scheduler together: sem_wait and sem_post as the running process calls them. */
module KernelSync {
  import opened SemaphoreSpec
  import S = SchedulerSpec
  import opened SchedulerProofs

  type Ptr = S.Ptr

  /** The pids that findProcess finds: what sem_post takes for live. */
  ghost function Pids(s: S.Sched): set<Pid> {
    set p | p in s.procs :: S.At(s.heap, p).pid
  }

  /** What the running process does to itself at the end of a sem_wait: it calls blockProcess, which may be refused its node. */
  function BlockCaller(s: S.Sched, r: Waited, rsp: int): S.Sched {
    if r.Joined? || r.Stranded? then S.Block(s, s.currentPid, rsp).0
    else if r.Passed? then S.BlockRefused(s, s.currentPid, rsp).0
    else s
  }

  /** sem_wait by the running process; g is what memory it is refused, if it finds no permit. */
  function SemWait(s: S.Sched, sem: Sem, rsp: int, g: Grant): (S.Sched, Sem) {
    var (t, r) := Wait(sem, s.currentPid, g);
    (BlockCaller(s, r, rsp), t)
  }

  /** A running process that is refused the list node of blockProcess goes on running. */
  lemma PassesOn(s: S.Sched, rsp: int)
    requires Inv(s) && Member(s, s.current)
    ensures S.BlockRefused(s, s.currentPid, rsp).0 == s
  {
    InvSafe(s);
    FindsThis(s, s.current);
  }

  ghost function SemPost(s: S.Sched, sem: Sem): (S.Sched, Sem) {
    var (t, woken) := Post(sem, Pids(s));
    (if woken.Some? then S.SetReady(s, woken.value).0 else s, t)
  }

  lemma RemainsBlocked(s: S.Sched, rsp: int, p: Ptr)
    requires Stopping(s) && Member(s, p) && S.At(s.heap, p).status == S.Blocked && S.Switches(s)
    ensures var t := S.Tick(s, rsp).0;
            Member(t, p) && p in t.blocked && S.At(t.heap, p).status == S.Blocked && t.current != p
    ensures S.At(S.Tick(s, rsp).0.heap, p).pid == S.At(s.heap, p).pid
    ensures S.At(S.Tick(s, rsp).0.heap, p).stdin == S.At(s.heap, p).stdin
    ensures S.At(S.Tick(s, rsp).0.heap, p).stdout == S.At(s.heap, p).stdout
  {
    TickDispatches(s, rsp);
    hide S.Tick, TableOk, IdleOk, NoLeak;
  }

  /** A process that blocks itself is off the processor when blockProcess returns. */
  lemma BlocksItself(s: S.Sched, rsp: int)
    requires Inv(s) && s.current != S.NULL && Member(s, s.current) && s.currentPid != S.IDLE_PID
    ensures var t := S.Block(s, s.currentPid, rsp).0;
            && Inv(t) && Member(t, s.current) && s.current in t.blocked && t.current != s.current
            && S.At(t.heap, s.current).status == S.Blocked
            && S.At(t.heap, s.current).pid == s.currentPid
            && S.PipedFd(S.At(t.heap, s.current)) == S.PipedFd(S.At(s.heap, s.current))
  {
    hide S.Block, S.Tick, S.FindProcess, S.MarkBlocked, ListsOk, TableOk, QueuesOk, NoLeak, IdleOk;
    BlockKeeps(s, s.currentPid, rsp);
    InvSafe(s);
    FindsThis(s, s.current);
    MarkBlockedRunning(s, s.current);
    var m := S.MarkBlocked(s, s.current);
    BlockIsYield(s, rsp);
    QuantumStops(m);
    SomeProcess(m);
    MarkedIs(s);
    hide InvBut, Stopping;
    RemainsBlocked(m.(quantums := 0), rsp, s.current);
  }

  lemma MarkedIs(s: S.Sched)
    requires Inv(s) && Member(s, s.current)
    ensures var m := S.MarkBlocked(s, s.current);
            Member(m, s.current) && S.At(m.heap, s.current) == S.At(s.heap, s.current).(status := S.Blocked)
  {
    InvSafe(s);
    assert !Member(s, S.NULL);
  }

  lemma BlockIsYield(s: S.Sched, rsp: int)
    requires Inv(s) && Member(s, s.current) && S.FindProcess(s, s.currentPid) == s.current
    ensures S.Block(s, s.currentPid, rsp).0 == S.Tick(S.MarkBlocked(s, s.current).(quantums := 0), rsp).0
  {
    InvSafe(s);
    assert !Member(s, S.NULL);
    hide S.Tick;
  }

  /**
   Without a permit the caller is blocked and another process runs, unless its cell or the node of blockProcess is refused;
   then it goes on. Its entry is at the end of the queue unless its cell or its list node is refused.
   */
  lemma WaitBlocks(s: S.Sched, sem: Sem, rsp: int, g: Grant)
    requires Inv(s) && s.current != S.NULL && Member(s, s.current) && s.currentPid != S.IDLE_PID && sem.counter == 0
    ensures var (t, sem') := SemWait(s, sem, rsp, g);
            && Inv(t) && sem' == Sem(0, if g == NoCell || g == NoNode then sem.queue else sem.queue + [s.currentPid])
            && if g == NoCell || g == NoBlock then t == s else
               && Member(t, s.current) && s.current in t.blocked && t.current != s.current
               && S.At(t.heap, s.current).status == S.Blocked
               && S.At(t.heap, s.current).pid == s.currentPid
               && S.PipedFd(S.At(t.heap, s.current)) == S.PipedFd(S.At(s.heap, s.current))
  {
    BlocksItself(s, rsp);
    PassesOn(s, rsp);
    hide S.Block, S.BlockRefused, S.At, InvBut;
  }

  /**
   sem_post with someone live in the queue: the first live pid leaves the queue with the permit, and the process that
   has this pid is not blocked any more.
   */
  lemma PostWakes(s: S.Sched, sem: Sem)
    requires Inv(s) && Purge(sem.queue, Pids(s)) != []
    ensures var (t, sem') := SemPost(s, sem);
            var q := Purge(sem.queue, Pids(s));
            var p := S.FindProcess(s, q[0]);
            && Inv(t) && sem' == Sem(sem.counter, q[1..])
            && Member(s, p) && Member(t, p) && S.At(t.heap, p).pid == q[0] && S.At(t.heap, p).status != S.Blocked
            && (S.At(s.heap, p).status == S.Blocked ==> p in t.ready)
  {
    var q := Purge(sem.queue, Pids(s));
    assert q[0] in q;
    assert q[0] in Pids(s);
    var x :| x in s.procs && S.At(s.heap, x).pid == q[0];
    assert Member(s, x);
    FindsThis(s, x);
    SetReadyKeeps(s, S.NULL, q[0]);
    SetReadyWakes(s, S.NULL, q[0]);
    ReadiesFound(s, S.NULL, x);
  }

  /**
   A semaphore remembers pids, and a pid can name a process that waits elsewhere. When the entry of a killed waiter names
   a process that has since gone to wait for another semaphore, sem_post makes that process ready: it returns from the
   other sem_wait without a permit, its entry stays in the other queue, and the permit is gone.
   */
  lemma WrongSemaphore(s: S.Sched, other: Sem, rsp: int)
    requires Inv(s) && s.current != S.NULL && Member(s, s.current) && s.currentPid != S.IDLE_PID && other.counter == 0
    ensures var (s1, other') := SemWait(s, other, rsp, Granted);
            var (s2, stale') := SemPost(s1, Sem(0, [s.currentPid]));
            && other' == Sem(0, other.queue + [s.currentPid]) && stale' == Sem(0, [])
            && S.At(s1.heap, s.current).status == S.Blocked
            && Member(s2, s.current) && s.current in s2.ready
  {
    var k := s.currentPid;
    WaitBlocks(s, other, rsp, Granted);
    var s1 := SemWait(s, other, rsp, Granted).0;
    FindsThis(s1, s.current);
    assert s.current in s1.procs;
    PurgeAllLive([k], Pids(s1));
    hide Inv, SemWait;
    PostWakes(s1, Sem(0, [k]));
  }

  /** Killing a process that is not at either end of a pipe leaves room for another one. */
  lemma KillMakesRoom(s: S.Sched, p: Ptr, junk: S.Junk)
    requires Inv(s) && Member(s, p) && S.At(s.heap, p).pid != S.IDLE_PID && S.PipedFd(S.At(s.heap, p)) == -1
    ensures var t := S.KillProcess(s, S.At(s.heap, p).pid, junk, junk).0; Inv(t) && t.qty < S.MAX_PROCESS
  {
    FindsThis(s, p);
    KillSucceeds(s, p, junk);
    KillKeeps(s, p, junk);
    EmptiedKeeps(s, p, junk);
    assert !Member(s, S.NULL);
  }

  /**
   A semaphore remembers pids, not processes. If a waiter is killed and a new process is given its pid, the next
   sem_post hands the permit to the new process, which never asked for it: no process changes, and the permit is gone.
   */
  lemma ReuseLosesPermit(s: S.Sched, rsp: int, junk: S.Junk, ptr: Ptr, priority: nat, stack: int)
    requires Inv(s) && s.current != S.NULL && Member(s, s.current) && s.currentPid != S.IDLE_PID
    requires S.PipedFd(S.At(s.heap, s.current)) == -1
    requires ptr != S.NULL && ptr !in s.heap
    requires var s2 := S.KillProcess(SemWait(s, Sem(0, []), rsp, Granted).0, s.currentPid, junk, junk).0;
             S.FreePid(s2, 0) == s.currentPid && ptr !in s2.heap
    ensures var (s1, sem1) := SemWait(s, Sem(0, []), rsp, Granted);
            var s2 := S.KillProcess(s1, s.currentPid, junk, junk).0;
            var (s3, pid) := S.Create(s2, priority, S.STDIN, S.STDOUT, 1, ptr, stack);
            pid == s.currentPid && sem1 == Sem(0, [pid]) && SemPost(s3, sem1) == (s3, Sem(0, []))
  {
    WaitedThenKilled(s, rsp, junk);
    hide InvBut, S.KillProcess, S.Create, SemWait, Pids, S.SetReady, S.FreePid;
    var s2 := S.KillProcess(SemWait(s, Sem(0, []), rsp, Granted).0, s.currentPid, junk, junk).0;
    Created(s2, s.currentPid, priority, ptr, stack);
    PurgeAllLive([s.currentPid], Pids(S.Create(s2, priority, S.STDIN, S.STDOUT, 1, ptr, stack).0));
  }

  lemma WaitedThenKilled(s: S.Sched, rsp: int, junk: S.Junk)
    requires Inv(s) && s.current != S.NULL && Member(s, s.current) && s.currentPid != S.IDLE_PID
    requires S.PipedFd(S.At(s.heap, s.current)) == -1
    ensures var (s1, sem1) := SemWait(s, Sem(0, []), rsp, Granted);
            var s2 := S.KillProcess(s1, s.currentPid, junk, junk).0;
            sem1 == Sem(0, [s.currentPid]) && Inv(s2) && s2.qty < S.MAX_PROCESS
  {
    WaitBlocks(s, Sem(0, []), rsp, Granted);
    hide InvBut, S.KillProcess, SemWait;
    KillMakesRoom(SemWait(s, Sem(0, []), rsp, Granted).0, s.current, junk);
    assert [] + [s.currentPid] == [s.currentPid];
  }

  // ---------------------------------------------------------------- the smallest such scenario

  /** Idle at address 1 and process 1 at address 2. */
  function IdleRecord(status: S.Status): S.Process {
    S.Process(0, 1, status, -1, -1, 1, 100, [])
  }

  function Waiter(status: S.Status, stack: int): S.Process {
    S.Process(1, 1, status, S.STDIN, S.STDOUT, 1, stack, [])
  }

  function BeforeWait(): S.Sched {
    S.Sched(map[1 := IdleRecord(S.Ready), 2 := Waiter(S.Running, 200)], [1, 2], [1], [], 2, 1, 2, 1)
  }

  function AfterWait(): S.Sched {
    S.Sched(map[1 := IdleRecord(S.Running), 2 := Waiter(S.Blocked, 300)], [1, 2], [], [2], 1, 0, 2, 1)
  }

  function AfterKill(): S.Sched {
    S.Sched(map[1 := IdleRecord(S.Running)], [1], [], [], 1, 0, 1, 1)
  }

  lemma WaitHere()
    ensures SemWait(BeforeWait(), Sem(0, []), 300, Granted) == (AfterWait(), Sem(0, [1]))
  {
    var s := BeforeWait();
    FindSecond(s);
    var m := S.MarkBlocked(s, 2);
    assert m == S.Sched(map[1 := IdleRecord(S.Ready), 2 := Waiter(S.Blocked, 200)], [1, 2], [1], [2], 2, 1, 2, 1);
    var r := S.Sched(map[1 := IdleRecord(S.Ready), 2 := Waiter(S.Blocked, 300)], [1, 2], [1], [2], 2, 1, 2, -1);
    assert S.Retire(m.(quantums := -1), 300) == r;
    assert S.Tick(m.(quantums := 0), 300) == S.Switch(r, 300);
    assert r.ready[1..] == [];
    assert S.Switch(r, 300).0 == AfterWait();
    assert S.Block(s, 1, 300) == (AfterWait(), 0);
    assert s.currentPid == 1 && [] + [1] == [1];
    assert Wait(Sem(0, []), 1, Granted) == (Sem(0, [1]), Joined);
  }

  lemma FindSecond(s: S.Sched)
    requires s.procs == [1, 2] && 1 in s.heap && 2 in s.heap && s.heap[1].pid == 0 && s.heap[2].pid == 1
    ensures S.FindProcess(s, 1) == 2
  {
    assert s.procs[1..] == [2];
    assert S.Find(s.heap, [2], 1) == 2;
  }

  lemma KillHere(junk: S.Junk)
    ensures S.KillProcess(AfterWait(), 1, junk, junk).0 == AfterKill() && S.FreePid(AfterKill(), 0) == 1
  {
    FindSecond(AfterWait());
    var s := AfterWait();
    assert S.Dequeue(s, 2).blocked == [];
    assert S.L.RemoveFirst([1, 2], 2) == [1];
    assert S.Unlist(S.Dequeue(s, 2), 2) == AfterKill();
    assert S.FindProcess(AfterKill(), 0) == 1;
    assert S.FindProcess(AfterKill(), 1) == S.NULL by { assert AfterKill().procs[1..] == []; }
    assert S.FreePid(AfterKill(), 1) == 1;
  }

  /** Idle alone after boot; then with process 1 created; then with idle dispatched. */
  function JustBooted(): S.Sched {
    S.Sched(map[1 := IdleRecord(S.Ready)], [1], [1], [], S.NULL, -1, 1, 1)
  }

  function BothReady(): S.Sched {
    S.Sched(map[1 := IdleRecord(S.Ready), 2 := Waiter(S.Ready, 200)], [1, 2], [1, 2], [], S.NULL, -1, 2, 1)
  }

  function IdleRuns(): S.Sched {
    S.Sched(map[1 := IdleRecord(S.Running), 2 := Waiter(S.Ready, 200)], [1, 2], [2], [], 1, 0, 2, 1)
  }

  function CreateOther(): S.Action {
    S.CreateAct(1, S.STDIN, S.STDOUT, 1, 2, 200)
  }

  /** From boot: another process is created, the first tick dispatches idle and the second one the new process. */
  function FirstSteps(): seq<S.Action> {
    [CreateOther(), S.TickAct(0), S.TickAct(100)]
  }

  lemma BootTo(s: S.Sched, a: S.Action, next: S.Sched, run: seq<S.Action>, last: S.Sched)
    requires S.Allowed(s, a) && S.Next(s, a) == next && S.AllowedRun(next, run) && S.Final(next, run) == last
    ensures S.AllowedRun(s, [a] + run) && S.Final(s, [a] + run) == last
  {
    assert ([a] + run)[1..] == run;
  }

  lemma ReachedFromBoot()
    ensures S.AllowedRun(S.Boot(1, 100), FirstSteps()) && S.Final(S.Boot(1, 100), FirstSteps()) == BeforeWait()
  {
    BootHere();
    CreateHere();
    TicksHere();
    hide S.Next, S.Boot;
    BootTo(IdleRuns(), S.TickAct(100), BeforeWait(), [], BeforeWait());
    BootTo(BothReady(), S.TickAct(0), IdleRuns(), [S.TickAct(100)], BeforeWait());
    BootTo(JustBooted(), CreateOther(), BothReady(), [S.TickAct(0), S.TickAct(100)], BeforeWait());
  }

  lemma BootHere()
    ensures S.Boot(1, 100) == JustBooted()
  {
    assert S.FindProcess(S.Empty, 0) == S.NULL;
    assert S.FreePid(S.Empty, 0) == 0;
    assert [] + [1] == [1];
  }

  /** Process 1 is created after boot, and once more when the first one was killed while idle ran. */
  lemma CreateHere()
    ensures S.Allowed(JustBooted(), CreateOther()) && S.Next(JustBooted(), CreateOther()) == BothReady()
    ensures S.Allowed(AfterKill(), CreateOther()) && S.Next(AfterKill(), CreateOther()) == IdleRuns()
  {
    AloneCreates(JustBooted());
    AloneCreates(AfterKill());
  }

  lemma AloneCreates(s: S.Sched)
    requires s.procs == [1] && 1 in s.heap && s.heap[1].pid == 0 && s.qty == 1
    ensures S.Next(s, CreateOther())
            == s.(heap := s.heap[2 := Waiter(S.Ready, 200)], procs := [1, 2], ready := s.ready + [2], qty := 2)
  {
    assert S.FindProcess(s, 0) == 1;
    assert s.procs[1..] == [];
    assert S.Find(s.heap, s.procs[1..], 1) == S.NULL;
    assert S.Find(s.heap, s.procs, 1) == S.NULL;
    assert S.FreePid(s, 1) == 1 && S.FreePid(s, 0) == 1;
    assert [1] + [2] == [1, 2];
  }

  lemma TicksHere()
    ensures S.Next(BothReady(), S.TickAct(0)) == IdleRuns() && S.Next(IdleRuns(), S.TickAct(100)) == BeforeWait()
  {
    assert [1, 2][1..] == [2];
    var s := IdleRuns();
    var r := S.Sched(map[1 := IdleRecord(S.Ready), 2 := Waiter(S.Ready, 200)], [1, 2], [2, 1], [], 1, 0, 2, 0);
    assert [2] + [1] == [2, 1] && [2, 1][1..] == [1];
    assert S.Retire(s.(quantums := 0), 100) == r;
    assert S.Switch(r, 100).0 == BeforeWait();
  }

  lemma InvHere()
    ensures Inv(BeforeWait())
  {
    ReachedFromBoot();
    BootInv(1, 100);
    EveryRun(S.Boot(1, 100), FirstSteps());
  }

  /** The scenario of ReuseLosesPermit happens: its conditions hold of a system with idle and one more process. */
  lemma ReuseHappens(junk: S.Junk)
    ensures var s := BeforeWait();
            && Inv(s) && s.current != S.NULL && Member(s, s.current) && s.currentPid != S.IDLE_PID
            && S.PipedFd(S.At(s.heap, s.current)) == -1 && 3 !in s.heap
            && var s2 := S.KillProcess(SemWait(s, Sem(0, []), 300, Granted).0, s.currentPid, junk, junk).0;
               S.FreePid(s2, 0) == s.currentPid && 3 !in s2.heap
  {
    InvHere();
    WaitHere();
    KillHere(junk);
  }

  lemma Created(s: S.Sched, pid: int, priority: nat, ptr: Ptr, stack: int)
    requires Inv(s) && s.qty < S.MAX_PROCESS && ptr != S.NULL && ptr !in s.heap && S.FreePid(s, 0) == pid
    ensures var (t, r) := S.Create(s, priority, S.STDIN, S.STDOUT, 1, ptr, stack);
            r == pid && pid in Pids(t) && S.SetReady(t, pid) == (t, 0)
  {
    PidIsFree(s);
    CreateKeeps(s, priority, S.STDIN, S.STDOUT, 1, ptr, stack);
    var t := S.Create(s, priority, S.STDIN, S.STDOUT, 1, ptr, stack).0;
    assert Member(t, ptr);
    FindsThis(t, ptr);
    assert ptr in t.procs && S.At(t.heap, ptr).pid == pid;
  }
}
