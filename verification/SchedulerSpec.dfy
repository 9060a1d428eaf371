/** The scheduler and its process table, on values: every operation as a function of the whole state. */
module SchedulerSpec {
  import L = DoublyLinkedList

  type Ptr = L.Ptr

  const NULL: Ptr := L.NULL
  const MAX_PROCESS: nat := 30
  const MIN_PRIORITY: nat := 1
  const MAX_PRIORITY: nat := 10
  const NO_PROCESS: int := -1
  const IDLE_PID: int := 0
  const SHELL_PID: int := 1
  const STDIN: int := 0
  const STDOUT: int := 1

  datatype Status = Ready | Running | Blocked | Terminated

  /** A ProcessContext. `waiting` holds addresses of processes, which may be freed before they are used. */
  datatype Process = Process(
    pid: int, priority: nat, status: Status, stdin: int, stdout: int, ground: int, stackPos: int, waiting: seq<Ptr>)

  datatype Sched = Sched(
    heap: map<Ptr, Process>, procs: seq<Ptr>, ready: seq<Ptr>, blocked: seq<Ptr>,
    current: Ptr, currentPid: int, qty: int, quantums: int)

  /** What the memory of the i-th entry of a waiting list holds where a pid would be, once the process there is freed. */
  type Junk = nat -> int

  /** The record at p; only records in the heap are ever read. */
  function At(heap: map<Ptr, Process>, p: Ptr): Process {
    if p in heap then heap[p] else Process(NO_PROCESS, MIN_PRIORITY, Terminated, STDIN, STDOUT, 1, 0, [])
  }

  function WithStatus(heap: map<Ptr, Process>, p: Ptr, status: Status): map<Ptr, Process> {
    heap[p := At(heap, p).(status := status)]
  }

  // ---------------------------------------------------------------- searches

  function Find(heap: map<Ptr, Process>, procs: seq<Ptr>, pid: int): Ptr {
    if procs == [] then NULL
    else if At(heap, procs[0]).pid == pid then procs[0]
    else Find(heap, procs[1..], pid)
  }

  function FindProcess(s: Sched, pid: int): Ptr {
    Find(s.heap, s.procs, pid)
  }

  /** The least pid from `from` on that no listed process has; MAX_PROCESS if there is none. */
  function FreePid(s: Sched, from: nat): (pid: nat)
    requires from <= MAX_PROCESS
    ensures from <= pid <= MAX_PROCESS
    ensures pid < MAX_PROCESS ==> FindProcess(s, pid) == NULL
    ensures forall q :: from <= q < pid ==> FindProcess(s, q) != NULL
    decreases MAX_PROCESS - from
  {
    if from == MAX_PROCESS || FindProcess(s, from) == NULL then from else FreePid(s, from + 1)
  }

  /** The descriptor a process was redirected to, if any. */
  function PipedFd(p: Process): int {
    if p.stdin != STDIN then p.stdin else if p.stdout != STDOUT then p.stdout else -1
  }

  function PipedTo(heap: map<Ptr, Process>, procs: seq<Ptr>, fd: int): Ptr {
    if procs == [] then NULL
    else if At(heap, procs[0]).stdin == fd || At(heap, procs[0]).stdout == fd then procs[0]
    else PipedTo(heap, procs[1..], fd)
  }

  predicate InForeground(p: Process) {
    p.ground == 0 && p.pid != SHELL_PID
  }

  function Foreground(heap: map<Ptr, Process>, procs: seq<Ptr>): Ptr {
    if procs == [] then NULL
    else if InForeground(At(heap, procs[0])) then procs[0]
    else Foreground(heap, procs[1..])
  }

  // ---------------------------------------------------------------- context switches

  function RunProcess(s: Sched, p: Ptr): (Sched, int) {
    (s.(heap := WithStatus(s.heap, p, Running), current := p, currentPid := At(s.heap, p).pid,
        quantums := At(s.heap, p).priority),
     At(s.heap, p).stackPos)
  }

  /** What becomes of the process that was running. */
  function Retire(s: Sched, rsp: int): Sched {
    if s.current == NULL then s
    else
      var c := At(s.heap, s.current);
      if c.status == Terminated then
        s.(heap := s.heap - {s.current}, current := NULL, currentPid := NO_PROCESS)
      else if c.status == Running then
        s.(heap := s.heap[s.current := c.(stackPos := rsp, status := Ready)], ready := s.ready + [s.current])
      else s.(heap := s.heap[s.current := c.(stackPos := rsp)])
  }

  /** The first ready process takes over; idle does if there is none. */
  function Switch(s: Sched, rsp: int): (Sched, int) {
    if s.ready == [] then
      var idle := FindProcess(s, IDLE_PID);
      if idle == NULL then (s, rsp) else RunProcess(s, idle)
    else RunProcess(s.(ready := s.ready[1..]), s.ready[0])
  }

  predicate Switches(s: Sched) {
    s.qty != 0 && s.quantums - 1 <= 0
  }

  /** schedule: one timer tick. The second result is the stack position to go on with. */
  function Tick(s: Sched, rsp: int): (Sched, int) {
    var t := s.(quantums := s.quantums - 1);
    if !Switches(s) then (t, rsp)
    else if t.currentPid == NO_PROCESS && t.ready == [] then (t.(current := NULL), rsp)
    else if t.currentPid == NO_PROCESS then RunProcess(t.(ready := t.ready[1..]), t.ready[0])
    else Switch(Retire(t, rsp), rsp)
  }

  /** schedule when addNode is refused the node for the process that it takes off the processor. */
  function TickRefused(s: Sched, rsp: int): (Sched, int) {
    if !Switches(s) || s.currentPid == NO_PROCESS then Tick(s, rsp)
    else Switch(Retire(s.(quantums := s.quantums - 1), rsp).(ready := s.ready), rsp)
  }

  function Yield(s: Sched, rsp: int): Sched {
    Tick(s.(quantums := 0), rsp).0
  }

  // ---------------------------------------------------------------- operations

  /** createProcess; ptr is the new record, or NULL if some allocation failed. */
  function Create(s: Sched, priority: nat, stdin: int, stdout: int, ground: int, ptr: Ptr, stack: int): (Sched, int) {
    if s.qty >= MAX_PROCESS || ptr == NULL then (s, -1)
    else
      var pid: int := FreePid(s, 0);
      if pid == MAX_PROCESS then (s, -1)
      else
        var p := Process(pid, priority, Ready, stdin, stdout, ground, stack, []);
        (s.(heap := s.heap[ptr := p], procs := s.procs + [ptr], ready := s.ready + [ptr], qty := s.qty + 1), pid)
  }

  /** t, but for the lists in which createProcess could not put the new process: it does not look at addNode's result. */
  function Relist(s: Sched, t: Sched, inList: bool, inReady: bool): Sched {
    t.(procs := if inList then t.procs else s.procs, ready := if inReady then t.ready else s.ready)
  }

  function SetReady(s: Sched, pid: int): (Sched, int) {
    var p := FindProcess(s, pid);
    if p == NULL then (s, -1)
    else if At(s.heap, p).status != Blocked then (s, 0)
    else if p !in s.blocked then (s, -1)
    else (s.(heap := WithStatus(s.heap, p, Ready), blocked := L.RemoveFirst(s.blocked, p), ready := s.ready + [p]), 0)
  }

  /** setReadyProcess when addNode is refused the list node: the process is in no list any more. */
  function SetReadyRefused(s: Sched, pid: int): (Sched, int) {
    var p := FindProcess(s, pid);
    if p == NULL then (s, -1)
    else if At(s.heap, p).status != Blocked then (s, 0)
    else (s.(blocked := L.RemoveFirst(s.blocked, p)), -1)
  }

  /** The part of blockProcess before the yield. */
  function MarkBlocked(s: Sched, p: Ptr): Sched {
    match At(s.heap, p).status
    case Ready => s.(heap := WithStatus(s.heap, p, Blocked), blocked := s.blocked + [p], ready := L.RemoveFirst(s.ready, p))
    case Running => s.(heap := WithStatus(s.heap, p, Blocked), blocked := s.blocked + [p])
    case _ => s
  }

  function Block(s: Sched, pid: int, rsp: int): (Sched, int) {
    var p := FindProcess(s, pid);
    if p == NULL || (At(s.heap, p).status == Ready && p !in s.ready) then (s, -1)
    else
      var t := MarkBlocked(s, p);
      (if t.currentPid == pid then Yield(t, rsp) else t, 0)
  }

  /** blockProcess when addNode is refused the list node. A process that is blocked already needs none. */
  function BlockRefused(s: Sched, pid: int, rsp: int): (Sched, int) {
    var p := FindProcess(s, pid);
    if p == NULL then (s, -1)
    else match At(s.heap, p).status
      case Ready => (s.(ready := L.RemoveFirst(s.ready, p)), -1)
      case Running => (s, -1)
      case _ => Block(s, pid, rsp)
  }

  /** The pid that the kernel reads through entry i of a waiting list. */
  function PidThrough(s: Sched, ws: seq<Ptr>, i: nat, junk: Junk): int
    requires i < |ws|
  {
    if ws[i] in s.heap then s.heap[ws[i]].pid else junk(i)
  }

  /** Makes ready whomever entries i.. of a waiting list name. */
  function WakeFrom(s: Sched, ws: seq<Ptr>, i: nat, junk: Junk): Sched
    requires i <= |ws|
    decreases |ws| - i
  {
    if i == |ws| then s
    else if ws[i] == NULL then WakeFrom(s, ws, i + 1, junk)
    else WakeFrom(SetReady(s, PidThrough(s, ws, i, junk)).0, ws, i + 1, junk)
  }

  function Dequeue(s: Sched, p: Ptr): Sched {
    match At(s.heap, p).status
    case Ready => s.(ready := L.RemoveFirst(s.ready, p))
    case Blocked => s.(blocked := L.RemoveFirst(s.blocked, p))
    case _ => s
  }

  function Unlist(s: Sched, p: Ptr): Sched {
    s.(procs := L.RemoveFirst(s.procs, p), qty := s.qty - 1,
       heap := if s.current == p then WithStatus(s.heap, p, Terminated) else s.heap - {p})
  }

  function Kill(s: Sched, p: Ptr, junk: Junk): (Sched, int) {
    var c := At(s.heap, p);
    if (c.status == Ready && p !in s.ready) || (c.status == Blocked && p !in s.blocked) then (s, -1)
    else
      var t := WakeFrom(Dequeue(s, p), c.waiting, 0, junk);
      if p !in t.procs then (t, -1) else (Unlist(t, p), 0)
  }

  function KillProcess(s: Sched, pid: int, junk: Junk, junk2: Junk): (Sched, int) {
    var p := FindProcess(s, pid);
    if p == NULL then (s, -1)
    else
      var fd := PipedFd(At(s.heap, p));
      var (t, r) := Kill(s, p, junk);
      if r == -1 then (t, -1)
      else if fd == -1 then (t, 0)
      else
        var q := PipedTo(t.heap, t.procs, fd);
        if q == NULL then (t, 0) else Kill(t, q, junk2)
  }

  function KillForeground(s: Sched, junk: Junk, junk2: Junk): (Sched, int) {
    if s.current == NULL then (s, -1)
    else if InForeground(At(s.heap, s.current)) then KillProcess(s, At(s.heap, s.current).pid, junk, junk2)
    else
      var p := Foreground(s.heap, s.procs);
      if p == NULL then (s, 0) else Kill(s, p, junk)
  }

  /** waitProcess: the running process waits for pid to end. Nobody looks whether the list node was granted. */
  function WaitFor(s: Sched, pid: int, rsp: int, node: bool): (Sched, int) {
    var p := FindProcess(s, pid);
    if p == NULL || s.currentPid == pid then (s, -1)
    else
      (Block(Enlist(s, p, node), s.currentPid, rsp).0, 0)
  }

  /** waitProcess when blockProcess is refused its list node: the caller goes on although pid has not ended. */
  function WaitForPassed(s: Sched, pid: int, rsp: int, node: bool): (Sched, int) {
    var p := FindProcess(s, pid);
    if p == NULL || s.currentPid == pid then (s, -1)
    else (BlockRefused(Enlist(s, p, node), s.currentPid, rsp).0, 0)
  }

  /** Adds the running process to the waiting list at p. */
  function Enlist(s: Sched, p: Ptr, node: bool): Sched {
    if !node then s
    else
      var c := At(s.heap, p);
      s.(heap := s.heap[p := c.(waiting := c.waiting + [FindProcess(s, s.currentPid)])])
  }

  function ChangePriority(s: Sched, pid: int, priority: nat): (Sched, int) {
    var p := FindProcess(s, pid);
    if priority > MAX_PRIORITY || priority < MIN_PRIORITY || p == NULL then (s, -1)
    else (s.(heap := s.heap[p := At(s.heap, p).(priority := priority)]), priority as int)
  }

  function ChangeFds(s: Sched, pid: int, stdin: int, stdout: int): (Sched, int) {
    var p := FindProcess(s, pid);
    if p == NULL then (s, -1)
    else (s.(heap := s.heap[p := At(s.heap, p).(stdin := stdin, stdout := stdout)]), 0)
  }

  // ---------------------------------------------------------------- runs

  datatype Action =
    | TickAct(rsp: int)
    | YieldAct(rsp: int)
    | CreateAct(priority: nat, stdin: int, stdout: int, ground: int, ptr: Ptr, stack: int)
    | ReadyAct(pid: int)
    | BlockAct(pid: int, rsp: int)
    | KillAct(pid: int, junk: Junk, junk2: Junk)
    | ExitAct(junk: Junk, junk2: Junk)
    | InterruptAct(junk: Junk, junk2: Junk)
    | WaitAct(pid: int, rsp: int, node: bool)
    | PriorityAct(pid: int, priority: nat)
    | FdsAct(pid: int, stdin: int, stdout: int)

  /** New records come from free memory, and nobody blocks, kills or redirects idle, which itself only halts. */
  predicate Allowed(s: Sched, a: Action) {
    match a
    case TickAct(_) => true
    case YieldAct(_) => true
    case CreateAct(_, _, _, _, ptr, _) => ptr !in s.heap
    case ReadyAct(_) => true
    case BlockAct(pid, _) => pid != IDLE_PID
    case KillAct(pid, _, _) => pid != IDLE_PID
    case ExitAct(_, _) => s.current != NULL && s.currentPid != IDLE_PID
    case InterruptAct(_, _) => true
    case WaitAct(_, _, _) => s.currentPid != IDLE_PID
    case PriorityAct(_, _) => true
    case FdsAct(pid, _, _) => pid != IDLE_PID
  }

  function Next(s: Sched, a: Action): Sched {
    match a
    case TickAct(rsp) => Tick(s, rsp).0
    case YieldAct(rsp) => Yield(s, rsp)
    case CreateAct(priority, stdin, stdout, ground, ptr, stack) => Create(s, priority, stdin, stdout, ground, ptr, stack).0
    case ReadyAct(pid) => SetReady(s, pid).0
    case BlockAct(pid, rsp) => Block(s, pid, rsp).0
    case KillAct(pid, junk, junk2) => KillProcess(s, pid, junk, junk2).0
    case ExitAct(junk, junk2) => KillProcess(s, At(s.heap, s.current).pid, junk, junk2).0
    case InterruptAct(junk, junk2) => KillForeground(s, junk, junk2).0
    case WaitAct(pid, rsp, node) => WaitFor(s, pid, rsp, node).0
    case PriorityAct(pid, priority) => ChangePriority(s, pid, priority).0
    case FdsAct(pid, stdin, stdout) => ChangeFds(s, pid, stdin, stdout).0
  }

  /** Every action of the run is allowed when it happens. */
  predicate AllowedRun(s: Sched, run: seq<Action>)
    decreases |run|
  {
    run == [] || (Allowed(s, run[0]) && AllowedRun(Next(s, run[0]), run[1..]))
  }

  function Final(s: Sched, run: seq<Action>): Sched
    decreases |run|
  {
    if run == [] then s else Final(Next(s, run[0]), run[1..])
  }

  /** The scheduler before any process exists. */
  const Empty: Sched := Sched(map[], [], [], [], NULL, NO_PROCESS, 0, 1)

  /** createScheduler, when memory for idle at ptr was granted. */
  function Boot(ptr: Ptr, stack: int): Sched {
    Create(Empty, MIN_PRIORITY, -1, -1, 1, ptr, stack).0
  }
}
