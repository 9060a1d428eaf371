/**
 readPipe and writePipe as a protocol: any number of calls, on one open pipe, interleaved at every
 semaphore operation. A process makes one call after the other. Any sem_wait and sem_post may be refused memory; the
 results are ignored, as readPipe and writePipe do.
 */
module PipeProtocol {
  import opened SemaphoreSpec
  import opened PipeRing

  /** Where a call stands inside the loop of readPipe or writePipe. */
  datatype Pc =
    | AwaitUnit                    // about to wait for an item (reader) or a slot (writer), or waiting
    | AwaitMutex                   // holds it; about to wait for the mutex, or waiting
    | Section                      // holds the mutex
    | Release(outcome: Outcome)    // about to post the mutex
    | Signal(last: bool)           // about to post a slot (reader) or an item (writer)
    | Finished

  datatype Call = Reader(size: nat, got: seq<Byte>) | Writer(data: seq<Byte>, stored: nat)

  /** i is the loop counter of the call; wrote and read are what earlier calls of the process moved. */
  datatype Proc = Proc(call: Call, i: nat, pc: Pc, wrote: seq<Byte>, read: seq<Byte>)

  type Log = seq<(Pid, Byte)>

  /**
   written and delivered record every byte that entered and left the ring, and whose it was. `blocked` are the processes
   in the scheduler's list of blocked processes, and `lost` those that were taken off it and got into no other list.
   */
  datatype State = State(ring: Ring, writers: nat, semReaders: Sem, semWriters: Sem, mutex: Sem,
                         procs: map<Pid, Proc>, blocked: set<Pid>, lost: set<Pid>, written: Log, delivered: Log)

  function Total(c: Call): nat {
    match c
    case Reader(size, _) => size
    case Writer(data, _) => |data|
  }

  /** All that a process has written so far, over all of its calls. */
  function Wrote(pr: Proc): seq<Byte>
    requires pr.call.Writer? ==> pr.call.stored <= |pr.call.data|
  {
    pr.wrote + if pr.call.Writer? then pr.call.data[..pr.call.stored] else []
  }

  /** All that a process has read so far, over all of its calls. */
  function Got(pr: Proc): seq<Byte> {
    pr.read + if pr.call.Reader? then pr.call.got else []
  }

  predicate InQueue(st: State, p: Pid) {
    p in st.semReaders.queue || p in st.semWriters.queue || p in st.mutex.queue
  }

  predicate Blocked(st: State, p: Pid) {
    p in st.blocked || p in st.lost
  }

  predicate Enabled(st: State, p: Pid) {
    p in st.procs && !st.procs[p].pc.Finished? && !Blocked(st, p)
  }

  // ---------------------------------------------------------------- steps

  function At(procs: map<Pid, Proc>, p: Pid, pc: Pc): map<Pid, Proc>
    requires p in procs
  {
    procs[p := procs[p].(pc := pc)]
  }

  function Advance(pc: Pc): Pc {
    if pc.AwaitUnit? then AwaitMutex else if pc.AwaitMutex? then Section else pc
  }

  /** A process that was woken returns from its sem_wait. */
  function Resume(procs: map<Pid, Proc>, w: Pid): map<Pid, Proc> {
    if w in procs then At(procs, w, Advance(procs[w].pc)) else procs
  }

  /**
   sem_post calls setReadyProcess for the waiter to whom it hands the permit. It wakes only a process that is blocked,
   whichever semaphore that waits for; and if the ready list has no node for it, the process is in no list at all.
   */
  function Wake(st: State, woken: Option<Pid>, g: Grant): State {
    if woken.None? || woken.value !in st.blocked then st
    else
      var w := woken.value;
      if g == NoWake then st.(blocked := st.blocked - {w}, lost := st.lost + {w})
      else st.(blocked := st.blocked - {w}, procs := Resume(st.procs, w))
  }

  /** Who is blocked after a sem_wait of p. */
  function Block(st: State, p: Pid, r: Waited): set<Pid> {
    if GoesOn(r) then st.blocked else st.blocked + {p}
  }

  function UnitSem(st: State, p: Pid): Sem
    requires p in st.procs
  {
    if st.procs[p].call.Reader? then st.semReaders else st.semWriters
  }

  function StepUnit(st: State, p: Pid, g: Grant): State
    requires p in st.procs
  {
    var (s, r) := Wait(UnitSem(st, p), p, g);
    var st' := (if GoesOn(r) then st.(procs := At(st.procs, p, AwaitMutex)) else st).(blocked := Block(st, p, r));
    if st.procs[p].call.Reader? then st'.(semReaders := s) else st'.(semWriters := s)
  }

  function StepMutex(st: State, p: Pid, g: Grant): State
    requires p in st.procs
  {
    var (s, r) := Wait(st.mutex, p, g);
    (if GoesOn(r) then st.(procs := At(st.procs, p, Section)) else st).(mutex := s, blocked := Block(st, p, r))
  }

  function StepSection(st: State, p: Pid): State
    requires p in st.procs && PipeRing.Valid(st.ring)
    requires st.procs[p].call.Writer? ==> st.procs[p].i < |st.procs[p].call.data|
  {
    var pr := st.procs[p];
    match pr.call
    case Reader(size, got) =>
      if st.ring.count == 0 && st.writers == 0 then st.(procs := At(st.procs, p, Release(EndOfFile)))
      else if st.ring.count > 0 then
        var b := Front(st.ring);
        var outcome := if st.writers == 0 && st.ring.count == 1 then LastByte else Moved;
        st.(ring := Drop(st.ring),
            procs := st.procs[p := pr.(call := Reader(size, got + [b]), pc := Release(outcome))],
            delivered := st.delivered + [(p, b)])
      else st.(procs := At(st.procs, p, Release(Retry)))
    case Writer(data, stored) =>
      if st.ring.count < PIPE_BUFFER_SIZE then
        st.(ring := Put(st.ring, data[pr.i]),
            procs := st.procs[p := pr.(call := Writer(data, stored + 1), pc := Release(Moved))],
            written := st.written + [(p, data[pr.i])])
      else st.(procs := At(st.procs, p, Release(Moved)))
  }

  function AfterRelease(outcome: Outcome): Pc {
    match outcome
    case Moved => Signal(false)
    case LastByte => Signal(true)
    case Retry => AwaitUnit
    case EndOfFile => Finished
  }

  function StepRelease(st: State, p: Pid, g: Grant): State
    requires p in st.procs && st.procs[p].pc.Release?
  {
    var (s, woken) := Post(st.mutex, st.procs.Keys);
    Wake(st.(mutex := s, procs := At(st.procs, p, AfterRelease(st.procs[p].pc.outcome))), woken, g)
  }

  function NextTurn(pr: Proc): Proc {
    var i := pr.i + 1;
    pr.(i := i, pc := if pr.pc == Signal(true) || i == Total(pr.call) then Finished else AwaitUnit)
  }

  /** The semaphore that a call posts at the end of each turn. */
  function UnitPost(st: State, p: Pid): Sem
    requires p in st.procs
  {
    if st.procs[p].call.Reader? then st.semWriters else st.semReaders
  }

  function StepSignal(st: State, p: Pid, g: Grant): State
    requires p in st.procs
  {
    var (s, woken) := Post(UnitPost(st, p), st.procs.Keys);
    var st' := st.(procs := st.procs[p := NextTurn(st.procs[p])]);
    Wake(if st.procs[p].call.Reader? then st'.(semWriters := s) else st'.(semReaders := s), woken, g)
  }

  /** A call never looks beyond its buffer, whether or not it moved a byte in every turn. */
  predicate Steady(pr: Proc) {
    && (if pr.pc.Finished? then pr.i <= Total(pr.call) else pr.i < Total(pr.call))
    && (pr.call.Writer? ==> pr.call.stored <= pr.i + if Past(pr.pc) then 1 else 0)
    && (pr.call.Writer? && pr.pc.Release? ==> pr.pc.outcome == Moved)
  }

  /** What the steps themselves need, whatever memory is refused. */
  ghost predicate Workable(st: State) {
    && PipeRing.Valid(st.ring) && (forall p :: p in st.procs ==> Steady(st.procs[p]))
    && st.blocked !! st.lost && forall p :: Blocked(st, p) ==> InWait(st.procs, p)
  }

  /** In the middle of a sem_wait. */
  predicate InWait(procs: map<Pid, Proc>, p: Pid) {
    p in procs && (procs[p].pc.AwaitUnit? || procs[p].pc.AwaitMutex?)
  }

  /** Blocked where no sem_post will ever find it. */
  predicate Adrift(st: State, p: Pid) {
    p in st.lost || (p in st.blocked && !InQueue(st, p))
  }

  ghost function Marooned(st: State): set<Pid> {
    set p | p in st.blocked + st.lost && Adrift(st, p)
  }

  /** One atomic step of process p; g is what memory its semaphore operation is refused, if any. */
  ghost function PipeStep(st: State, p: Pid, g: Grant): State
    requires Workable(st) && Enabled(st, p)
  {
    match st.procs[p].pc
    case AwaitUnit => StepUnit(st, p, g)
    case AwaitMutex => StepMutex(st, p, g)
    case Section => StepSection(st, p)
    case Release(_) => StepRelease(st, p, g)
    case Signal(_) => StepSignal(st, p, g)
    case Finished => st
  }

  /** A sem_post that hands its permit to a process that is blocked. */
  predicate HandsOver(st: State, s: Sem) {
    var woken := Post(s, st.procs.Keys).1;
    woken.Some? && woken.value in st.blocked
  }

  /**
   A refusal that changes how many permits there are: a sem_wait that finds no permit goes on all the same, because it is
   refused its cell or because it cannot be blocked, or a sem_post cannot wake the process to which it hands the permit.
   */
  predicate Overlooks(st: State, p: Pid, g: Grant)
    requires p in st.procs
  {
    match st.procs[p].pc
    case AwaitUnit => (g == NoCell || g == NoBlock) && UnitSem(st, p).counter == 0
    case AwaitMutex => (g == NoCell || g == NoBlock) && st.mutex.counter == 0
    case Release(_) => g == NoWake && HandsOver(st, st.mutex)
    case Signal(_) => g == NoWake && HandsOver(st, UnitPost(st, p))
    case _ => false
  }

  predicate CanStart(st: State, p: Pid, c: Call) {
    && (p in st.procs ==> st.procs[p].pc.Finished?)
    && Total(c) > 0 && (c.Reader? ==> c.got == []) && (c.Writer? ==> c.stored == 0)
  }

  /** A call of readPipe or writePipe that passed the checks on its arguments, by a process that is in no other call. */
  function Start(st: State, p: Pid, c: Call): State
    requires CanStart(st, p, c) && (p in st.procs ==> Steady(st.procs[p]))
  {
    st.(procs := st.procs[p :=
      if p in st.procs then Proc(c, 0, AwaitUnit, Wrote(st.procs[p]), Got(st.procs[p])) else Proc(c, 0, AwaitUnit, [], [])])
  }

  // ---------------------------------------------------------------- the invariant

  predicate Past(pc: Pc) {
    pc.Release? || pc.Signal?
  }

  /** How far a call has got, and that it only ever leaves its section having moved a byte. */
  predicate ProcOk(pr: Proc) {
    && (if pr.pc.Finished? then pr.i == Total(pr.call) else pr.i < Total(pr.call))
    && (pr.pc.Release? ==> pr.pc.outcome == Moved)
    && (pr.pc.Signal? ==> !pr.pc.last)
    && var n := pr.i + (if Past(pr.pc) then 1 else 0);
       match pr.call
       case Reader(_, got) => |got| == n
       case Writer(_, stored) => stored == n
  }

  ghost predicate AllOk(procs: map<Pid, Proc>) {
    forall p :: p in procs ==> ProcOk(procs[p])
  }

  ghost predicate Typed(st: State) {
    && PipeRing.Valid(st.ring) && 0 < st.writers
    && SemOk(st.semReaders) && SemOk(st.semWriters) && SemOk(st.mutex)
    && AllOk(st.procs)
  }

  predicate WaitsHere(procs: map<Pid, Proc>, p: Pid, pc: Pc, reader: bool, writer: bool) {
    && p in procs && procs[p].pc == pc
    && (reader || procs[p].call.Writer?) && (writer || procs[p].call.Reader?)
  }

  ghost predicate QueueOk(procs: map<Pid, Proc>, q: seq<Pid>, pc: Pc, reader: bool, writer: bool) {
    && (forall i :: 0 <= i < |q| ==> WaitsHere(procs, q[i], pc, reader, writer))
    && forall i, j :: 0 <= i < j < |q| ==> q[i] != q[j]
  }

  ghost predicate Queued(st: State) {
    && QueueOk(st.procs, st.semReaders.queue, AwaitUnit, true, false)
    && QueueOk(st.procs, st.semWriters.queue, AwaitUnit, false, true)
    && QueueOk(st.procs, st.mutex.queue, AwaitMutex, true, true)
    && st.lost == {} && (forall p :: InQueue(st, p) ==> p in st.blocked)
    && forall p :: p in st.blocked ==> InWait(st.procs, p)
  }

  predicate HoldsUnit(pr: Proc) {
    pr.pc.AwaitMutex? || pr.pc.Section?
  }

  predicate HoldsSlot(pr: Proc) { pr.call.Writer? && HoldsUnit(pr) }

  predicate HoldsItem(pr: Proc) { pr.call.Reader? && HoldsUnit(pr) }

  predicate OwesItem(pr: Proc) { pr.call.Writer? && Past(pr.pc) }

  predicate OwesSlot(pr: Proc) {
    pr.call.Reader? && Past(pr.pc) && pr.pc != Release(Retry) && pr.pc != Release(EndOfFile)
  }

  predicate InSection(pr: Proc) { pr.pc.Section? || pr.pc.Release? }

  ghost function Those(procs: map<Pid, Proc>, f: Proc -> bool): set<Pid> {
    set p | p in procs && f(procs[p])
  }

  ghost function Num(procs: map<Pid, Proc>, f: Proc -> bool): nat {
    |Those(procs, f)|
  }

  /** Every slot and every item of the ring is accounted for, and at most one call is in its section. */
  ghost predicate Counted(st: State) {
    && st.semWriters.counter + Num(st.procs, HoldsSlot) + st.ring.count + Num(st.procs, OwesSlot) == PIPE_BUFFER_SIZE
    && st.semReaders.counter + Num(st.procs, HoldsItem) + Num(st.procs, OwesItem) == st.ring.count
    && st.mutex.counter + Num(st.procs, InSection) == 1
  }

  function Bytes(log: Log): (r: seq<Byte>)
    ensures |r| == |log|
  {
    seq(|log|, i requires 0 <= i < |log| => log[i].1)
  }

  /** The bytes of one participant, in order. */
  function Share(log: Log, p: Pid): seq<Byte> {
    if log == [] then []
    else Share(log[..|log| - 1], p) + if log[|log| - 1].0 == p then [log[|log| - 1].1] else []
  }

  /** p's own record agrees with the logs. */
  predicate ShareOk(st: State, p: Pid) {
    if p !in st.procs then Share(st.written, p) == [] && Share(st.delivered, p) == []
    else
      && (st.procs[p].call.Writer? ==> st.procs[p].call.stored <= |st.procs[p].call.data|)
      && Share(st.written, p) == Wrote(st.procs[p]) && Share(st.delivered, p) == Got(st.procs[p])
  }

  ghost predicate Logged(st: State) {
    && PipeRing.Valid(st.ring)
    && Bytes(st.written) == Bytes(st.delivered) + Held(st.ring)
    && forall p :: ShareOk(st, p)
  }

  ghost predicate Inv(st: State) {
    Typed(st) && Queued(st) && Counted(st) && Logged(st)
  }
}
