/** The pipe protocol keeps its invariant at every step, and what follows for whole runs. */
module PipeProofs {
  import opened SemaphoreSpec
  import opened PipeRing
  import opened PipeProtocol

  // ---------------------------------------------------------------- counting processes

  datatype Counts = Counts(slots: int, items: int, owedItems: int, owedSlots: int, inside: int)

  ghost function Tallied(procs: map<Pid, Proc>): Counts {
    Counts(Num(procs, HoldsSlot), Num(procs, HoldsItem), Num(procs, OwesItem), Num(procs, OwesSlot), Num(procs, InSection))
  }

  function Bit(b: bool): int {
    if b then 1 else 0
  }

  function One(pr: Proc): Counts {
    Counts(Bit(HoldsSlot(pr)), Bit(HoldsItem(pr)), Bit(OwesItem(pr)), Bit(OwesSlot(pr)), Bit(InSection(pr)))
  }

  function Shift(c: Counts, minus: Counts, plus: Counts): Counts {
    Counts(c.slots - minus.slots + plus.slots, c.items - minus.items + plus.items,
           c.owedItems - minus.owedItems + plus.owedItems, c.owedSlots - minus.owedSlots + plus.owedSlots,
           c.inside - minus.inside + plus.inside)
  }

  lemma NumUpdate(procs: map<Pid, Proc>, p: Pid, n: Proc, f: Proc -> bool)
    requires p in procs
    ensures Num(procs[p := n], f) == Num(procs, f) - Bit(f(procs[p])) + Bit(f(n))
  {
    SizeUpdate(Those(procs, f), Those(procs[p := n], f), p);
  }

  lemma SizeUpdate(a: set<Pid>, b: set<Pid>, p: Pid)
    requires a - {p} == b - {p}
    ensures |b| == |a| - Bit(p in a) + Bit(p in b)
  {
    assert |a| == |a - {p}| + Bit(p in a);
    assert |b| == |b - {p}| + Bit(p in b);
  }

  lemma NumInsert(procs: map<Pid, Proc>, p: Pid, n: Proc, f: Proc -> bool)
    requires p !in procs && !f(n)
    ensures Num(procs[p := n], f) == Num(procs, f)
  {
    assert Those(procs[p := n], f) == Those(procs, f);
  }

  lemma TalliedNat(procs: map<Pid, Proc>)
    ensures var c := Tallied(procs);
            0 <= c.slots && 0 <= c.items && 0 <= c.owedItems && 0 <= c.owedSlots && 0 <= c.inside
  {
  }

  lemma TalliedUpdate(procs: map<Pid, Proc>, p: Pid, n: Proc)
    requires p in procs
    ensures Tallied(procs[p := n]) == Shift(Tallied(procs), One(procs[p]), One(n))
  {
    NumUpdate(procs, p, n, HoldsSlot);
    NumUpdate(procs, p, n, HoldsItem);
    NumUpdate(procs, p, n, OwesItem);
    NumUpdate(procs, p, n, OwesSlot);
    NumUpdate(procs, p, n, InSection);
  }

  lemma NumPositive(procs: map<Pid, Proc>, p: Pid, f: Proc -> bool)
    requires p in procs && f(procs[p])
    ensures Num(procs, f) > 0
  {
    assert p in Those(procs, f);
  }

  /** The balance of the protocol, on the three counters and the number of calls in each situation. */
  predicate Balanced(slotsFree: int, itemsFree: int, mutexFree: int, count: int, c: Counts) {
    && slotsFree + c.slots + count + c.owedSlots == PIPE_BUFFER_SIZE
    && itemsFree + c.items + c.owedItems == count
    && mutexFree + c.inside == 1
  }

  lemma CountedIsBalanced(st: State)
    ensures Counted(st) <==>
              Balanced(st.semWriters.counter, st.semReaders.counter, st.mutex.counter, st.ring.count, Tallied(st.procs))
  {
  }

  // ---------------------------------------------------------------- queues

  lemma QueueUpdate(procs: map<Pid, Proc>, q: seq<Pid>, pc: Pc, r: bool, w: bool, p: Pid, n: Proc)
    requires QueueOk(procs, q, pc, r, w) && p !in q
    ensures QueueOk(procs[p := n], q, pc, r, w)
  {
    forall i | 0 <= i < |q| ensures WaitsHere(procs[p := n], q[i], pc, r, w) {
      assert WaitsHere(procs, q[i], pc, r, w);
    }
  }

  lemma QueuePush(procs: map<Pid, Proc>, q: seq<Pid>, pc: Pc, r: bool, w: bool, p: Pid)
    requires QueueOk(procs, q, pc, r, w) && p !in q && WaitsHere(procs, p, pc, r, w)
    ensures QueueOk(procs, q + [p], pc, r, w)
  {
  }

  lemma QueuePop(procs: map<Pid, Proc>, q: seq<Pid>, pc: Pc, r: bool, w: bool)
    requires QueueOk(procs, q, pc, r, w) && q != []
    ensures QueueOk(procs, q[1..], pc, r, w) && q[0] !in q[1..] && WaitsHere(procs, q[0], pc, r, w)
  {
  }

  /** The three semaphores of a pipe: semReaders, semWriters and the mutex. */
  datatype Which = Items | Slots | Lock

  function SemOf(st: State, k: Which): Sem {
    match k
    case Items => st.semReaders
    case Slots => st.semWriters
    case Lock => st.mutex
  }

  function WithSem(st: State, k: Which, s: Sem): State {
    match k
    case Items => st.(semReaders := s)
    case Slots => st.(semWriters := s)
    case Lock => st.(mutex := s)
  }

  /** Who may be in the queue of a semaphore. */
  ghost predicate LineOk(procs: map<Pid, Proc>, q: seq<Pid>, k: Which) {
    QueueOk(procs, q, if k.Lock? then AwaitMutex else AwaitUnit, !k.Slots?, !k.Items?)
  }

  /** The part of Queued about one semaphore, and what Queued says beyond that. */
  lemma QueuedIs(st: State)
    ensures Queued(st) <==>
              && (forall k :: LineOk(st.procs, SemOf(st, k).queue, k))
              && st.lost == {} && (forall k, p :: p in SemOf(st, k).queue ==> p in st.blocked)
              && forall p :: p in st.blocked ==> InWait(st.procs, p)
  {
    assert SemOf(st, Items) == st.semReaders && SemOf(st, Slots) == st.semWriters && SemOf(st, Lock) == st.mutex;
    assert (forall k :: LineOk(st.procs, SemOf(st, k).queue, k)) ==>
             LineOk(st.procs, SemOf(st, Items).queue, Items) && LineOk(st.procs, SemOf(st, Slots).queue, Slots)
             && LineOk(st.procs, SemOf(st, Lock).queue, Lock);
    hide QueueOk;
    if forall k, p :: p in SemOf(st, k).queue ==> p in st.blocked {
      forall p | InQueue(st, p) ensures p in st.blocked {
        assert p in SemOf(st, Items).queue || p in SemOf(st, Slots).queue || p in SemOf(st, Lock).queue;
      }
    }
  }

  /** Where somebody in the queue of one semaphore is not. */
  lemma InOneQueue(st: State, k: Which, k': Which, p: Pid)
    requires LineOk(st.procs, SemOf(st, k).queue, k) && LineOk(st.procs, SemOf(st, k').queue, k')
    requires p in SemOf(st, k).queue && p in SemOf(st, k').queue
    ensures k == k'
  {
  }

  /** Everybody in a queue is alive and blocked, so a post hands over to its head or counts. */
  lemma PostFacts(st: State, k: Which)
    requires Queued(st) && SemOf(st, k).counter + 1 < TWO_32
    ensures var s := SemOf(st, k);
            && Post(s, st.procs.Keys) == (if s.queue != [] then (Sem(s.counter, s.queue[1..]), Some(s.queue[0]))
                                          else (Sem(s.counter + 1, []), None))
            && (s.queue != [] ==> s.queue[0] in st.blocked && s.queue[0] in st.procs)
            && HandsOver(st, s) == (s.queue != [])
  {
    var q := SemOf(st, k).queue;
    forall i | 0 <= i < |q| ensures q[i] in st.procs.Keys && q[i] in st.blocked {
      assert InQueue(st, q[i]);
    }
    PurgeAllLive(q, st.procs.Keys);
  }

  /** Changing one process that is not blocked. */
  lemma UpdateQueued(st: State, p: Pid, n: Proc)
    requires Queued(st) && p !in st.blocked
    ensures Queued(st.(procs := st.procs[p := n]))
  {
    assert !InQueue(st, p);
    QueueUpdate(st.procs, st.semReaders.queue, AwaitUnit, true, false, p, n);
    QueueUpdate(st.procs, st.semWriters.queue, AwaitUnit, false, true, p, n);
    QueueUpdate(st.procs, st.mutex.queue, AwaitMutex, true, true, p, n);
    hide QueueOk;
    forall q | q in st.blocked ensures InWait(st.procs[p := n], q) {
      assert InWait(st.procs, q);
    }
  }

  /** Counters, ring and logs do not matter to the queues. */
  lemma QueuedFrame(st: State, st': State)
    requires Queued(st) && st'.procs == st.procs && st'.blocked == st.blocked && st'.lost == st.lost
    requires st'.semReaders.queue == st.semReaders.queue && st'.semWriters.queue == st.semWriters.queue
    requires st'.mutex.queue == st.mutex.queue
    ensures Queued(st')
  {
    hide QueueOk, InWait;
    forall p | InQueue(st', p) ensures p in st'.blocked {
      assert InQueue(st, p);
    }
  }

  /** The semaphore for which p waits, or would. */
  function MineOf(pr: Proc): Which {
    if pr.pc.AwaitMutex? then Lock else if pr.call.Reader? then Items else Slots
  }

  lemma JoinQueued(st: State, p: Pid, counter: nat)
    requires Queued(st) && InWait(st.procs, p) && p !in st.blocked
    ensures var k := MineOf(st.procs[p]);
            Queued(WithSem(st, k, Sem(counter, SemOf(st, k).queue + [p])).(blocked := st.blocked + {p}))
  {
    var k := MineOf(st.procs[p]);
    var st' := WithSem(st, k, Sem(counter, SemOf(st, k).queue + [p])).(blocked := st.blocked + {p});
    assert !InQueue(st, p);
    QueuePush(st.procs, SemOf(st, k).queue, st.procs[p].pc, !k.Slots?, !k.Items?, p);
    hide QueueOk, InWait;
    forall q | InQueue(st', q) ensures q in st'.blocked {
      assert InQueue(st, q) || q == p;
    }
  }

  /** The head of a queue leaves it and goes on. */
  lemma WokenQueued(st: State, k: Which, counter: nat)
    requires Queued(st) && SemOf(st, k).queue != []
    ensures var q := SemOf(st, k).queue;
            Queued(WithSem(st, k, Sem(counter, q[1..])).(blocked := st.blocked - {q[0]}, procs := Resume(st.procs, q[0])))
  {
    QueuedIs(st);
    var q := SemOf(st, k).queue;
    var w := q[0];
    var st' := WithSem(st, k, Sem(counter, q[1..])).(blocked := st.blocked - {w}, procs := Resume(st.procs, w));
    assert LineOk(st.procs, q, k);
    QueuePop(st.procs, q, if k.Lock? then AwaitMutex else AwaitUnit, !k.Slots?, !k.Items?);
    forall k' ensures LineOk(st'.procs, SemOf(st', k').queue, k') && w !in SemOf(st', k').queue {
      assert LineOk(st.procs, SemOf(st, k').queue, k');
      if w in SemOf(st, k').queue {
        InOneQueue(st, k, k', w);
      }
      var q' := SemOf(st', k').queue;
      var n := st.procs[w].(pc := Advance(st.procs[w].pc));
      QueueUpdate(st.procs, q', if k'.Lock? then AwaitMutex else AwaitUnit, !k'.Slots?, !k'.Items?, w, n);
    }
    hide QueueOk;
    forall k', p | p in SemOf(st', k').queue ensures p in st'.blocked {
      assert p in SemOf(st, k').queue;
    }
    QueuedIs(st');
  }

  /** Changing one process that is not blocked, to one that is in order. */
  lemma UpdateKeepsRest(st: State, p: Pid, n: Proc)
    requires Queued(st) && AllOk(st.procs) && p in st.procs && p !in st.blocked && ProcOk(n)
    ensures Queued(st.(procs := st.procs[p := n])) && AllOk(st.procs[p := n])
  {
    UpdateQueued(st, p, n);
  }

  // ---------------------------------------------------------------- logs

  lemma ShareAppend(log: Log, q: Pid, b: Byte, p: Pid)
    ensures Share(log + [(q, b)], p) == Share(log, p) + if q == p then [b] else []
  {
    assert (log + [(q, b)])[..|log|] == log;
  }

  lemma BytesAppend(log: Log, q: Pid, b: Byte)
    ensures Bytes(log + [(q, b)]) == Bytes(log) + [b]
  {
  }

  lemma LoggedFrame(st: State, st': State)
    requires Logged(st) && st'.ring == st.ring && st'.written == st.written && st'.delivered == st.delivered
    requires st.procs.Keys == st'.procs.Keys
    requires forall p :: p in st.procs ==>
               st'.procs[p].call == st.procs[p].call && st'.procs[p].wrote == st.procs[p].wrote && st'.procs[p].read == st.procs[p].read
    ensures Logged(st')
  {
    forall p ensures ShareOk(st', p) {
      assert ShareOk(st, p);
    }
  }

  // ---------------------------------------------------------------- waiting for an item or a slot

  lemma BlockedShares(st: State, st': State)
    requires Logged(st) && st'.ring == st.ring && st'.written == st.written && st'.delivered == st.delivered
    requires st'.procs == st.procs
    ensures Logged(st')
  {
    LoggedFrame(st, st');
  }

  /** A process that blocks itself outside of the queues. */
  lemma StrandKeeps(st: State, p: Pid)
    requires Inv(st) && Enabled(st, p) && InWait(st.procs, p)
    ensures Inv(st.(blocked := st.blocked + {p}))
  {
    var st' := st.(blocked := st.blocked + {p});
    BlockedShares(st, st');
    hide Logged, QueueOk, Num, AllOk, PipeRing.Valid;
    forall q | InQueue(st', q) ensures q in st'.blocked {
      assert InQueue(st, q);
    }
  }

  /** Joining a queue. */
  lemma JoinKeeps(st: State, st': State, p: Pid)
    requires Inv(st) && Enabled(st, p) && InWait(st.procs, p)
    requires var k := MineOf(st.procs[p]);
             && SemOf(st, k).counter == 0
             && st' == WithSem(st, k, Sem(0, SemOf(st, k).queue + [p])).(blocked := st.blocked + {p})
    ensures Inv(st')
  {
    JoinQueued(st, p, 0);
    BlockedShares(st, st');
    hide Logged, Queued, Num, AllOk, PipeRing.Valid;
  }

  /** Joining a queue and going on all the same: an entry of somebody who is not blocked. */
  lemma PassBreaks(st: State, st': State, p: Pid, k: Which)
    requires p in SemOf(st', k).queue && p !in st'.blocked
    ensures !Inv(st')
  {
    assert InQueue(st', p);
  }

  /** Going on with a permit keeps the invariant, and going on without one breaks the balance. */
  lemma UnitGoes(st: State, p: Pid, g: Grant)
    requires Inv(st) && Enabled(st, p) && st.procs[p].pc.AwaitUnit?
    requires UnitSem(st, p).counter > 0 || g == NoCell
    ensures Inv(StepUnit(st, p, g)) <==> !Overlooks(st, p, g)
  {
    hide QueueOk, Num, Tallied, PipeRing.Valid, Held;
    var st' := StepUnit(st, p, g);
    var n := st.procs[p].(pc := AwaitMutex);
    LoggedFrame(st, st');
    TalliedUpdate(st.procs, p, n);
    CountedIsBalanced(st);
    CountedIsBalanced(st');
    assert ProcOk(st.procs[p]);
    UpdateKeepsRest(st, p, n);
    QueuedFrame(st.(procs := st'.procs), st');
    hide Logged, Counted, AllOk, Queued;
  }

  lemma UnitKeeps(st: State, p: Pid, g: Grant)
    requires Inv(st) && Enabled(st, p) && st.procs[p].pc.AwaitUnit?
    ensures Inv(StepUnit(st, p, g)) <==> !Overlooks(st, p, g)
  {
    var k := MineOf(st.procs[p]);
    var st' := StepUnit(st, p, g);
    hide Inv;
    if UnitSem(st, p).counter > 0 || g == NoCell {
      UnitGoes(st, p, g);
    } else if g == NoBlock {
      PassBreaks(st, st', p, k);
    } else if g == NoNode {
      StrandKeeps(st, p);
      assert st' == st.(blocked := st.blocked + {p});
    } else {
      JoinKeeps(st, st', p);
    }
  }

  // ---------------------------------------------------------------- waiting for the mutex

  lemma MutexGoes(st: State, p: Pid, g: Grant)
    requires Inv(st) && Enabled(st, p) && st.procs[p].pc.AwaitMutex?
    requires st.mutex.counter > 0 || g == NoCell
    ensures Inv(StepMutex(st, p, g)) <==> !Overlooks(st, p, g)
  {
    hide QueueOk, Num, Tallied, PipeRing.Valid, Held;
    var st' := StepMutex(st, p, g);
    var n := st.procs[p].(pc := Section);
    LoggedFrame(st, st');
    TalliedUpdate(st.procs, p, n);
    CountedIsBalanced(st);
    CountedIsBalanced(st');
    assert ProcOk(st.procs[p]);
    UpdateKeepsRest(st, p, n);
    QueuedFrame(st.(procs := st'.procs), st');
    hide Logged, Counted, AllOk, Queued;
  }

  lemma MutexKeeps(st: State, p: Pid, g: Grant)
    requires Inv(st) && Enabled(st, p) && st.procs[p].pc.AwaitMutex?
    ensures Inv(StepMutex(st, p, g)) <==> !Overlooks(st, p, g)
  {
    var st' := StepMutex(st, p, g);
    hide Inv;
    if st.mutex.counter > 0 || g == NoCell {
      MutexGoes(st, p, g);
    } else if g == NoBlock {
      PassBreaks(st, st', p, Lock);
    } else if g == NoNode {
      StrandKeeps(st, p);
      assert st' == st.(blocked := st.blocked + {p});
    } else {
      JoinKeeps(st, st', p);
    }
  }

  // ---------------------------------------------------------------- the critical section

  /** Inside its section a reader finds a byte and a writer finds room. */
  lemma SectionFindsUnit(st: State, p: Pid)
    requires Typed(st) && Counted(st) && p in st.procs && st.procs[p].pc.Section?
    ensures st.procs[p].call.Reader? ==> st.ring.count > 0
    ensures st.procs[p].call.Writer? ==> st.ring.count < PIPE_BUFFER_SIZE
  {
    if st.procs[p].call.Reader? {
      NumPositive(st.procs, p, HoldsItem);
    } else {
      NumPositive(st.procs, p, HoldsSlot);
    }
  }

  lemma ReaderLogged(st: State, p: Pid)
    requires Inv(st) && Enabled(st, p) && st.procs[p].pc.Section? && st.procs[p].call.Reader? && st.ring.count > 0
    ensures Logged(StepSection(st, p))
  {
    var st' := StepSection(st, p);
    var b := Front(st.ring);
    DropPops(st.ring);
    BytesAppend(st.delivered, p, b);
    assert ShareOk(st, p);
    hide Held, Bytes, Drop, Num, Share, QueueOk;
    assert Bytes(st'.written) == Bytes(st.delivered) + ([b] + Held(st'.ring)) == Bytes(st'.delivered) + Held(st'.ring);
    forall q ensures ShareOk(st', q) {
      assert ShareOk(st, q);
      ShareAppend(st.delivered, p, b, q);
    }
  }

  lemma WriterLogged(st: State, p: Pid)
    requires Inv(st) && Enabled(st, p) && st.procs[p].pc.Section? && st.procs[p].call.Writer?
    requires st.ring.count < PIPE_BUFFER_SIZE
    ensures Logged(StepSection(st, p))
  {
    var st' := StepSection(st, p);
    var b := st.procs[p].call.data[st.procs[p].i];
    PutAppends(st.ring, b);
    BytesAppend(st.written, p, b);
    assert ShareOk(st, p) && ProcOk(st.procs[p]);
    hide Held, Bytes, Put, Num, Share, QueueOk;
    assert Bytes(st'.written) == Bytes(st.delivered) + (Held(st.ring) + [b]) == Bytes(st'.delivered) + Held(st'.ring);
    forall q ensures ShareOk(st', q) {
      assert ShareOk(st, q);
      ShareAppend(st.written, p, b, q);
    }
  }

  lemma SectionKeeps(st: State, p: Pid)
    requires Inv(st) && Enabled(st, p) && st.procs[p].pc.Section?
    ensures Inv(StepSection(st, p))
  {
    hide QueueOk, Num, Tallied;
    var st' := StepSection(st, p);
    SectionFindsUnit(st, p);
    if st.procs[p].call.Reader? {
      ReaderLogged(st, p);
    } else {
      WriterLogged(st, p);
    }
    hide PipeRing.Valid, Held, Put, Drop, Front;
    var n := st'.procs[p];
    TalliedUpdate(st.procs, p, n);
    CountedIsBalanced(st);
    CountedIsBalanced(st');
    assert ProcOk(st.procs[p]);
    UpdateKeepsRest(st, p, n);
    hide Logged, Num, Counted, Tallied, Held, AllOk, QueueOk, PipeRing.Valid;
  }

  // ---------------------------------------------------------------- posts

  lemma ResumeTyped(procs: map<Pid, Proc>, w: Pid)
    requires AllOk(procs) && InWait(procs, w)
    ensures AllOk(Resume(procs, w))
  {
  }

  /** State after the caller of a post moved on, and before the post itself. */
  ghost predicate Ready(st: State, k: Which) {
    && Typed(st) && Queued(st) && Logged(st)
    && Balanced(st.semWriters.counter + Bit(k.Slots?), st.semReaders.counter + Bit(k.Items?), st.mutex.counter + Bit(k.Lock?),
                st.ring.count, Tallied(st.procs))
  }

  /** The post as one step. */
  function Posted(st: State, k: Which, g: Grant): State {
    var (s, woken) := Post(SemOf(st, k), st.procs.Keys);
    Wake(WithSem(st, k, s), woken, g)
  }

  lemma CountsUp(st: State, k: Which, g: Grant)
    requires Ready(st, k) && SemOf(st, k).queue == []
    ensures Inv(Posted(st, k, g))
  {
    hide Logged, Tallied, AllOk, Post, Queued;
    TalliedNat(st.procs);
    PostFacts(st, k);
    var st' := Posted(st, k, g);
    assert st' == WithSem(st, k, Sem(SemOf(st, k).counter + 1, []));
    CountedIsBalanced(st');
    LoggedFrame(st, st');
    QueuedFrame(st, st');
  }

  /** A permit goes to the head of the queue, who was blocked. */
  lemma HandsOn(st: State, k: Which)
    requires Ready(st, k) && SemOf(st, k).queue != []
    ensures var s := SemOf(st, k);
            Inv(WithSem(st, k, Sem(s.counter, s.queue[1..])).(blocked := st.blocked - {s.queue[0]}, procs := Resume(st.procs, s.queue[0])))
  {
    var s := SemOf(st, k);
    var w := s.queue[0];
    var st' := WithSem(st, k, Sem(s.counter, s.queue[1..])).(blocked := st.blocked - {w}, procs := Resume(st.procs, w));
    HeadWaits(st, k);
    WokenQueued(st, k, s.counter);
    ResumeTyped(st.procs, w);
    LoggedFrame(st, st');
    HandsOnCounts(st, k);
    hide Logged, Queued, Counted, AllOk, PipeRing.Valid;
  }

  lemma HandsOnCounts(st: State, k: Which)
    requires Ready(st, k) && SemOf(st, k).queue != []
    ensures var s := SemOf(st, k);
            Counted(WithSem(st, k, Sem(s.counter, s.queue[1..])).(blocked := st.blocked - {s.queue[0]}, procs := Resume(st.procs, s.queue[0])))
  {
    hide Logged, Queued, Tallied, AllOk, PipeRing.Valid, Num, Balanced;
    var s := SemOf(st, k);
    var w := s.queue[0];
    var st' := WithSem(st, k, Sem(s.counter, s.queue[1..])).(blocked := st.blocked - {w}, procs := Resume(st.procs, w));
    HeadTallied(st, k);
    PermitBalances(k, st.semWriters.counter, st.semReaders.counter, st.mutex.counter, st.ring.count, Tallied(st.procs));
    CountedIsBalanced(st');
    hide Counted;
  }

  /** The counts after the head of a queue has got the permit. */
  lemma HeadTallied(st: State, k: Which)
    requires Queued(st) && SemOf(st, k).queue != []
    ensures Tallied(Resume(st.procs, SemOf(st, k).queue[0])) == WithPermit(Tallied(st.procs), k)
  {
    HeadWaits(st, k);
    hide Queued, Tallied, One, Shift;
    var w := SemOf(st, k).queue[0];
    TalliedUpdate(st.procs, w, st.procs[w].(pc := Advance(st.procs[w].pc)));
    PermitCounts(st.procs[w], k, Tallied(st.procs));
  }

  lemma PermitBalances(k: Which, slotsFree: int, itemsFree: int, mutexFree: int, count: int, c: Counts)
    requires Balanced(slotsFree + Bit(k.Slots?), itemsFree + Bit(k.Items?), mutexFree + Bit(k.Lock?), count, c)
    ensures Balanced(slotsFree, itemsFree, mutexFree, count, WithPermit(c, k))
  {
  }

  /** The counts after somebody who waits for a semaphore has got its permit. */
  function WithPermit(c: Counts, k: Which): Counts {
    match k
    case Items => c.(items := c.items + 1)
    case Slots => c.(slots := c.slots + 1)
    case Lock => c.(inside := c.inside + 1)
  }

  lemma PermitCounts(pr: Proc, k: Which, c: Counts)
    requires pr.pc == (if k.Lock? then AwaitMutex else AwaitUnit)
    requires (k.Items? ==> pr.call.Reader?) && (k.Slots? ==> pr.call.Writer?)
    ensures Shift(c, One(pr), One(pr.(pc := Advance(pr.pc)))) == WithPermit(c, k)
  {
  }

  lemma HeadWaits(st: State, k: Which)
    requires Queued(st) && SemOf(st, k).queue != []
    ensures var w := SemOf(st, k).queue[0];
            && w in st.procs && InWait(st.procs, w)
            && st.procs[w].pc == (if k.Lock? then AwaitMutex else AwaitUnit)
            && (k.Items? ==> st.procs[w].call.Reader?) && (k.Slots? ==> st.procs[w].call.Writer?)
  {
    QueuedIs(st);
    var q := SemOf(st, k).queue;
    assert LineOk(st.procs, q, k);
    assert WaitsHere(st.procs, q[0], if k.Lock? then AwaitMutex else AwaitUnit, !k.Slots?, !k.Items?);
  }

  /** A post keeps the invariant unless it cannot wake the waiter to whom it hands the permit. */
  lemma PostKeeps(st: State, k: Which, g: Grant)
    requires Ready(st, k)
    ensures Inv(Posted(st, k, g)) <==> !(g == NoWake && HandsOver(st, SemOf(st, k)))
  {
    hide Post, Inv, Ready;
    ReadyFits(st, k);
    PostFacts(st, k);
    hide Queued, HandsOver;
    if SemOf(st, k).queue == [] {
      CountsUp(st, k, g);
    } else if g == NoWake {
      LostBreaks(Posted(st, k, g), SemOf(st, k).queue[0]);
    } else {
      HandsOn(st, k);
    }
  }

  lemma ReadyFits(st: State, k: Which)
    requires Ready(st, k)
    ensures Queued(st) && SemOf(st, k).counter + 1 < TWO_32
  {
    hide Queued, Logged, Typed, Tallied;
    TalliedNat(st.procs);
  }

  lemma LostBreaks(st: State, p: Pid)
    requires p in st.lost
    ensures !Inv(st)
  {
  }

  lemma ReleaseKeeps(st: State, p: Pid, g: Grant)
    requires Inv(st) && Enabled(st, p) && st.procs[p].pc.Release?
    ensures Inv(StepRelease(st, p, g)) <==> !Overlooks(st, p, g)
  {
    hide QueueOk, Num, Tallied;
    hide PipeRing.Valid, Held;
    var n := st.procs[p].(pc := Signal(false));
    var st1 := st.(procs := st.procs[p := n]);
    assert ProcOk(st.procs[p]);
    LoggedFrame(st, st1);
    TalliedUpdate(st.procs, p, n);
    CountedIsBalanced(st);
    UpdateKeepsRest(st, p, n);
    hide Logged, Counted, AllOk, Queued, Post;
    assert st1.procs.Keys == st.procs.Keys;
    PostKeeps(st1, Lock, g);
    hide Inv;
    assert StepRelease(st, p, g) == Posted(st1, Lock, g);
  }

  lemma SignalKeeps(st: State, p: Pid, g: Grant)
    requires Inv(st) && Enabled(st, p) && st.procs[p].pc.Signal?
    ensures Inv(StepSignal(st, p, g)) <==> !Overlooks(st, p, g)
  {
    hide QueueOk, Num, Tallied;
    hide PipeRing.Valid, Held;
    var n := NextTurn(st.procs[p]);
    var st1 := st.(procs := st.procs[p := n]);
    var k := if st.procs[p].call.Reader? then Slots else Items;
    assert ProcOk(st.procs[p]);
    LoggedFrame(st, st1);
    TalliedUpdate(st.procs, p, n);
    CountedIsBalanced(st);
    UpdateKeepsRest(st, p, n);
    hide Logged, Counted, AllOk, Queued, Post;
    assert st1.procs.Keys == st.procs.Keys;
    PostKeeps(st1, k, g);
    hide Inv;
    assert StepSignal(st, p, g) == Posted(st1, k, g);
  }

  // ---------------------------------------------------------------- new calls

  lemma NewCall(procs: map<Pid, Proc>, p: Pid, n: Proc, f: Proc -> bool)
    requires (p in procs ==> !f(procs[p])) && !f(n)
    ensures Num(procs[p := n], f) == Num(procs, f)
  {
    if p in procs {
      NumUpdate(procs, p, n, f);
    } else {
      NumInsert(procs, p, n, f);
    }
  }

  lemma StartKeeps(st: State, p: Pid, c: Call)
    requires Inv(st) && CanStart(st, p, c)
    ensures p in st.procs ==> Steady(st.procs[p])
    ensures Inv(Start(st, p, c))
  {
    assert p in st.procs ==> ProcOk(st.procs[p]);
    assert ShareOk(st, p);
    var st' := Start(st, p, c);
    var n := st'.procs[p];
    NewCall(st.procs, p, n, HoldsSlot);
    NewCall(st.procs, p, n, HoldsItem);
    NewCall(st.procs, p, n, OwesItem);
    NewCall(st.procs, p, n, OwesSlot);
    NewCall(st.procs, p, n, InSection);
    assert p in st.blocked ==> InWait(st.procs, p);
    UpdateQueued(st, p, n);
    hide Queued, Num, Held;
    forall q ensures ShareOk(st', q) {
      assert ShareOk(st, q);
    }
  }

  lemma InvWorks(st: State)
    requires Inv(st)
    ensures Workable(st)
  {
    hide Logged, Counted, QueueOk, PipeRing.Valid;
    forall p | p in st.procs ensures Steady(st.procs[p]) {
      assert ProcOk(st.procs[p]);
    }
  }

  /** A step keeps the invariant if and only if it overlooks no refusal. */
  lemma StepKeeps(st: State, p: Pid, g: Grant)
    requires Inv(st) && Enabled(st, p)
    ensures Workable(st)
    ensures Inv(PipeStep(st, p, g)) <==> !Overlooks(st, p, g)
  {
    InvWorks(st);
    match st.procs[p].pc
    case AwaitUnit => UnitKeeps(st, p, g);
    case AwaitMutex => MutexKeeps(st, p, g);
    case Section => SectionKeeps(st, p);
    case Release(_) => ReleaseKeeps(st, p, g);
    case Signal(_) => SignalKeeps(st, p, g);
  }

  // ---------------------------------------------------------------- steps without the invariant

  lemma UpdateWorks(st: State, p: Pid, n: Proc)
    requires Workable(st) && !Blocked(st, p) && Steady(n)
    ensures Workable(st.(procs := st.procs[p := n]))
  {
    var st' := st.(procs := st.procs[p := n]);
    hide PipeRing.Valid;
    forall q | Blocked(st', q) ensures InWait(st'.procs, q) {
      assert Blocked(st, q);
    }
  }

  lemma BlockWorks(st: State, p: Pid)
    requires Workable(st) && !Blocked(st, p) && InWait(st.procs, p)
    ensures Workable(st.(blocked := st.blocked + {p}))
  {
    var st' := st.(blocked := st.blocked + {p});
    hide PipeRing.Valid;
    forall q | Blocked(st', q) ensures InWait(st'.procs, q) {
      assert q == p || Blocked(st, q);
    }
  }

  lemma WakeWorks(st: State, woken: Option<Pid>, g: Grant)
    requires Workable(st)
    ensures Workable(Wake(st, woken, g))
  {
    var st' := Wake(st, woken, g);
    hide PipeRing.Valid;
    if woken.Some? && woken.value in st.blocked {
      var w := woken.value;
      assert Blocked(st, w);
      assert InWait(st.procs, w) && Steady(st.procs[w]);
    }
    forall q | Blocked(st', q) ensures InWait(st'.procs, q) {
      assert Blocked(st, q);
    }
  }

  /** Semaphores and logs do not matter to it. */
  lemma WorksFrame(st: State, st': State)
    requires Workable(st) && st'.ring == st.ring && st'.procs == st.procs && st'.blocked == st.blocked && st'.lost == st.lost
    ensures Workable(st')
  {
    hide PipeRing.Valid, Steady, InWait;
    forall q | Blocked(st', q) ensures InWait(st'.procs, q) {
      assert Blocked(st, q);
    }
  }

  lemma WaitWorks(st: State, p: Pid, g: Grant)
    requires Workable(st) && Enabled(st, p) && InWait(st.procs, p)
    ensures Workable(PipeStep(st, p, g))
  {
    assert Steady(st.procs[p]);
    var n := st.procs[p].(pc := Advance(st.procs[p].pc));
    UpdateWorks(st, p, n);
    BlockWorks(st, p);
    var st' := PipeStep(st, p, g);
    hide Workable;
    if st'.procs == st.procs {
      WorksFrame(st.(blocked := st.blocked + {p}), st');
    } else {
      WorksFrame(st.(procs := st.procs[p := n]), st');
    }
  }

  lemma SectionWorks(st: State, p: Pid)
    requires Workable(st) && Enabled(st, p) && st.procs[p].pc.Section?
    ensures Workable(StepSection(st, p))
  {
    assert Steady(st.procs[p]);
    if st.procs[p].call.Reader? && st.ring.count > 0 {
      DropPops(st.ring);
    } else if st.procs[p].call.Writer? && st.ring.count < PIPE_BUFFER_SIZE {
      PutAppends(st.ring, st.procs[p].call.data[st.procs[p].i]);
    }
    hide Put, Drop, Front, PipeRing.Valid;
    var st' := StepSection(st, p);
    UpdateWorks(st, p, st'.procs[p]);
    forall q | Blocked(st', q) ensures InWait(st'.procs, q) {
      assert Blocked(st, q);
    }
  }

  /** Whatever memory is refused, no call ever looks beyond its buffer or the ring. */
  lemma StepWorks(st: State, p: Pid, g: Grant)
    requires Workable(st) && Enabled(st, p)
    ensures Workable(PipeStep(st, p, g))
  {
    assert Steady(st.procs[p]);
    match st.procs[p].pc
    case Section => SectionWorks(st, p);
    case Release(o) =>
      var st1 := st.(procs := At(st.procs, p, AfterRelease(o)));
      UpdateWorks(st, p, st1.procs[p]);
      hide Workable;
      var (s, woken) := Post(st.mutex, st.procs.Keys);
      WorksFrame(st1, st1.(mutex := s));
      WakeWorks(st1.(mutex := s), woken, g);
    case Signal(_) =>
      var st1 := st.(procs := st.procs[p := NextTurn(st.procs[p])]);
      UpdateWorks(st, p, st1.procs[p]);
      hide Workable;
      var (s, woken) := Post(UnitPost(st, p), st.procs.Keys);
      WorksFrame(st1, st1.(semWriters := s));
      WorksFrame(st1, st1.(semReaders := s));
      WakeWorks(st1.(semWriters := s), woken, g);
      WakeWorks(st1.(semReaders := s), woken, g);
    case _ => WaitWorks(st, p, g);
  }
}
