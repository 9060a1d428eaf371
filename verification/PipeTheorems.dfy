/** What every run of the pipe protocol guarantees: conservation, order, no retry, no deadlock, termination. */
module PipeTheorems {
  import opened SemaphoreSpec
  import opened PipeRing
  import opened PipeProtocol
  import opened PipeProofs
  import opened Sums

  // ---------------------------------------------------------------- runs

  datatype Action = Begin(pid: Pid, call: Call) | Go(pid: Pid, grant: Grant)

  /** The pipe as createPipe leaves it. */
  ghost predicate Opened(st: State) {
    && PipeRing.Valid(st.ring) && Held(st.ring) == [] && st.writers == 1
    && st.semReaders == Sem(0, []) && st.semWriters == Sem(512, []) && st.mutex == Sem(1, [])
    && st.procs == map[] && st.blocked == {} && st.lost == {} && st.written == [] && st.delivered == []
  }

  lemma OpenedInv(st: State)
    requires Opened(st)
    ensures Inv(st)
  {
    assert Those(st.procs, HoldsSlot) == {} && Those(st.procs, HoldsItem) == {};
    assert Those(st.procs, OwesSlot) == {} && Those(st.procs, OwesItem) == {} && Those(st.procs, InSection) == {};
    assert st.ring.count == |Held(st.ring)| == 0;
  }

  predicate Allowed(st: State, a: Action) {
    match a
    case Begin(p, c) => CanStart(st, p, c)
    case Go(p, _) => Enabled(st, p)
  }

  ghost function After(st: State, a: Action): State
    requires Workable(st) && Allowed(st, a)
  {
    match a
    case Begin(p, c) => Start(st, p, c)
    case Go(p, g) => PipeStep(st, p, g)
  }

  /** The action is a refusal that changes how many permits there are. */
  predicate OverlooksNow(st: State, a: Action)
    requires Allowed(st, a)
  {
    a.Go? && Overlooks(st, a.pid, a.grant)
  }

  lemma AfterWorks(st: State, a: Action)
    requires Workable(st) && Allowed(st, a)
    ensures Workable(After(st, a))
  {
    match a
    case Begin(p, c) =>
      assert Blocked(st, p) ==> InWait(st.procs, p);
      UpdateWorks(st, p, After(st, a).procs[p]);
    case Go(p, g) => StepWorks(st, p, g);
  }

  lemma AfterKeeps(st: State, a: Action)
    requires Inv(st) && Allowed(st, a)
    ensures Workable(st)
    ensures Inv(After(st, a)) <==> !OverlooksNow(st, a)
  {
    InvWorks(st);
    match a
    case Begin(p, c) => StartKeeps(st, p, c);
    case Go(p, g) => StepKeeps(st, p, g);
  }

  ghost predicate AllowedRun(st: State, run: seq<Action>)
    requires Workable(st)
    decreases |run|
  {
    run == [] || (Allowed(st, run[0]) && (AfterWorks(st, run[0]); AllowedRun(After(st, run[0]), run[1..])))
  }

  ghost function Final(st: State, run: seq<Action>): State
    requires Workable(st) && AllowedRun(st, run)
    decreases |run|
  {
    if run == [] then st
    else
      AfterWorks(st, run[0]);
      Final(After(st, run[0]), run[1..])
  }

  /** The invariant holds in every state of the run. */
  ghost predicate InvThroughout(st: State, run: seq<Action>)
    requires Workable(st) && AllowedRun(st, run)
    decreases |run|
  {
    Inv(st) && (run == [] || (AfterWorks(st, run[0]); InvThroughout(After(st, run[0]), run[1..])))
  }

  /** Some step of the run overlooks a refusal. */
  ghost predicate RunOverlooks(st: State, run: seq<Action>)
    requires Workable(st) && AllowedRun(st, run)
    decreases |run|
  {
    run != [] && (OverlooksNow(st, run[0]) || (AfterWorks(st, run[0]); RunOverlooks(After(st, run[0]), run[1..])))
  }

  /**
   In every interleaving of any number of calls, whatever memory is refused, the invariant holds in all states if and
   only if no step overlooks a refusal.
   */
  lemma {:induction false} EveryRun(st: State, run: seq<Action>)
    requires Inv(st) && Workable(st) && AllowedRun(st, run)
    ensures InvThroughout(st, run) <==> !RunOverlooks(st, run)
    ensures !RunOverlooks(st, run) ==> Inv(Final(st, run))
    decreases |run|
  {
    if run != [] {
      AfterKeeps(st, run[0]);
      AfterWorks(st, run[0]);
      hide Inv, After, Workable, Allowed;
      if !OverlooksNow(st, run[0]) {
        EveryRun(After(st, run[0]), run[1..]);
      }
    }
  }

  // ---------------------------------------------------------------- safety

  /** The retry branch of readPipe is never taken and writePipe never drops a byte for lack of room. */
  lemma NeverRetries(st: State, p: Pid)
    requires Inv(st) && Enabled(st, p) && st.procs[p].pc.Section?
    ensures st.procs[p].i < Total(st.procs[p].call)
    ensures var st' := StepSection(st, p);
            && st'.procs[p].pc == Release(Moved)
            && (st.procs[p].call.Writer? ==> st'.written == st.written + [(p, st.procs[p].call.data[st.procs[p].i])])
            && (st.procs[p].call.Reader? ==> st'.delivered == st.delivered + [(p, Front(st.ring))])
  {
    assert ProcOk(st.procs[p]);
    SectionFindsUnit(st, p);
  }

  /** At most one call is in its critical section. */
  lemma MutualExclusion(st: State, p: Pid, q: Pid)
    requires Inv(st) && p in st.procs && q in st.procs && InSection(st.procs[p]) && InSection(st.procs[q])
    ensures p == q
  {
    var s := Those(st.procs, InSection);
    assert p in s && q in s && |s| <= 1;
    assert |s - {p}| == |s| - 1;
    assert q !in s - {p};
  }

  /** Bytes leave the pipe in the order they entered it, each exactly once: what has not been delivered is in the ring. */
  lemma FifoDelivery(st: State)
    requires Inv(st)
    ensures Bytes(st.delivered) == Bytes(st.written)[..|st.delivered|]
    ensures Held(st.ring) == Bytes(st.written)[|st.delivered|..]
    ensures |st.written| - |st.delivered| == st.ring.count <= 512
  {
  }

  lemma {:induction false} OneSource(log: Log, p: Pid)
    requires forall q :: q != p ==> Share(log, q) == []
    ensures Bytes(log) == Share(log, p)
    decreases |log|
  {
    if log != [] {
      var front, last := log[..|log| - 1], log[|log| - 1];
      assert log == front + [last];
      forall q | q != p ensures Share(front, q) == [] {
        assert Share(log, q) == [];
      }
      assert Share(log, last.0) == Share(front, last.0) + [last.1];
      OneSource(front, p);
      assert Bytes(log) == Bytes(front) + [last.1];
    }
  }

  /** In every run from an opened pipe without overlooked refusals: first in, first out, each byte exactly once. */
  lemma FifoFromOpened(st: State, run: seq<Action>)
    requires Opened(st) && Workable(st) && AllowedRun(st, run) && !RunOverlooks(st, run)
    ensures var v := Final(st, run);
            && PipeRing.Valid(v.ring)
            && Bytes(v.written) == Bytes(v.delivered) + Held(v.ring)
            && forall p :: p in v.procs ==>
                 (v.procs[p].call.Writer? ==> v.procs[p].call.stored <= |v.procs[p].call.data|)
                 && Share(v.written, p) == Wrote(v.procs[p]) && Share(v.delivered, p) == Got(v.procs[p])
  {
    OpenedInv(st);
    EveryRun(st, run);
    var v := Final(st, run);
    forall p | p in v.procs ensures ShareOk(v, p) {
    }
  }

  /** All that a process asked to be written, over all of its calls. */
  function Sent(pr: Proc): seq<Byte> {
    pr.wrote + if pr.call.Writer? then pr.call.data else []
  }

  lemma SoleWriter(st: State, w: Pid)
    requires Inv(st) && w in st.procs && ShareOk(st, w)
    requires forall q :: q in st.procs && q != w ==> ShareOk(st, q) && Wrote(st.procs[q]) == []
    ensures Bytes(st.written) == Wrote(st.procs[w])
  {
    forall q | q != w ensures Share(st.written, q) == [] {
      assert ShareOk(st, q);
    }
    OneSource(st.written, w);
  }

  lemma SoleReader(st: State, r: Pid)
    requires Inv(st) && r in st.procs
    requires forall q :: q in st.procs && q != r ==> Got(st.procs[q]) == []
    ensures Bytes(st.delivered) == Got(st.procs[r])
  {
    forall q | q != r ensures Share(st.delivered, q) == [] {
      assert ShareOk(st, q);
    }
    assert ShareOk(st, r);
    OneSource(st.delivered, r);
  }

  lemma StoredFits(st: State)
    requires Inv(st)
    ensures forall p :: p in st.procs && st.procs[p].call.Writer? ==> st.procs[p].call.stored <= |st.procs[p].call.data|
  {
    forall p | p in st.procs ensures st.procs[p].call.Writer? ==> st.procs[p].call.stored <= |st.procs[p].call.data| {
      assert ProcOk(st.procs[p]);
    }
  }

  /**
   One process writes and one reads, each in any number of calls: at any moment the reader has a prefix of the
   concatenated data, and once it has as many bytes as were sent it has all of them, and the pipe is empty.
   */
  lemma EndToEnd(st: State, w: Pid, r: Pid)
    requires Inv(st) && w in st.procs && r in st.procs
    requires (StoredFits(st); forall q :: q in st.procs && q != w ==> Wrote(st.procs[q]) == [])
    requires forall q :: q in st.procs && q != r ==> Got(st.procs[q]) == []
    ensures var data, got := Sent(st.procs[w]), Got(st.procs[r]);
            && |got| <= |data| && got == data[..|got|]
            && (|got| == |data| ==> got == data && st.ring.count == 0)
            && (st.procs[w].pc.Finished? ==> |data| == |got| + st.ring.count)
  {
    StoredFits(st);
    forall q ensures ShareOk(st, q) {
    }
    SoleWriter(st, w);
    SoleReader(st, r);
    FifoDelivery(st);
    assert ProcOk(st.procs[w]);
    SentPrefix(st.procs[w]);
    hide Inv, Bytes, ShareOk, Wrote, Sent, Got;
  }

  lemma SentPrefix(pr: Proc)
    requires ProcOk(pr) && (pr.call.Writer? ==> pr.call.stored <= |pr.call.data|)
    ensures Wrote(pr) <= Sent(pr) && (pr.pc.Finished? ==> Wrote(pr) == Sent(pr))
  {
  }

  // ---------------------------------------------------------------- the end of a pipe

  /**
   On a pipe that has no writers any more, a reader in its section that finds nothing releases the mutex and returns, and one
   that takes the last byte posts its slot and returns, however much it asked for.
   */
  lemma LastReads(st: State, p: Pid)
    requires Workable(st) && p in st.procs && st.procs[p].pc.Section? && st.procs[p].call.Reader? && st.writers == 0
    ensures var v := StepSection(st, p);
            if st.ring.count == 0
            then v == st.(procs := At(st.procs, p, Release(EndOfFile))) && AfterRelease(EndOfFile) == Finished
            else
              && v.delivered == st.delivered + [(p, Front(st.ring))] && v.ring.count == st.ring.count - 1
              && v.procs[p].pc.Release?
              && var n := v.procs[p].(pc := AfterRelease(v.procs[p].pc.outcome));
                 n.pc.Signal? && NextTurn(n).i == n.i + 1
                 && (NextTurn(n).pc == Finished <==> st.ring.count == 1 || n.i + 1 == Total(n.call))
  {
    hide PipeRing.Valid, Steady;
  }

  // ---------------------------------------------------------------- progress

  lemma NobodyThere(procs: map<Pid, Proc>, f: Proc -> bool)
    requires forall p :: p in procs ==> !f(procs[p])
    ensures Num(procs, f) == 0
  {
    Inhabited(Those(procs, f));
  }

  /** A blocked call is waiting for its unit or for the mutex, and in the queue for it unless it is marooned. */
  lemma BlockedWhere(st: State, p: Pid)
    requires Queued(st) && Blocked(st, p)
    ensures InWait(st.procs, p)
    ensures p in Marooned(st) || InQueue(st, p)
    ensures p in st.mutex.queue ==> st.procs[p].pc == AwaitMutex
    ensures p in st.semReaders.queue ==> st.procs[p].pc == AwaitUnit && st.procs[p].call.Reader?
    ensures p in st.semWriters.queue ==> st.procs[p].pc == AwaitUnit && st.procs[p].call.Writer?
  {
  }

  /** If no call can take a step, nobody holds or waits for the mutex and nobody owes a post. */
  lemma StuckShape(st: State)
    requires Inv(st) && Marooned(st) == {} && forall p :: !Enabled(st, p)
    ensures forall p :: p in st.procs ==> st.procs[p].pc.Finished? || st.procs[p].pc.AwaitUnit?
    ensures st.semWriters.counter + st.ring.count == PIPE_BUFFER_SIZE && st.semReaders.counter == st.ring.count
  {
    forall p | p in st.procs
      ensures !InSection(st.procs[p]) && !Past(st.procs[p].pc) && !st.procs[p].pc.Section?
    {
      assert !Enabled(st, p);
      if !st.procs[p].pc.Finished? {
        BlockedWhere(st, p);
      }
    }
    NobodyThere(st.procs, InSection);
    assert st.mutex.queue == [];
    forall p | p in st.procs
      ensures st.procs[p].pc.Finished? || st.procs[p].pc.AwaitUnit?
    {
      assert !Enabled(st, p);
      if !st.procs[p].pc.Finished? {
        BlockedWhere(st, p);
      }
    }
    NobodyThere(st.procs, HoldsSlot);
    NobodyThere(st.procs, HoldsItem);
    NobodyThere(st.procs, OwesItem);
    NobodyThere(st.procs, OwesSlot);
  }

  /**
   When nothing can move, an unfinished reader means that every byte written was delivered and every
   writer returned; an unfinished writer means that the ring is full and every reader returned.
   */
  lemma Quiescence(st: State, p: Pid)
    requires Inv(st) && Marooned(st) == {} && (forall q :: !Enabled(st, q))
    requires p in st.procs && !st.procs[p].pc.Finished?
    ensures st.procs[p].call.Reader? ==>
              && st.ring.count == 0 && Bytes(st.delivered) == Bytes(st.written)
              && forall q :: q in st.procs && st.procs[q].call.Writer? ==> st.procs[q].pc.Finished?
    ensures st.procs[p].call.Writer? ==>
              && st.ring.count == 512
              && forall q :: q in st.procs && st.procs[q].call.Reader? ==> st.procs[q].pc.Finished?
  {
    StuckShape(st);
    FifoDelivery(st);
    assert !Enabled(st, p);
    BlockedWhere(st, p);
    forall q | q in st.procs && st.procs[q].call.Reader? != st.procs[p].call.Reader?
      ensures st.procs[q].pc.Finished?
    {
      assert !Enabled(st, q);
      if !st.procs[q].pc.Finished? {
        BlockedWhere(st, q);
      }
    }
  }

  /** No deadlock: while a reader and a writer are both in mid-call, and nobody is marooned, some call can take a step. */
  lemma NoDeadlock(st: State, r: Pid, w: Pid)
    requires Inv(st) && Marooned(st) == {}
    requires r in st.procs && w in st.procs && st.procs[r].call.Reader? && st.procs[w].call.Writer?
    requires !st.procs[r].pc.Finished? && !st.procs[w].pc.Finished?
    ensures exists p :: Enabled(st, p)
  {
    if forall p :: !Enabled(st, p) {
      Quiescence(st, r);
    }
  }

  // ---------------------------------------------------------------- termination

  /** An upper bound on the steps a call can still take. */
  function Energy(st: State, p: Pid): nat
    requires p in st.procs && ProcOk(st.procs[p])
  {
    var pr := st.procs[p];
    var turns := 7 * (Total(pr.call) - pr.i);
    match pr.pc
    case AwaitUnit => if Blocked(st, p) then turns - 1 else turns
    case AwaitMutex => if Blocked(st, p) then turns - 3 else turns - 2
    case Section => turns - 4
    case Release(_) => turns - 5
    case Signal(_) => turns - 6
    case Finished => 0
  }

  ghost function Energies(st: State): map<Pid, int>
    requires Typed(st)
  {
    map p | p in st.procs :: Energy(st, p)
  }

  /** A post that can wake whom it hands its permit to moves at most that call on. */
  lemma PostLeavesAlone(st: State, k: Which, g: Grant, q: Pid)
    requires Queued(st) && SemOf(st, k).counter + 1 < TWO_32 && q in st.procs
    requires g == NoWake ==> !HandsOver(st, SemOf(st, k))
    ensures var st' := Posted(st, k, g);
            && st'.procs.Keys == st.procs.Keys && LeftAlone(st, st', q)
            && (!Blocked(st, q) ==> st'.procs[q] == st.procs[q])
  {
    PostFacts(st, k);
    hide Post, QueueOk;
  }

  lemma CountersSmall(st: State)
    requires Inv(st)
    ensures st.semReaders.counter + 1 < TWO_32 && st.semWriters.counter + 1 < TWO_32 && st.mutex.counter + 1 < TWO_32
  {
  }

  /** What a step of p does to another call q: nothing, or it wakes q and moves it on. */
  ghost predicate LeftAlone(st: State, st': State, q: Pid)
    requires q in st.procs
  {
    && q in st'.procs
    && ((st'.procs[q] == st.procs[q] && Blocked(st', q) == Blocked(st, q))
        || (Blocked(st, q) && !Blocked(st', q) && st'.procs[q] == st.procs[q].(pc := Advance(st.procs[q].pc))))
  }

  lemma BystanderOfWait(st: State, p: Pid, g: Grant, q: Pid)
    requires Inv(st) && Workable(st) && Enabled(st, p) && q in st.procs && q != p
    requires st.procs[p].pc.AwaitUnit? || st.procs[p].pc.AwaitMutex? || st.procs[p].pc.Section?
    ensures LeftAlone(st, PipeStep(st, p, g), q)
  {
    hide Num, Logged, Counted, Queued, AllOk;
  }

  /** The state after the caller of a post moved on, and before the post itself. */
  function BeforePost(st: State, p: Pid): State
    requires p in st.procs
  {
    st.(procs := st.procs[p := if st.procs[p].pc.Release? then st.procs[p].(pc := AfterRelease(st.procs[p].pc.outcome))
                               else NextTurn(st.procs[p])])
  }

  function PostsTo(pr: Proc): Which {
    if pr.pc.Release? then Lock else if pr.call.Reader? then Slots else Items
  }

  lemma PostStep(st: State, p: Pid, g: Grant)
    requires Inv(st) && Workable(st) && Enabled(st, p) && !Overlooks(st, p, g)
    requires st.procs[p].pc.Release? || st.procs[p].pc.Signal?
    ensures var st1, k := BeforePost(st, p), PostsTo(st.procs[p]);
            && PipeStep(st, p, g) == Posted(st1, k, g)
            && Queued(st1) && st1.procs.Keys == st.procs.Keys && SemOf(st1, k).counter + 1 < TWO_32
            && (g == NoWake ==> !HandsOver(st1, SemOf(st1, k)))
  {
    CountersSmall(st);
    var st1 := BeforePost(st, p);
    UpdateQueued(st, p, st1.procs[p]);
    assert st1.procs.Keys == st.procs.Keys;
    hide Inv, Workable, Queued, Post;
  }

  lemma BystanderOfPost(st: State, p: Pid, g: Grant, q: Pid)
    requires Inv(st) && Workable(st) && Enabled(st, p) && q in st.procs && q != p && !Overlooks(st, p, g)
    requires st.procs[p].pc.Release? || st.procs[p].pc.Signal?
    ensures LeftAlone(st, PipeStep(st, p, g), q)
  {
    PostStep(st, p, g);
    PostLeavesAlone(BeforePost(st, p), PostsTo(st.procs[p]), g, q);
    hide Inv, Workable, Posted, Overlooks;
  }

  /** Where p itself stands after its step. */
  lemma SelfMoves(st: State, p: Pid, g: Grant)
    requires Inv(st) && Workable(st) && Enabled(st, p) && !Overlooks(st, p, g)
    ensures var st' := PipeStep(st, p, g);
            var pr := st.procs[p];
            && st'.procs.Keys == st.procs.Keys
            && match pr.pc
               case AwaitUnit => (st'.procs[p] == pr && Blocked(st', p)) || st'.procs[p] == pr.(pc := AwaitMutex)
               case AwaitMutex => (st'.procs[p] == pr && Blocked(st', p)) || st'.procs[p] == pr.(pc := Section)
               case Section => st'.procs[p].pc == Release(Moved) && st'.procs[p].i == pr.i && Total(st'.procs[p].call) == Total(pr.call)
               case Release(_) => st'.procs[p] == pr.(pc := Signal(false))
               case Signal(_) => st'.procs[p] == NextTurn(pr)
               case Finished => true
  {
    assert ProcOk(st.procs[p]);
    match st.procs[p].pc
    case AwaitUnit =>
    case AwaitMutex =>
    case Section => SectionFindsUnit(st, p);
    case Release(_) => PostMoves(st, p, g);
    case Signal(_) => PostMoves(st, p, g);
  }

  lemma PostMoves(st: State, p: Pid, g: Grant)
    requires Inv(st) && Workable(st) && Enabled(st, p) && !Overlooks(st, p, g)
    requires st.procs[p].pc.Release? || st.procs[p].pc.Signal?
    ensures var st' := PipeStep(st, p, g);
            && st'.procs.Keys == st.procs.Keys
            && st'.procs[p] == if st.procs[p].pc.Release? then st.procs[p].(pc := Signal(false)) else NextTurn(st.procs[p])
  {
    assert ProcOk(st.procs[p]);
    PostStep(st, p, g);
    PostLeavesAlone(BeforePost(st, p), PostsTo(st.procs[p]), g, p);
    hide Inv, Workable, Posted, PipeStep, Overlooks;
  }

  lemma CostsSelf(st: State, p: Pid, g: Grant)
    requires Inv(st) && Workable(st) && Enabled(st, p) && !Overlooks(st, p, g) && Inv(PipeStep(st, p, g))
    ensures var st' := PipeStep(st, p, g); p in st'.procs && Energy(st', p) < Energy(st, p)
  {
    SelfMoves(st, p, g);
    var st' := PipeStep(st, p, g);
    assert ProcOk(st.procs[p]) && ProcOk(st'.procs[p]);
    hide PipeStep, Inv, Typed;
  }

  lemma CostsOther(st: State, p: Pid, g: Grant, q: Pid)
    requires Inv(st) && Workable(st) && Enabled(st, p) && !Overlooks(st, p, g) && Inv(PipeStep(st, p, g)) && q in st.procs && q != p
    ensures var st' := PipeStep(st, p, g); q in st'.procs && Energy(st', q) <= Energy(st, q)
  {
    var st' := PipeStep(st, p, g);
    assert ProcOk(st.procs[q]);
    assert Blocked(st, q) ==> InWait(st.procs, q);
    hide PipeStep, Workable, Overlooks, Queued, Counted, Logged;
    match st.procs[p].pc {
      case Release(_) => BystanderOfPost(st, p, g, q);
      case Signal(_) => BystanderOfPost(st, p, g, q);
      case _ => BystanderOfWait(st, p, g, q);
    }
    assert ProcOk(st'.procs[q]);
    hide Inv, Typed;
  }

  /** A step that overlooks no refusal takes energy from its call and gives none to any other. */
  lemma StepCosts(st: State, p: Pid, g: Grant)
    requires Inv(st) && Workable(st) && Enabled(st, p) && !Overlooks(st, p, g)
    ensures Inv(PipeStep(st, p, g)) && Sum(Energies(PipeStep(st, p, g))) < Sum(Energies(st))
  {
    StepKeeps(st, p, g);
    SelfMoves(st, p, g);
    var st' := PipeStep(st, p, g);
    hide PipeStep, Logged, Queued, Counted, Energy, Sum;
    forall q | q in st.procs
      ensures Energy(st', q) <= Energy(st, q) && (q == p ==> Energy(st', q) < Energy(st, q))
    {
      if q == p {
        CostsSelf(st, p, g);
      } else {
        CostsOther(st, p, g, q);
      }
    }
    SumSmaller(Energies(st'), Energies(st), p);
  }

  function Steps(run: seq<Action>): nat {
    if run == [] then 0 else Steps(run[1..]) + if run[0].Go? then 1 else 0
  }

  /** The bytes that the calls of a run ask to move. */
  function Requested(run: seq<Action>): nat {
    if run == [] then 0 else Requested(run[1..]) + if run[0].Begin? then Total(run[0].call) else 0
  }

  /**
   Every run without overlooked refusals ends: the calls of a run that asks for n bytes take at most 7 n steps on top
   of what the calls already under way can still take. With Quiescence this says how every run comes to rest.
   */
  lemma {:induction false} Termination(st: State, run: seq<Action>)
    requires Inv(st) && Workable(st) && AllowedRun(st, run) && !RunOverlooks(st, run)
    ensures Inv(Final(st, run))
    ensures Steps(run) + Sum(Energies(Final(st, run))) <= Sum(Energies(st)) + 7 * Requested(run)
    decreases |run|
  {
    if run != [] {
      AfterKeeps(st, run[0]);
      AfterWorks(st, run[0]);
      match run[0] {
        case Go(p, g) => StepCosts(st, p, g);
        case Begin(p, c) => BeginCosts(st, p, c);
      }
      hide Inv, After, Workable, Allowed, Energies, Sum;
      Termination(After(st, run[0]), run[1..]);
    }
  }

  lemma BeginCosts(st: State, p: Pid, c: Call)
    requires Inv(st) && CanStart(st, p, c) && (p in st.procs ==> Steady(st.procs[p]))
    ensures Inv(Start(st, p, c)) && Sum(Energies(Start(st, p, c))) == Sum(Energies(st)) + 7 * Total(c)
  {
    StartKeeps(st, p, c);
    var st' := Start(st, p, c);
    if Blocked(st', p) {
      BlockedWhere(st, p);
    }
    hide Logged, Queued, Counted;
    forall q | q in st.procs ensures ProcOk(st.procs[q]) && (q != p ==> Energy(st', q) == Energy(st, q)) {
      assert ProcOk(st.procs[q]);
    }
    assert p in st.procs ==> Energies(st)[p] == 0;
    assert Energies(st') == Energies(st)[p := 7 * Total(c)];
    SumUpdate(Energies(st), p, 7 * Total(c));
  }
}
