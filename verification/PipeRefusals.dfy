/** What a pipe loses when its semaphore operations are refused memory. */
module PipeRefusals {
  import opened SemaphoreSpec
  import opened PipeRing
  import opened PipeProtocol
  import opened PipeProofs
  import opened PipeTheorems
  import opened Sums

  // ---------------------------------------------------------------- a refused list node: blocked for good

  /**
   The action leaves somebody blocked where no post will find him: a sem_wait that finds no permit is refused its list
   node, by a process with no other entry in a queue, or a sem_post cannot wake the process to which it hands the permit.
   */
  predicate StrandsNow(st: State, a: Action)
    requires Allowed(st, a)
  {
    a.Go? &&
    match st.procs[a.pid].pc
    case AwaitUnit => a.grant == NoNode && UnitSem(st, a.pid).counter == 0 && !InQueue(st, a.pid)
    case AwaitMutex => a.grant == NoNode && st.mutex.counter == 0 && !InQueue(st, a.pid)
    case Release(_) => a.grant == NoWake && HandsOver(st, st.mutex)
    case Signal(_) => a.grant == NoWake && HandsOver(st, UnitPost(st, a.pid))
    case _ => false
  }

  /** A post takes one entry of a live process at most out of its queue, that of the one to whom it hands the permit. */
  lemma PostSparesOthers(s: Sem, live: set<Pid>, p: Pid)
    requires p in live
    ensures var (s', woken) := Post(s, live);
            && (p !in s.queue ==> p !in s'.queue && woken != Some(p))
            && (p in s.queue && woken != Some(p) ==> p in s'.queue)
            && (woken.Some? ==> woken.value in s.queue)
  {
    var q := Purge(s.queue, live);
    assert q != [] ==> q == [q[0]] + q[1..];
  }

  lemma WaitStrands(st: State, a: Action)
    requires Workable(st) && Allowed(st, a) && a.Go? && InWait(st.procs, a.pid)
    ensures Marooned(After(st, a)) == Marooned(st) + if StrandsNow(st, a) then {a.pid} else {}
  {
    hide Steady, PipeRing.Valid;
  }

  /** Nobody but the process that is handed the permit gets into or out of a queue or the blocked list at a post. */
  lemma PostStrands(st: State, k: Which, g: Grant)
    requires Workable(st)
    ensures var s := SemOf(st, k);
            Marooned(Posted(st, k, g))
            == Marooned(st) + if g == NoWake && HandsOver(st, s) then {Post(s, st.procs.Keys).1.value} else {}
  {
    var s := SemOf(st, k);
    var st' := Posted(st, k, g);
    var woken := Post(s, st.procs.Keys).1;
    hide Steady, PipeRing.Valid, Post;
    forall p | Blocked(st, p)
      ensures p in Marooned(st') <==> p in Marooned(st) || (g == NoWake && HandsOver(st, s) && woken == Some(p))
    {
      assert InWait(st.procs, p);
      PostSparesOthers(s, st.procs.Keys, p);
      assert woken == Some(p) ==> InQueue(st, p);
    }
    assert forall p :: Blocked(st', p) ==> Blocked(st, p);
    hide Marooned, Workable;
    forall p ensures p in Marooned(st') <==> p in Marooned(st) || (g == NoWake && HandsOver(st, s) && woken == Some(p)) {
      MaroonedBlocked(st, p);
      MaroonedBlocked(st', p);
    }
  }

  lemma MaroonedBlocked(st: State, p: Pid)
    ensures p in Marooned(st) ==> Blocked(st, p)
  {
  }

  /** Who is marooned after an action: whoever was before, and perhaps one more. */
  lemma MaroonedAfter(st: State, a: Action)
    requires Workable(st) && Allowed(st, a)
    ensures Marooned(st) <= Marooned(After(st, a))
    ensures Marooned(After(st, a)) == Marooned(st) <==> !StrandsNow(st, a)
    ensures Marooned(After(st, a)) == {} <==> Marooned(st) == {} && !StrandsNow(st, a)
  {
    if a.Go? && InWait(st.procs, a.pid) {
      WaitStrands(st, a);
    } else if a.Go? && (st.procs[a.pid].pc.Release? || st.procs[a.pid].pc.Signal?) {
      PostMaroons(st, a);
    } else {
      assert Marooned(After(st, a)) == Marooned(st);
    }
  }

  /** The caller of a post moves on, and then it posts. */
  lemma PostAction(st: State, a: Action)
    requires Workable(st) && Allowed(st, a) && a.Go? && (st.procs[a.pid].pc.Release? || st.procs[a.pid].pc.Signal?)
    ensures var st1, k := BeforePost(st, a.pid), PostsTo(st.procs[a.pid]);
            && Workable(st1) && st1.procs.Keys == st.procs.Keys
            && After(st, a) == Posted(st1, k, a.grant)
            && StrandsNow(st, a) == (a.grant == NoWake && HandsOver(st1, SemOf(st1, k)))
  {
    var p := a.pid;
    var st1 := BeforePost(st, p);
    assert Steady(st.procs[p]);
    UpdateWorks(st, p, st1.procs[p]);
    assert st1.procs.Keys == st.procs.Keys;
    hide Workable, Post;
  }

  lemma MaroonedFrame(st: State, procs: map<Pid, Proc>)
    ensures Marooned(st.(procs := procs)) == Marooned(st)
  {
    assert forall p :: InQueue(st.(procs := procs), p) == InQueue(st, p);
  }

  lemma HandedNotMarooned(st: State, k: Which)
    requires Workable(st) && HandsOver(st, SemOf(st, k))
    ensures Post(SemOf(st, k), st.procs.Keys).1.value !in Marooned(st)
  {
    var w := Post(SemOf(st, k), st.procs.Keys).1.value;
    assert Blocked(st, w);
    assert InWait(st.procs, w);
    PostSparesOthers(SemOf(st, k), st.procs.Keys, w);
    assert InQueue(st, w);
  }

  lemma PostMaroons(st: State, a: Action)
    requires Workable(st) && Allowed(st, a) && a.Go? && (st.procs[a.pid].pc.Release? || st.procs[a.pid].pc.Signal?)
    ensures if StrandsNow(st, a) then exists w :: w !in Marooned(st) && Marooned(After(st, a)) == Marooned(st) + {w}
            else Marooned(After(st, a)) == Marooned(st)
  {
    var st1, k := BeforePost(st, a.pid), PostsTo(st.procs[a.pid]);
    var woken := Post(SemOf(st1, k), st1.procs.Keys).1;
    PostAction(st, a);
    PostStrands(st1, k, a.grant);
    MaroonedFrame(st, st1.procs);
    hide Workable, Post, Posted, StrandsNow, After, Marooned;
    if StrandsNow(st, a) {
      HandedNotMarooned(st1, k);
      assert woken.value !in Marooned(st);
    }
  }

  ghost predicate RunStrands(st: State, run: seq<Action>)
    requires Workable(st) && AllowedRun(st, run)
    decreases |run|
  {
    run != [] && (StrandsNow(st, run[0]) || (AfterWorks(st, run[0]); RunStrands(After(st, run[0]), run[1..])))
  }

  /** Somebody is marooned at the end of a run, whatever memory was refused, exactly if some action of it did that. */
  lemma {:induction false} StrandedInRun(st: State, run: seq<Action>)
    requires Workable(st) && AllowedRun(st, run)
    ensures Marooned(Final(st, run)) == {} <==> Marooned(st) == {} && !RunStrands(st, run)
    decreases |run|
  {
    if run != [] {
      AfterWorks(st, run[0]);
      MaroonedAfter(st, run[0]);
      hide After, Workable, Allowed, StrandsNow;
      StrandedInRun(After(st, run[0]), run[1..]);
    }
  }

  /** Whatever happens afterwards, a marooned process never returns from its call. */
  lemma {:induction false} StrandedForever(st: State, run: seq<Action>, p: Pid)
    requires Workable(st) && AllowedRun(st, run) && p in Marooned(st)
    ensures var v := Final(st, run);
            p in Marooned(v) && p in v.procs && !v.procs[p].pc.Finished? && !Enabled(v, p)
    decreases |run|
  {
    if run == [] {
      assert Blocked(st, p);
    } else {
      AfterWorks(st, run[0]);
      MaroonedAfter(st, run[0]);
      hide After, Workable, Allowed, Marooned;
      StrandedForever(After(st, run[0]), run[1..], p);
    }
  }

  /**
   When a run that overlooks no refusal has come to rest, every call that has not returned waits in a queue, where a
   later call can wake it, if and only if no sem_wait that found no permit was refused its list node.
   */
  lemma RestsInQueues(st: State, run: seq<Action>)
    requires Opened(st) && Workable(st) && AllowedRun(st, run) && !RunOverlooks(st, run)
    requires forall p :: !Enabled(Final(st, run), p)
    ensures var v := Final(st, run);
            (forall p :: p in v.procs && !v.procs[p].pc.Finished? ==> InQueue(v, p)) <==> !RunStrands(st, run)
  {
    OpenedInv(st);
    EveryRun(st, run);
    StrandedInRun(st, run);
    var v := Final(st, run);
    hide Opened, AllowedRun, Final, Workable;
    if Marooned(v) == {} {
      forall p | p in v.procs && !v.procs[p].pc.Finished? ensures InQueue(v, p) {
        assert !Enabled(v, p);
        assert p !in Marooned(v);
      }
    } else {
      Inhabited(Marooned(v));
      var p :| p in Marooned(v);
      assert InWait(v.procs, p);
    }
  }

  // ---------------------------------------------------------------- a refused cell: going on without a permit

  lemma Chain(st: State, a: Action, next: State, run: seq<Action>, last: State)
    requires Workable(st) && Allowed(st, a) && After(st, a) == next && Workable(next)
    requires AllowedRun(next, run) && Final(next, run) == last
    ensures AllowedRun(st, [a] + run) && Final(st, [a] + run) == last
  {
    assert ([a] + run)[1..] == run;
  }

  /** A reader about to wait on an empty pipe of which nobody uses the mutex. */
  ghost predicate ReaderAtEmpty(st: State, p: Pid) {
    && Workable(st) && Enabled(st, p) && st.procs[p].pc.AwaitUnit? && st.procs[p].call.Reader?
    && st.ring.count == 0 && st.writers > 0 && st.semReaders.counter == 0 && st.mutex == Sem(1, [])
  }

  function Turn(p: Pid): seq<Action> {
    [Go(p, NoCell), Go(p, Granted), Go(p, Granted), Go(p, Granted)]
  }

  lemma UnitOverlooked(st: State, p: Pid)
    requires Workable(st) && Enabled(st, p) && st.procs[p].pc.AwaitUnit? && UnitSem(st, p).counter == 0
    ensures After(st, Go(p, NoCell)) == st.(procs := At(st.procs, p, AwaitMutex))
    ensures Workable(After(st, Go(p, NoCell)))
  {
    AfterWorks(st, Go(p, NoCell));
  }

  lemma MutexFree(st: State, p: Pid)
    requires Workable(st) && Enabled(st, p) && st.procs[p].pc.AwaitMutex? && st.mutex == Sem(1, [])
    ensures After(st, Go(p, Granted)) == st.(procs := At(st.procs, p, Section), mutex := Sem(0, []))
    ensures Workable(After(st, Go(p, Granted)))
  {
    AfterWorks(st, Go(p, Granted));
  }

  /** A critical section in which no byte is moved. */
  lemma SectionIdle(st: State, p: Pid, o: Outcome)
    requires Workable(st) && Enabled(st, p) && st.procs[p].pc.Section?
    requires if st.procs[p].call.Reader? then st.ring.count == 0 && st.writers > 0 && o == Retry
             else st.ring.count == PIPE_BUFFER_SIZE && o == Moved
    ensures After(st, Go(p, Granted)) == st.(procs := At(st.procs, p, Release(o)))
    ensures Workable(After(st, Go(p, Granted)))
  {
    AfterWorks(st, Go(p, Granted));
  }

  lemma ReleaseFree(st: State, p: Pid, o: Outcome)
    requires Workable(st) && Enabled(st, p) && st.procs[p].pc == Release(o) && st.mutex == Sem(0, [])
    ensures After(st, Go(p, Granted)) == st.(procs := At(st.procs, p, AfterRelease(o)), mutex := Sem(1, []))
    ensures Workable(After(st, Go(p, Granted)))
  {
    AfterWorks(st, Go(p, Granted));
    assert Purge([], st.procs.Keys) == [];
  }

  /** Where p is when it has left the critical section, and nobody uses the mutex. */
  function Out(st: State, p: Pid, o: Outcome): State
    requires p in st.procs
  {
    st.(procs := At(st.procs, p, AfterRelease(o)), mutex := Sem(1, []))
  }

  lemma FromRelease(st: State, p: Pid, o: Outcome)
    requires Workable(st) && Enabled(st, p) && st.procs[p].pc == Release(o) && st.mutex == Sem(0, [])
    ensures AllowedRun(st, [Go(p, Granted)]) && Final(st, [Go(p, Granted)]) == Out(st, p, o)
  {
    ReleaseFree(st, p, o);
    hide Workable, After;
    Chain(st, Go(p, Granted), Out(st, p, o), [], Out(st, p, o));
  }

  predicate MovesNothing(st: State, p: Pid, o: Outcome)
    requires p in st.procs
  {
    if st.procs[p].call.Reader? then st.ring.count == 0 && st.writers > 0 && o == Retry
    else st.ring.count == PIPE_BUFFER_SIZE && o == Moved
  }

  lemma FromSection(st: State, p: Pid, o: Outcome)
    requires Workable(st) && Enabled(st, p) && st.procs[p].pc.Section? && st.mutex == Sem(0, []) && MovesNothing(st, p, o)
    ensures AllowedRun(st, [Go(p, Granted), Go(p, Granted)])
    ensures Final(st, [Go(p, Granted), Go(p, Granted)]) == Out(st, p, o)
  {
    SectionIdle(st, p, o);
    var next := st.(procs := At(st.procs, p, Release(o)));
    hide Workable, After;
    FromRelease(next, p, o);
    assert Out(next, p, o) == Out(st, p, o);
    Chain(st, Go(p, Granted), next, [Go(p, Granted)], Out(st, p, o));
  }

  lemma FromMutex(st: State, p: Pid, o: Outcome)
    requires Workable(st) && Enabled(st, p) && st.procs[p].pc.AwaitMutex? && st.mutex == Sem(1, []) && MovesNothing(st, p, o)
    ensures AllowedRun(st, [Go(p, Granted), Go(p, Granted), Go(p, Granted)])
    ensures Final(st, [Go(p, Granted), Go(p, Granted), Go(p, Granted)]) == Out(st, p, o)
  {
    MutexFree(st, p);
    var next := st.(procs := At(st.procs, p, Section), mutex := Sem(0, []));
    hide Workable, After;
    FromSection(next, p, o);
    assert Out(next, p, o) == Out(st, p, o);
    Chain(st, Go(p, Granted), next, [Go(p, Granted), Go(p, Granted)], Out(st, p, o));
  }

  /** Four steps of p: into the critical section without a unit, and out again without having moved a byte. */
  lemma IdleTurn(st: State, p: Pid, o: Outcome)
    requires Workable(st) && Enabled(st, p) && st.procs[p].pc.AwaitUnit? && UnitSem(st, p).counter == 0
    requires st.mutex == Sem(1, []) && MovesNothing(st, p, o)
    ensures AllowedRun(st, Turn(p)) && Final(st, Turn(p)) == st.(procs := At(st.procs, p, AfterRelease(o)))
  {
    UnitOverlooked(st, p);
    var next := st.(procs := At(st.procs, p, AwaitMutex));
    hide Workable, After;
    FromMutex(next, p, o);
    assert Out(next, p, o) == Out(st, p, o) == st.(procs := At(st.procs, p, AfterRelease(o)));
    Chain(st, Go(p, NoCell), next, [Go(p, Granted), Go(p, Granted), Go(p, Granted)], Out(st, p, o));
  }

  /** Refused its cell, the reader goes through the critical section, takes the retry branch, and is back where it was. */
  lemma RetryTurn(st: State, p: Pid)
    requires ReaderAtEmpty(st, p)
    ensures AllowedRun(st, Turn(p)) && Final(st, Turn(p)) == st
    ensures var s := st.procs;
            StepSection(st.(procs := At(s, p, Section), mutex := Sem(0, [])), p).procs[p].pc == Release(Retry)
  {
    assert At(st.procs, p, AwaitUnit) == st.procs;
    IdleTurn(st, p, Retry);
  }

  function Turns(p: Pid, k: nat): seq<Action> {
    if k == 0 then [] else Turn(p) + Turns(p, k - 1)
  }

  lemma {:induction false} RunsCompose(st: State, a: seq<Action>, b: seq<Action>)
    requires Workable(st) && AllowedRun(st, a) && Workable(Final(st, a)) && AllowedRun(Final(st, a), b)
    ensures AllowedRun(st, a + b) && Final(st, a + b) == Final(Final(st, a), b)
    decreases |a|
  {
    if a == [] {
      assert a + b == b;
    } else {
      AfterWorks(st, a[0]);
      RunsCompose(After(st, a[0]), a[1..], b);
      assert (a + b)[0] == a[0] && (a + b)[1..] == a[1..] + b;
    }
  }

  lemma StepsCompose(a: seq<Action>, b: seq<Action>)
    ensures Steps(a + b) == Steps(a) + Steps(b) && Requested(a + b) == Requested(a) + Requested(b)
    decreases |a|
  {
    if a == [] {
      assert a + b == b;
    } else {
      StepsCompose(a[1..], b);
      assert (a + b)[1..] == a[1..] + b;
    }
  }

  lemma TurnSteps(p: Pid)
    ensures Steps(Turn(p)) == 4 && Requested(Turn(p)) == 0
  {
    assert Turn(p) == [Go(p, NoCell)] + ([Go(p, Granted)] + ([Go(p, Granted)] + [Go(p, Granted)]));
    StepsCompose([Go(p, Granted)], [Go(p, Granted)]);
    StepsCompose([Go(p, Granted)], [Go(p, Granted)] + [Go(p, Granted)]);
    StepsCompose([Go(p, NoCell)], [Go(p, Granted)] + ([Go(p, Granted)] + [Go(p, Granted)]));
    assert Steps([Go(p, Granted)]) == 1 && Steps([Go(p, NoCell)]) == 1;
  }

  lemma {:induction false} ManyTurns(st: State, p: Pid, k: nat)
    requires ReaderAtEmpty(st, p)
    ensures AllowedRun(st, Turns(p, k)) && Final(st, Turns(p, k)) == st
    ensures Steps(Turns(p, k)) == 4 * k && Requested(Turns(p, k)) == 0
  {
    if k > 0 {
      RetryTurn(st, p);
      TurnSteps(p);
      hide ReaderAtEmpty, Workable, Turn;
      ManyTurns(st, p, k - 1);
      RunsCompose(st, Turn(p), Turns(p, k - 1));
      StepsCompose(Turn(p), Turns(p, k - 1));
    }
  }

  /**
   A run that fails: from an opened pipe, a single reader that is refused its cell each time retries as often as one
   likes and gets nowhere, however little it asked for.
   */
  lemma RetriesForever(st: State, p: Pid, size: nat, k: nat)
    requires Opened(st) && Workable(st) && size > 0
    ensures var run := [Begin(p, Reader(size, []))] + Turns(p, k);
            && AllowedRun(st, run) && Steps(run) == 4 * k && Requested(run) == size
            && Final(st, run) == Start(st, p, Reader(size, [])) && (k > 0 ==> RunOverlooks(st, run))
  {
    var a := Begin(p, Reader(size, []));
    var next := After(st, a);
    AfterWorks(st, a);
    ManyTurns(next, p, k);
    Chain(st, a, next, Turns(p, k), next);
    StepsCompose([a], Turns(p, k));
    var run := [a] + Turns(p, k);
    assert run[1..] == Turns(p, k);
    if k > 0 {
      assert Turns(p, k)[0] == Go(p, NoCell);
    }
  }

  // ---------------------------------------------------------------- a byte that is dropped

  /** A writer about to wait on a full pipe of which nobody uses the mutex. */
  ghost predicate WriterAtFull(st: State, p: Pid) {
    && Workable(st) && Enabled(st, p) && st.procs[p].pc.AwaitUnit? && st.procs[p].call.Writer?
    && st.ring.count == PIPE_BUFFER_SIZE && st.semWriters.counter == 0 && st.mutex == Sem(1, [])
  }

  /**
   Refused its cell, the writer goes through the critical section without storing its byte, and goes on to the next
   one; it posts semReaders for a byte that is not there.
   */
  lemma DropsByte(st: State, p: Pid)
    requires WriterAtFull(st, p)
    ensures AllowedRun(st, Turn(p))
    ensures var v := Final(st, Turn(p));
            && Workable(v) && Enabled(v, p) && v.procs[p].pc == Signal(false)
            && var w := StepSignal(v, p, Granted);
               && w.ring == st.ring && w.written == st.written && p in w.procs
               && w.procs[p].i == st.procs[p].i + 1 && w.procs[p].call == st.procs[p].call
               && w.semReaders == Post(st.semReaders, st.procs.Keys).0
  {
    var v := st.(procs := At(st.procs, p, Signal(false)));
    IdleTurn(st, p, Moved);
    UpdateWorks(st, p, v.procs[p]);
    assert v.procs.Keys == st.procs.Keys && v.procs[p] == st.procs[p].(pc := Signal(false));
    hide Workable, Post, StepSignal, AllowedRun, Final;
    PostSelf(v, p, Granted);
  }

  /** What a process that posts at the end of its turn looks like afterwards. */
  lemma PostSelf(v: State, p: Pid, g: Grant)
    requires Workable(v) && Enabled(v, p) && v.procs[p].pc == Signal(false) && v.procs[p].call.Writer?
    ensures var w := StepSignal(v, p, g);
            && p in w.procs && w.procs[p].i == v.procs[p].i + 1 && w.procs[p].call == v.procs[p].call
            && w.ring == v.ring && w.written == v.written && w.semReaders == Post(v.semReaders, v.procs.Keys).0
  {
    hide Workable, Post;
  }
}
