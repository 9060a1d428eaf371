/**
 What refused cells cost a pipe, in numbers. A sem_wait that goes on without a permit makes a debt; a reader that retries
 or a writer that drops its byte pays one back. The balance of permits, bytes and debts holds in every run.
 */
module PipeDebts {
  import opened SemaphoreSpec
  import opened PipeRing
  import opened PipeProtocol
  import opened PipeProofs
  import opened PipeTheorems
  import opened PipeRefusals

  /** How often a reader and a writer went on without a unit and anybody without the mutex; retries, and bytes dropped. */
  datatype Ledger = Ledger(readers: nat, writers: nat, locks: nat, retries: nat, drops: nat)

  const Clear := Ledger(0, 0, 0, 0, 0)

  /** The only refusals are of cells and of list nodes. */
  predicate Calm(a: Action) {
    a.Go? ==> a.grant == Granted || a.grant == NoCell || a.grant == NoNode
  }

  /** A reader in its section finds the ring empty, or a writer finds it full. */
  predicate Retries(st: State, a: Action)
    requires Allowed(st, a)
  {
    a.Go? && st.procs[a.pid].pc.Section? && st.procs[a.pid].call.Reader? && st.ring.count == 0
  }

  predicate Drops(st: State, a: Action)
    requires Allowed(st, a)
  {
    a.Go? && st.procs[a.pid].pc.Section? && st.procs[a.pid].call.Writer? && st.ring.count == PIPE_BUFFER_SIZE
  }

  /** The ledger after an action. */
  function Booked(st: State, a: Action, l: Ledger): Ledger
    requires Allowed(st, a)
  {
    if Retries(st, a) then l.(retries := l.retries + 1)
    else if Drops(st, a) then l.(drops := l.drops + 1)
    else if !OverlooksNow(st, a) then l
    else if st.procs[a.pid].pc.AwaitMutex? then l.(locks := l.locks + 1)
    else if st.procs[a.pid].call.Reader? then l.(readers := l.readers + 1)
    else l.(writers := l.writers + 1)
  }

  /** Items around, free, held or owed, and slots likewise. */
  ghost function ItemsAround(st: State): nat {
    st.semReaders.counter + Num(st.procs, HoldsItem) + Num(st.procs, OwesItem)
  }

  ghost function SlotsAround(st: State): nat {
    st.semWriters.counter + Num(st.procs, HoldsSlot) + Num(st.procs, OwesSlot)
  }

  /** Every item around is a byte of the ring or a debt that was not paid back, and every slot a place or a debt. */
  ghost predicate Settled(st: State, l: Ledger) {
    && ItemsAround(st) + l.retries == st.ring.count + l.readers + l.drops
    && SlotsAround(st) + st.ring.count + l.drops == 512 + l.writers
    && st.mutex.counter + Num(st.procs, InSection) == 1 + l.locks
    && l.drops <= l.writers && l.retries <= l.readers + l.drops
  }

  /** The part of the invariant that refused cells leave alone. */
  ghost predicate Loose(st: State) {
    Workable(st) && Queued(st) && SemsOk(st)
  }

  /** Counters stay below 2^32, and nobody waits while one is positive. */
  ghost predicate SemsOk(st: State) {
    st.writers > 0 && SemOk(st.semReaders) && SemOk(st.semWriters) && SemOk(st.mutex)
  }

  /** So few refusals that no counter can overflow. */
  predicate Few(l: Ledger) {
    l.readers + l.writers + l.locks < 0xFFFF_F800
  }

  // ---------------------------------------------------------------- one step

  /** The balance of the ledger, on counters and numbers. */
  predicate Even(slotsFree: int, itemsFree: int, mutexFree: int, count: int, c: Counts, l: Ledger) {
    && itemsFree + c.items + c.owedItems + l.retries == count + l.readers + l.drops
    && slotsFree + c.slots + c.owedSlots + count + l.drops == 512 + l.writers
    && mutexFree + c.inside == 1 + l.locks
    && l.drops <= l.writers && l.retries <= l.readers + l.drops
  }

  lemma SettledIsEven(st: State, l: Ledger)
    ensures Settled(st, l) <==>
              Even(st.semWriters.counter, st.semReaders.counter, st.mutex.counter, st.ring.count, Tallied(st.procs), l)
  {
  }

  lemma CountersFit(st: State, l: Ledger, k: Which)
    requires Settled(st, l) && Few(l)
    ensures SemOf(st, k).counter + 1 < TWO_32
  {
  }

  /** What a sem_wait does after which the caller goes on: it takes a permit if there is one. */
  lemma GoingIs(st: State, p: Pid, g: Grant)
    requires Workable(st) && Enabled(st, p) && InWait(st.procs, p)
    requires SemOf(st, MineOf(st.procs[p])).counter > 0 || g == NoCell
    ensures var k := MineOf(st.procs[p]);
            var s := SemOf(st, k);
            PipeStep(st, p, g)
            == WithSem(st, k, s.(counter := s.counter - Bit(s.counter > 0))).(procs := At(st.procs, p, Advance(st.procs[p].pc)))
  {
    hide Workable;
    var k := MineOf(st.procs[p]);
    assert Wait(SemOf(st, k), p, g).0 == SemOf(st, k).(counter := SemOf(st, k).counter - Bit(SemOf(st, k).counter > 0));
    assert GoesOn(Wait(SemOf(st, k), p, g).1);
    hide Wait, GoesOn;
    if st.procs[p].pc.AwaitMutex? {
      assert PipeStep(st, p, g) == StepMutex(st, p, g);
    } else {
      assert PipeStep(st, p, g) == StepUnit(st, p, g);
    }
  }

  /** The books after that. */
  lemma GoingBooks(st: State, p: Pid, g: Grant, l: Ledger)
    requires Enabled(st, p) && InWait(st.procs, p)
    requires SemOf(st, MineOf(st.procs[p])).counter > 0 || g == NoCell
    ensures var k := MineOf(st.procs[p]);
            Booked(st, Go(p, g), l)
            == if SemOf(st, k).counter > 0 then l
               else if k.Lock? then l.(locks := l.locks + 1)
               else if k.Items? then l.(readers := l.readers + 1)
               else l.(writers := l.writers + 1)
  {
  }

  lemma GoingSettles(st: State, p: Pid, g: Grant, l: Ledger)
    requires Loose(st) && Settled(st, l) && Enabled(st, p) && InWait(st.procs, p)
    requires SemOf(st, MineOf(st.procs[p])).counter > 0 || g == NoCell
    ensures Queued(PipeStep(st, p, g)) && Settled(PipeStep(st, p, g), Booked(st, Go(p, g), l))
  {
    var pr := st.procs[p];
    var n := pr.(pc := Advance(pr.pc));
    var st' := PipeStep(st, p, g);
    GoingIs(st, p, g);
    GoingBooks(st, p, g, l);
    hide Queued, Tallied, Num, Workable, PipeStep, Booked, Settled, One, Shift;
    PermitCounts(pr, MineOf(pr), Tallied(st.procs));
    UpdateQueued(st, p, n);
    QueuedFrame(st.(procs := st.procs[p := n]), st');
    TalliedUpdate(st.procs, p, n);
    SettledIsEven(st, l);
    SettledIsEven(st', Booked(st, Go(p, g), l));
  }

  lemma SettledFrame(st: State, st': State, l: Ledger)
    requires Settled(st, l) && st'.procs == st.procs && st'.ring == st.ring && st'.mutex.counter == st.mutex.counter
    requires st'.semReaders.counter == st.semReaders.counter && st'.semWriters.counter == st.semWriters.counter
    ensures Settled(st', l)
  {
  }

  lemma WaitSettles(st: State, p: Pid, g: Grant, l: Ledger)
    requires Loose(st) && Settled(st, l) && Enabled(st, p) && InWait(st.procs, p) && Calm(Go(p, g))
    ensures Queued(PipeStep(st, p, g)) && Settled(PipeStep(st, p, g), Booked(st, Go(p, g), l))
  {
    var k := MineOf(st.procs[p]);
    var st' := PipeStep(st, p, g);
    if SemOf(st, k).counter > 0 || g == NoCell {
      GoingSettles(st, p, g, l);
    } else {
      assert Booked(st, Go(p, g), l) == l;
      hide Queued, Settled, Workable, Booked;
      if g == NoNode {
        Strands(st, p);
        assert st' == st.(blocked := st.blocked + {p});
      } else {
        JoinQueued(st, p, 0);
        assert st' == WithSem(st, k, Sem(0, SemOf(st, k).queue + [p])).(blocked := st.blocked + {p});
      }
      SettledFrame(st, st', l);
    }
  }

  lemma Strands(st: State, p: Pid)
    requires Queued(st) && InWait(st.procs, p)
    ensures Queued(st.(blocked := st.blocked + {p}))
  {
    hide QueueOk;
    assert forall q :: InQueue(st.(blocked := st.blocked + {p}), q) ==> InQueue(st, q);
  }

  /** Whoever is in a section holds a unit. */
  lemma SectionHolds(st: State, p: Pid)
    requires p in st.procs && st.procs[p].pc.Section?
    ensures st.procs[p].call.Reader? ==> ItemsAround(st) > 0
    ensures st.procs[p].call.Writer? ==> SlotsAround(st) > 0
  {
    if st.procs[p].call.Reader? {
      NumPositive(st.procs, p, HoldsItem);
    } else {
      NumPositive(st.procs, p, HoldsSlot);
    }
  }

  /** What happens in a section, in numbers. */
  lemma SectionCounts(st: State, p: Pid)
    requires Workable(st) && st.writers > 0 && p in st.procs && st.procs[p].pc.Section?
    requires st.procs[p].call.Writer? ==> st.procs[p].i < |st.procs[p].call.data|
    ensures var v, reading := StepSection(st, p), st.procs[p].call.Reader?;
            var moves := if reading then st.ring.count > 0 else st.ring.count < PIPE_BUFFER_SIZE;
            && v == st.(ring := v.ring, procs := st.procs[p := v.procs[p]], written := v.written, delivered := v.delivered)
            && v.ring.count == st.ring.count + (if !moves then 0 else if reading then -1 else 1)
            && One(v.procs[p]) == Counts(0, 0, Bit(!reading), Bit(reading && moves), 1)
  {
    if st.procs[p].call.Reader? && st.ring.count > 0 {
      DropPops(st.ring);
    } else if st.procs[p].call.Writer? && st.ring.count < PIPE_BUFFER_SIZE {
      PutAppends(st.ring, st.procs[p].call.data[st.procs[p].i]);
    }
    hide PipeRing.Valid, Put, Drop, Front, Held, Steady;
  }

  lemma SectionSettles(st: State, p: Pid, g: Grant, l: Ledger)
    requires Loose(st) && Settled(st, l) && Enabled(st, p) && st.procs[p].pc.Section?
    ensures Queued(PipeStep(st, p, g)) && Settled(PipeStep(st, p, g), Booked(st, Go(p, g), l))
  {
    assert Steady(st.procs[p]) && 0 <= st.ring.count <= PIPE_BUFFER_SIZE;
    SectionHolds(st, p);
    SectionCounts(st, p);
    var st' := StepSection(st, p);
    hide StepSection, Queued, Tallied, Num, PipeRing.Valid, Workable;
    UpdateQueued(st, p, st'.procs[p]);
    QueuedFrame(st.(procs := st.procs[p := st'.procs[p]]), st');
    TalliedUpdate(st.procs, p, st'.procs[p]);
    SettledIsEven(st, l);
    SettledIsEven(st', Booked(st, Go(p, g), l));
  }

  /** The state after the caller of a post moved on: the permit to be posted is missing so far. */
  ghost predicate Owing(st: State, k: Which, l: Ledger) {
    && Queued(st) && SemOf(st, k).counter + 1 < TWO_32
    && Even(st.semWriters.counter + Bit(k.Slots?), st.semReaders.counter + Bit(k.Items?), st.mutex.counter + Bit(k.Lock?),
            st.ring.count, Tallied(st.procs), l)
  }

  lemma PostSettles(st: State, k: Which, g: Grant, l: Ledger)
    requires Owing(st, k, l) && g != NoWake
    ensures Queued(Posted(st, k, g)) && Settled(Posted(st, k, g), l)
  {
    PostFacts(st, k);
    var st' := Posted(st, k, g);
    var s := SemOf(st, k);
    hide Tallied, Post, Queued;
    if s.queue == [] {
      assert st' == WithSem(st, k, Sem(s.counter + 1, []));
      QueuedFrame(st, st');
    } else {
      WokenQueued(st, k, s.counter);
      HeadWaits(st, k);
      hide Posted;
      HandedEven(st, k, l);
    }
    SettledIsEven(st', l);
  }

  lemma HandedEven(st: State, k: Which, l: Ledger)
    requires Owing(st, k, l) && SemOf(st, k).queue != []
    ensures var w := SemOf(st, k).queue[0];
            w in st.procs && Even(st.semWriters.counter, st.semReaders.counter, st.mutex.counter, st.ring.count,
                                  Tallied(Resume(st.procs, w)), l)
  {
    hide Tallied, Queued;
    HeadWaits(st, k);
    HeadTallied(st, k);
  }

  lemma MovesOn(st: State, p: Pid, l: Ledger)
    requires Loose(st) && Settled(st, l) && Few(l) && Enabled(st, p) && (st.procs[p].pc.Release? || st.procs[p].pc.Signal?)
    ensures Owing(BeforePost(st, p), PostsTo(st.procs[p]), l)
  {
    var st1, k := BeforePost(st, p), PostsTo(st.procs[p]);
    assert Steady(st.procs[p]);
    hide Queued, Tallied, Num, PipeRing.Valid;
    CountersFit(st, l, k);
    UpdateQueued(st, p, st1.procs[p]);
    TalliedUpdate(st.procs, p, st1.procs[p]);
    SettledIsEven(st, l);
  }

  lemma StepSettles(st: State, p: Pid, g: Grant, l: Ledger)
    requires Loose(st) && Settled(st, l) && Few(l) && Enabled(st, p) && Calm(Go(p, g))
    ensures Queued(PipeStep(st, p, g)) && Settled(PipeStep(st, p, g), Booked(st, Go(p, g), l))
  {
    match st.procs[p].pc
    case Section => SectionSettles(st, p, g, l);
    case Release(_) => PostsSettle(st, p, g, l);
    case Signal(_) => PostsSettle(st, p, g, l);
    case AwaitUnit => WaitSettles(st, p, g, l);
    case AwaitMutex => WaitSettles(st, p, g, l);
  }

  lemma PostsSettle(st: State, p: Pid, g: Grant, l: Ledger)
    requires Loose(st) && Settled(st, l) && Few(l) && Enabled(st, p) && (st.procs[p].pc.Release? || st.procs[p].pc.Signal?)
    requires Calm(Go(p, g))
    ensures Queued(PipeStep(st, p, g)) && Settled(PipeStep(st, p, g), Booked(st, Go(p, g), l))
  {
    hide Queued, Settled, Workable, Post, Owing;
    MovesOn(st, p, l);
    PostSettles(BeforePost(st, p), PostsTo(st.procs[p]), g, l);
    assert BeforePost(st, p).procs.Keys == st.procs.Keys;
    assert PipeStep(st, p, g) == Posted(BeforePost(st, p), PostsTo(st.procs[p]), g);
  }

  lemma BeginSettles(st: State, p: Pid, c: Call, l: Ledger)
    requires Loose(st) && Settled(st, l) && CanStart(st, p, c)
    ensures Queued(After(st, Begin(p, c))) && Settled(After(st, Begin(p, c)), l)
  {
    var st' := After(st, Begin(p, c));
    var n := st'.procs[p];
    assert p in st.blocked ==> Blocked(st, p);
    UpdateQueued(st, p, n);
    hide Queued, Workable;
    NewCall(st.procs, p, n, HoldsSlot);
    NewCall(st.procs, p, n, HoldsItem);
    NewCall(st.procs, p, n, OwesItem);
    NewCall(st.procs, p, n, OwesSlot);
    NewCall(st.procs, p, n, InSection);
    hide Num;
  }

  predicate SameSems(st: State, st': State) {
    && st'.writers == st.writers && st'.semReaders == st.semReaders && st'.semWriters == st.semWriters
    && st'.mutex == st.mutex
  }

  lemma OneSem(st: State, k: Which, s: Sem, st': State)
    requires SemsOk(st) && SemOk(s) && SameSems(WithSem(st, k, s), st')
    ensures SemsOk(st')
  {
    hide SemOk;
  }

  lemma WaitOk(s: Sem, p: Pid, g: Grant)
    requires SemOk(s)
    ensures SemOk(Wait(s, p, g).0)
  {
  }

  lemma PostOk(s: Sem, live: set<Pid>)
    requires SemOk(s)
    ensures SemOk(Post(s, live).0)
  {
  }

  lemma WaitSems(st: State, p: Pid, g: Grant)
    requires Workable(st) && Enabled(st, p) && InWait(st.procs, p)
    ensures var k := MineOf(st.procs[p]); SameSems(WithSem(st, k, Wait(SemOf(st, k), p, g).0), PipeStep(st, p, g))
  {
    hide Workable, Wait;
  }

  lemma PostSems(st: State, p: Pid, g: Grant)
    requires Workable(st) && Enabled(st, p) && (st.procs[p].pc.Release? || st.procs[p].pc.Signal?)
    ensures var k := PostsTo(st.procs[p]);
            SameSems(WithSem(st, k, Post(SemOf(st, k), st.procs.Keys).0), PipeStep(st, p, g))
  {
    hide Workable, Post, Resume, NextTurn;
  }

  lemma SemsStay(st: State, a: Action)
    requires Workable(st) && SemsOk(st) && Allowed(st, a)
    ensures SemsOk(After(st, a))
  {
    if a.Begin? {
      hide Workable, SemOk;
    } else if InWait(st.procs, a.pid) {
      var k := MineOf(st.procs[a.pid]);
      WaitOk(SemOf(st, k), a.pid, a.grant);
      WaitSems(st, a.pid, a.grant);
      hide Workable, Wait, SemsOk, PipeStep, SameSems;
      OneSem(st, k, Wait(SemOf(st, k), a.pid, a.grant).0, After(st, a));
    } else if st.procs[a.pid].pc.Section? {
      assert Steady(st.procs[a.pid]);
      SectionCounts(st, a.pid);
      hide Workable, StepSection, SemOk;
    } else {
      var k := PostsTo(st.procs[a.pid]);
      PostOk(SemOf(st, k), st.procs.Keys);
      PostSems(st, a.pid, a.grant);
      hide Workable, Post, SemsOk, PipeStep, SameSems;
      OneSem(st, k, Post(SemOf(st, k), st.procs.Keys).0, After(st, a));
    }
  }

  /** Every action keeps the balance, whatever cells and list nodes are refused. */
  lemma ActionSettles(st: State, a: Action, l: Ledger)
    requires Loose(st) && Settled(st, l) && Few(l) && Allowed(st, a) && Calm(a)
    ensures Loose(After(st, a)) && Settled(After(st, a), Booked(st, a, l))
  {
    AfterWorks(st, a);
    SemsStay(st, a);
    match a
    case Begin(p, c) => BeginSettles(st, p, c, l);
    case Go(p, g) => StepSettles(st, p, g, l);
  }

  // ---------------------------------------------------------------- runs

  predicate CalmRun(run: seq<Action>) {
    forall a :: a in run ==> Calm(a)
  }

  /** The ledger at the end of a run. */
  ghost function Books(st: State, run: seq<Action>, l: Ledger): Ledger
    requires Workable(st) && AllowedRun(st, run)
    decreases |run|
  {
    if run == [] then l
    else
      AfterWorks(st, run[0]);
      Books(After(st, run[0]), run[1..], Booked(st, run[0], l))
  }

  lemma BookedFew(st: State, a: Action, l: Ledger)
    requires Allowed(st, a)
    ensures var m := Booked(st, a, l); m.readers + m.writers + m.locks <= l.readers + l.writers + l.locks + 1
  {
  }

  /** The balance of permits, bytes and debts after any run. */
  lemma {:induction false} RunSettles(st: State, run: seq<Action>, l: Ledger)
    requires Loose(st) && Settled(st, l) && AllowedRun(st, run) && CalmRun(run)
    requires l.readers + l.writers + l.locks + |run| < 0xFFFF_F800
    ensures Loose(Final(st, run)) && Settled(Final(st, run), Books(st, run, l))
    decreases |run|
  {
    if run != [] {
      assert run[0] in run;
      AfterWorks(st, run[0]);
      ActionSettles(st, run[0], l);
      BookedFew(st, run[0], l);
      hide Loose, Settled, After, Workable, Allowed, Booked, Calm;
      RunSettles(After(st, run[0]), run[1..], Booked(st, run[0], l));
    }
  }

  lemma OpenedSettles(st: State)
    requires Opened(st) && Workable(st)
    ensures Loose(st) && Settled(st, Clear)
  {
    OpenedInv(st);
  }

  /**
   After any run from an opened pipe, whatever cells and list nodes were refused: permits, bytes and debts balance; every
   dropped byte took a writer that had gone on without a slot, and every retry a reader that had gone on without an item or
   a dropped byte.
   */
  lemma DebtsBalance(st: State, run: seq<Action>)
    requires Opened(st) && Workable(st) && AllowedRun(st, run) && CalmRun(run) && |run| < 0xFFFF_F800
    ensures var v, l := Final(st, run), Books(st, run, Clear);
            && ItemsAround(v) + l.retries == v.ring.count + l.readers + l.drops
            && SlotsAround(v) + v.ring.count + l.drops == 512 + l.writers
            && v.mutex.counter + Num(v.procs, InSection) == 1 + l.locks
            && l.drops <= l.writers && l.retries <= l.readers + l.drops
  {
    OpenedSettles(st);
    RunSettles(st, run, Clear);
  }

  /**
   When a reader retries and when a writer drops its byte: exactly when every item, or every slot, that is around, its own
   included, is a debt not yet paid back.
   */
  lemma IdlesIff(st: State, run: seq<Action>, p: Pid)
    requires Opened(st) && Workable(st) && AllowedRun(st, run) && CalmRun(run) && |run| < 0xFFFF_F800
    requires Enabled(Final(st, run), p) && Final(st, run).procs[p].pc.Section?
    ensures var v, l := Final(st, run), Books(st, run, Clear);
            && Workable(v) && (v.procs[p].call.Writer? ==> v.procs[p].i < |v.procs[p].call.data|)
            && (v.procs[p].call.Reader? ==>
                  (StepSection(v, p).procs[p].pc == Release(Retry) <==> ItemsAround(v) + l.retries == l.readers + l.drops))
            && (v.procs[p].call.Writer? ==>
                  (StepSection(v, p).written == v.written <==> SlotsAround(v) + l.drops == l.writers))
  {
    OpenedSettles(st);
    RunSettles(st, run, Clear);
    var v := Final(st, run);
    hide AllowedRun, Final, Opened;
    assert Steady(v.procs[p]);
    SectionCounts(v, p);
  }

  // ---------------------------------------------------------------- who pays

  /** Reader a is about to wait for an item, and b has got one, the only byte that there is; nobody uses the mutex. */
  ghost predicate OneByteForTwo(st: State, a: Pid, b: Pid) {
    && Workable(st) && Enabled(st, a) && Enabled(st, b) && a != b && st.procs[a].call.Reader? && st.procs[b].call.Reader?
    && st.procs[a].pc.AwaitUnit? && st.procs[b].pc.AwaitMutex? && st.mutex == Sem(1, []) && st.semReaders.counter == 0
    && st.ring.count == 1 && st.writers > 0
  }

  /** a goes through its section although its cell is refused, and takes the byte. */
  lemma TakesAnyway(st: State, a: Pid, b: Pid)
    requires OneByteForTwo(st, a, b)
    ensures var run := [Go(a, NoCell), Go(a, Granted), Go(a, Granted), Go(a, Granted)];
            && AllowedRun(st, run)
            && var v := Final(st, run);
               && Workable(v) && Enabled(v, b) && v.procs[b] == st.procs[b] && v.mutex == Sem(1, []) && v.ring.count == 0
               && v.writers > 0
  {
    var s1 := st.(procs := At(st.procs, a, AwaitMutex));
    UnitOverlooked(st, a);
    var s2 := s1.(procs := At(s1.procs, a, Section), mutex := Sem(0, []));
    MutexFree(s1, a);
    SectionCounts(s2, a);
    var s3 := StepSection(s2, a);
    AfterWorks(s2, Go(a, Granted));
    assert s3.procs[a].pc == Release(Moved);
    hide Workable, After, StepSection;
    FromRelease(s3, a, Moved);
    var last := Out(s3, a, Moved);
    ReleaseFree(s3, a, Moved);
    Chain(s2, Go(a, Granted), s3, [Go(a, Granted)], last);
    Chain(s1, Go(a, Granted), s2, [Go(a, Granted), Go(a, Granted)], last);
    Chain(st, Go(a, NoCell), s1, [Go(a, Granted), Go(a, Granted), Go(a, Granted)], last);
  }

  /** The one who retries need not be the one who was refused: a's debt is paid by b, who had its permit. */
  lemma AnotherRetries(st: State, a: Pid, b: Pid)
    requires OneByteForTwo(st, a, b)
    ensures var run := [Go(a, NoCell), Go(a, Granted), Go(a, Granted), Go(a, Granted)] + [Go(b, Granted), Go(b, Granted)];
            && AllowedRun(st, run)
            && var v := Final(st, run); b in v.procs && v.procs[b].pc == Release(Retry)
  {
    var first := [Go(a, NoCell), Go(a, Granted), Go(a, Granted), Go(a, Granted)];
    TakesAnyway(st, a, b);
    var s4 := Final(st, first);
    hide AllowedRun, Final, Workable;
    MutexFree(s4, b);
    var s5 := s4.(procs := At(s4.procs, b, Section), mutex := Sem(0, []));
    SectionIdle(s5, b, Retry);
    var s6 := s5.(procs := At(s5.procs, b, Release(Retry)));
    hide After;
    NoSteps(s6);
    Chain(s5, Go(b, Granted), s6, [], s6);
    Chain(s4, Go(b, Granted), s5, [Go(b, Granted)], s6);
    RunsCompose(st, first, [Go(b, Granted), Go(b, Granted)]);
  }

  lemma NoSteps(st: State)
    requires Workable(st)
    ensures AllowedRun(st, []) && Final(st, []) == st
  {
  }
}
