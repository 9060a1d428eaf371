/**
 The synchronisation test: any number of my_process_inc clients that add to one shared variable
 through slowInc, interleaved at every semaphore call, load and store. Any sem_wait and sem_post may be refused
 memory; the clients ignore the results.
 */
module TestSync {
  import opened Words
  import opened SemaphoreSpec
  import opened Sums

  datatype Pc =
    | Enter            // about to call sem_wait, or blocked in it
    | Load             // about to read the shared variable
    | Yielded(aux: int)// has read it and yielded; about to add and store
    | Leave            // about to call sem_post
    | Done

  /** n rounds of adding inc; `rounds` counts the stores already made. */
  datatype Client = Client(n: nat, inc: int, rounds: nat, pc: Pc)

  /**
   `blocked` are the clients in the scheduler's list of blocked processes, and `lost` those that were taken off it and got
   into no other list.
   */
  datatype State = State(sem: Sem, global: int, clients: map<Pid, Client>, blocked: set<Pid>, lost: set<Pid>)

  predicate Enabled(st: State, p: Pid) {
    p in st.clients && !st.clients[p].pc.Done? && p !in st.blocked && p !in st.lost
  }

  /** Blocked where no sem_post will ever find it. */
  predicate Adrift(st: State, p: Pid) {
    p in st.lost || (p in st.blocked && p !in st.sem.queue)
  }

  ghost function Marooned(st: State): set<Pid> {
    set p | p in st.blocked + st.lost && Adrift(st, p)
  }

  function Moved(st: State, p: Pid, pc: Pc): State
    requires p in st.clients
  {
    st.(clients := st.clients[p := st.clients[p].(pc := pc)])
  }

  function NextRound(c: Client): Pc {
    if c.rounds < c.n then Enter else Done
  }

  /**
   What sem_post does to the client to whom it hands the permit: it wakes it if it is blocked, unless the ready list has
   no node for it.
   */
  function Wake(st: State, woken: Option<Pid>, g: Grant): State {
    if woken.None? || woken.value !in st.blocked then st
    else
      var w := woken.value;
      if g == NoWake then st.(blocked := st.blocked - {w}, lost := st.lost + {w})
      else if w !in st.clients then st.(blocked := st.blocked - {w})
      else Moved(st.(blocked := st.blocked - {w}), w, Load)
  }

  /**
   One atomic step of a client; without semaphores sem_wait and sem_post are skipped. g is what memory its semaphore call
   is refused, if any.
   */
  function SyncStep(st: State, p: Pid, useSem: bool, g: Grant): State
    requires p in st.clients
  {
    var c := st.clients[p];
    match c.pc
    case Enter =>
      if !useSem then Moved(st, p, Load)
      else
        var (s, r) := Wait(st.sem, p, g);
        if GoesOn(r) then Moved(st.(sem := s), p, Load) else st.(sem := s, blocked := st.blocked + {p})
    case Load => Moved(st, p, Yielded(U64(st.global)))
    case Yielded(aux) =>
      st.(global := S64(U64(aux + c.inc)), clients := st.clients[p := c.(rounds := c.rounds + 1, pc := Leave)])
    case Leave =>
      var st1 := Moved(st, p, NextRound(c));
      if !useSem then st1
      else
        var (s, woken) := Post(st.sem, st.clients.Keys);
        Wake(st1.(sem := s), woken, g)
    case Done => st
  }

  /** The client finds no permit, and is refused some memory. */
  predicate Refused(st: State, p: Pid, useSem: bool, g: Grant)
    requires p in st.clients
  {
    useSem && g != Granted && g != NoWake && st.clients[p].pc.Enter? && st.sem.counter == 0
  }

  /** The client hands a permit to a blocked one. */
  predicate HandsOver(st: State, p: Pid, useSem: bool)
    requires p in st.clients
  {
    var woken := Post(st.sem, st.clients.Keys).1;
    useSem && st.clients[p].pc.Leave? && woken.Some? && woken.value in st.blocked
  }

  /**
   A refusal that changes how many permits there are: the client goes on without one, because its cell is refused or it
   cannot be blocked, or it cannot wake whom it hands its own to.
   */
  predicate Overlooks(st: State, p: Pid, useSem: bool, g: Grant)
    requires p in st.clients
  {
    (Refused(st, p, useSem, g) && (g == NoCell || g == NoBlock)) || (g == NoWake && HandsOver(st, p, useSem))
  }

  predicate Holds(c: Client) {
    c.pc.Load? || c.pc.Yielded? || c.pc.Leave?
  }

  ghost function Holders(clients: map<Pid, Client>): set<Pid> {
    set p | p in clients && Holds(clients[p])
  }

  /** What each client has added so far. */
  ghost function Added(clients: map<Pid, Client>): map<Pid, int> {
    map p | p in clients :: clients[p].rounds * clients[p].inc
  }

  /** What each client is to add in all. */
  ghost function Planned(clients: map<Pid, Client>): map<Pid, int> {
    map p | p in clients :: clients[p].n * clients[p].inc
  }

  predicate ClientOk(c: Client, global: int) {
    && c.rounds <= c.n
    && (c.pc.Enter? || c.pc.Load? || c.pc.Yielded? ==> c.rounds < c.n)
    && (c.pc.Yielded? ==> c.pc.aux == U64(global))
    && (c.pc.Done? ==> c.rounds == c.n)
  }

  ghost predicate WaitersOk(st: State) {
    && (forall i :: 0 <= i < |st.sem.queue| ==> st.sem.queue[i] in st.clients && st.clients[st.sem.queue[i]].pc == Enter)
    && (forall i, j :: 0 <= i < j < |st.sem.queue| ==> st.sem.queue[i] != st.sem.queue[j])
    && st.lost == {} && (forall p :: p in st.sem.queue ==> p in st.blocked)
    && forall p :: p in st.blocked ==> p in st.clients && st.clients[p].pc == Enter
  }

  /** The shared variable is what all stores so far add up to, and at most one client is between wait and post. */
  ghost predicate Inv(st: State, start: int) {
    && SemOk(st.sem) && WaitersOk(st)
    && st.sem.counter + |Holders(st.clients)| == 1
    && (forall p :: p in st.clients ==> ClientOk(st.clients[p], st.global))
    && st.global == S64(start + Sum(Added(st.clients)))
  }

  // ---------------------------------------------------------------- preservation

  lemma HoldersUpdate(clients: map<Pid, Client>, p: Pid, c: Client)
    requires p in clients
    ensures var a, b := Holders(clients), Holders(clients[p := c]);
            |b| == |a| - (if Holds(clients[p]) then 1 else 0) + (if Holds(c) then 1 else 0)
  {
    var a, b := Holders(clients), Holders(clients[p := c]);
    assert a - {p} == b - {p};
    assert |a| == |a - {p}| + if p in a then 1 else 0;
    assert |b| == |b - {p}| + if p in b then 1 else 0;
  }

  lemma SoleHolder(st: State, start: int, p: Pid, q: Pid)
    requires Inv(st, start) && p in st.clients && q in st.clients && Holds(st.clients[p]) && Holds(st.clients[q])
    ensures p == q
  {
    var s := Holders(st.clients);
    assert |s - {p}| == |s| - 1;
    assert q !in s - {p};
  }

  lemma AddedUpdate(clients: map<Pid, Client>, p: Pid, c: Client)
    requires p in clients
    ensures Sum(Added(clients[p := c])) == Sum(Added(clients)) - clients[p].rounds * clients[p].inc + c.rounds * c.inc
  {
    assert Added(clients[p := c]) == Added(clients)[p := c.rounds * c.inc];
    SumUpdate(Added(clients), p, c.rounds * c.inc);
  }

  /** Adding on the 64-bit image of a sum is the 64-bit image of adding. */
  lemma StoreWraps(x: int, inc: int)
    ensures S64(U64(U64(S64(x)) + inc)) == S64(x + inc)
  {
    assert U64(S64(x)) == U64(x);
    assert U64(U64(x) + inc) == U64(x + inc);
  }

  lemma OneMore(rounds: nat, inc: int)
    ensures (rounds + 1) * inc == rounds * inc + inc
  {
  }

  lemma StoreKeeps(st: State, start: int, p: Pid, g: Grant)
    requires Inv(st, start) && Enabled(st, p) && st.clients[p].pc.Yielded?
    ensures Inv(SyncStep(st, p, true, g), start)
  {
    var c := st.clients[p];
    var st' := SyncStep(st, p, true, g);
    HoldersUpdate(st.clients, p, st'.clients[p]);
    AddedUpdate(st.clients, p, st'.clients[p]);
    OneMore(c.rounds, c.inc);
    StoreWraps(start + Sum(Added(st.clients)), c.inc);
    assert ClientOk(c, st.global);
    forall q | q in st.clients ensures ClientOk(st'.clients[q], st'.global) {
      assert ClientOk(st.clients[q], st.global);
      if q != p && Holds(st.clients[q]) {
        SoleHolder(st, start, p, q);
      }
    }
  }

  lemma LoadKeeps(st: State, start: int, p: Pid, g: Grant)
    requires Inv(st, start) && Enabled(st, p) && st.clients[p].pc.Load?
    ensures Inv(SyncStep(st, p, true, g), start)
  {
    var st' := SyncStep(st, p, true, g);
    HoldersUpdate(st.clients, p, st'.clients[p]);
    AddedUpdate(st.clients, p, st'.clients[p]);
    assert st'.clients == st.clients[p := st'.clients[p]];
    assert ClientOk(st.clients[p], st.global);
  }

  /** Entering with a permit keeps the invariant, and entering without one breaks it. */
  lemma EnterKeeps(st: State, start: int, p: Pid, g: Grant)
    requires Inv(st, start) && Enabled(st, p) && st.clients[p].pc.Enter?
    ensures Inv(SyncStep(st, p, true, g), start) <==> !Overlooks(st, p, true, g)
  {
    var st' := SyncStep(st, p, true, g);
    HoldersUpdate(st.clients, p, st'.clients[p]);
    AddedUpdate(st.clients, p, st'.clients[p]);
    assert st'.clients == st.clients[p := st'.clients[p]];
    assert ClientOk(st.clients[p], st.global);
  }

  /** sem_post with nobody waiting. */
  lemma LeaveAlone(st: State, start: int, p: Pid, g: Grant)
    requires Inv(st, start) && Enabled(st, p) && st.clients[p].pc.Leave? && st.sem.queue == []
    ensures Inv(SyncStep(st, p, true, g), start)
  {
    var c := st.clients[p];
    var n := c.(pc := NextRound(c));
    assert ClientOk(c, st.global);
    HoldersUpdate(st.clients, p, n);
    AddedUpdate(st.clients, p, n);
    hide Holders, Added, Sum, S64, U64;
  }

  /** The state after p left and the first waiter was handed the permit. */
  function AfterHanding(st: State, p: Pid): State
    requires p in st.clients && st.sem.queue != [] && st.sem.queue[0] in st.clients
  {
    var c, w, q := st.clients[p], st.sem.queue[0], st.sem.queue;
    State(Sem(st.sem.counter, q[1..]), st.global,
          st.clients[p := c.(pc := NextRound(c))][w := st.clients[w].(pc := Load)], st.blocked - {w}, {})
  }

  /** What sem_post does when the first waiter is handed the permit. */
  lemma HandOver(st: State, start: int, p: Pid, g: Grant)
    requires Inv(st, start) && Enabled(st, p) && st.clients[p].pc.Leave? && st.sem.queue != []
    ensures var c, w, q := st.clients[p], st.sem.queue[0], st.sem.queue;
            && w in st.clients && w != p && st.clients[w].pc == Enter && HandsOver(st, p, true)
            && (g != NoWake ==> SyncStep(st, p, true, g) == AfterHanding(st, p))
            && (g == NoWake ==> w in SyncStep(st, p, true, g).lost)
  {
    hide Holders, Added, Sum, S64, U64;
    PurgeAllLive(st.sem.queue, st.clients.Keys);
  }

  lemma HandedWaiters(st: State, st': State, p: Pid, x: Client, y: Client)
    requires WaitersOk(st) && st.sem.queue != [] && p in st.clients && !st.clients[p].pc.Enter?
    requires st'.sem.queue == st.sem.queue[1..]
    requires st'.clients == st.clients[p := x][st.sem.queue[0] := y]
    requires st'.blocked == st.blocked - {st.sem.queue[0]} && st'.lost == {}
    ensures WaitersOk(st')
  {
  }

  lemma LeaveHands(st: State, start: int, p: Pid, g: Grant)
    requires Inv(st, start) && Enabled(st, p) && st.clients[p].pc.Leave? && st.sem.queue != [] && g != NoWake
    ensures Inv(SyncStep(st, p, true, g), start)
  {
    var c := st.clients[p];
    var n := c.(pc := NextRound(c));
    HandOver(st, start, p, g);
    var w := st.sem.queue[0];
    var m := st.clients[w].(pc := Load);
    assert ClientOk(c, st.global) && ClientOk(st.clients[w], st.global);
    HoldersUpdate(st.clients, p, n);
    AddedUpdate(st.clients, p, n);
    var mid := st.clients[p := n];
    HoldersUpdate(mid, w, m);
    AddedUpdate(mid, w, m);
    HandedWaiters(st, SyncStep(st, p, true, g), p, n, m);
    hide SyncStep, WaitersOk, Holders, Added, Sum, S64, U64;
  }

  lemma NobodyToWake(st: State, p: Pid)
    requires p in st.clients && st.sem.queue == []
    ensures !HandsOver(st, p, true)
  {
    assert Purge([], st.clients.Keys) == [];
  }

  /** A step keeps the invariant if and only if it overlooks no refusal. */
  lemma SyncKeeps(st: State, start: int, p: Pid, g: Grant)
    requires Inv(st, start) && Enabled(st, p)
    ensures Inv(SyncStep(st, p, true, g), start) <==> !Overlooks(st, p, true, g)
  {
    match st.clients[p].pc
    case Yielded(_) => StoreKeeps(st, start, p, g);
    case Leave =>
      if st.sem.queue == [] {
        LeaveAlone(st, start, p, g);
        NobodyToWake(st, p);
      } else {
        HandOver(st, start, p, g);
        if g != NoWake {
          LeaveHands(st, start, p, g);
        }
      }
    case Load => LoadKeeps(st, start, p, g);
    case Enter => EnterKeeps(st, start, p, g);
  }

  // ---------------------------------------------------------------- runs

  /** test_sync after it created the semaphore with 1 and its clients. */
  predicate Fresh(st: State, start: int) {
    && st.sem == Sem(1, []) && st.blocked == {} && st.lost == {} && st.global == S64(start)
    && forall p :: p in st.clients ==> st.clients[p].rounds == 0 && st.clients[p].n > 0 && st.clients[p].pc == Enter
  }

  lemma {:induction false} AllZero(m: map<int, int>)
    requires forall k :: k in m ==> m[k] == 0
    ensures Sum(m) == 0
    decreases |m|
  {
    if m != map[] {
      Inhabited(m.Keys);
      var k :| k in m;
      SumRemove(m, k);
      AllZero(m - {k});
    }
  }

  lemma FreshInv(st: State, start: int)
    requires Fresh(st, start)
    ensures Inv(st, start)
  {
    Inhabited(Holders(st.clients));
    AllZero(Added(st.clients));
  }

  predicate AllDone(st: State) {
    forall p :: p in st.clients ==> st.clients[p].pc.Done?
  }

  datatype Turn = Turn(pid: Pid, grant: Grant)

  ghost predicate AllowedRun(st: State, run: seq<Turn>, useSem: bool)
    decreases |run|
  {
    run == [] || (Enabled(st, run[0].pid) && AllowedRun(SyncStep(st, run[0].pid, useSem, run[0].grant), run[1..], useSem))
  }

  ghost function Final(st: State, run: seq<Turn>, useSem: bool): State
    requires AllowedRun(st, run, useSem)
    decreases |run|
  {
    if run == [] then st else Final(SyncStep(st, run[0].pid, useSem, run[0].grant), run[1..], useSem)
  }

  /** In some turn of the run a sem_wait that finds no permit is refused g. */
  ghost predicate RunRefused(st: State, run: seq<Turn>, useSem: bool, g: Grant)
    requires AllowedRun(st, run, useSem)
    decreases |run|
  {
    run != [] && ((Refused(st, run[0].pid, useSem, run[0].grant) && run[0].grant == g)
                  || RunRefused(SyncStep(st, run[0].pid, useSem, run[0].grant), run[1..], useSem, g))
  }

  /** Some turn of the run overlooks a refusal. */
  ghost predicate RunOverlooks(st: State, run: seq<Turn>, useSem: bool)
    requires AllowedRun(st, run, useSem)
    decreases |run|
  {
    run != [] && (Overlooks(st, run[0].pid, useSem, run[0].grant)
                  || RunOverlooks(SyncStep(st, run[0].pid, useSem, run[0].grant), run[1..], useSem))
  }

  ghost predicate InvThroughout(st: State, start: int, run: seq<Turn>)
    requires AllowedRun(st, run, true)
    decreases |run|
  {
    Inv(st, start) && (run == [] || InvThroughout(SyncStep(st, run[0].pid, true, run[0].grant), start, run[1..]))
  }

  lemma SamePlan(st: State, p: Pid, useSem: bool, g: Grant)
    requires p in st.clients
    ensures var v := SyncStep(st, p, useSem, g);
            v.clients.Keys == st.clients.Keys && Planned(v.clients) == Planned(st.clients)
  {
    hide Post, U64, S64;
  }

  lemma HandingMaroons(st: State, p: Pid)
    requires WaitersOk(st) && p in st.clients && st.sem.queue != []
    ensures Marooned(AfterHanding(st, p)) == Marooned(st)
  {
    assert st.sem.queue == [st.sem.queue[0]] + st.sem.queue[1..];
  }

  /** A step that overlooks no refusal maroons nobody but a client that is refused its list node. */
  lemma MaroonedAfter(st: State, start: int, p: Pid, g: Grant)
    requires Inv(st, start) && Enabled(st, p) && !Overlooks(st, p, true, g)
    ensures Marooned(SyncStep(st, p, true, g))
            == Marooned(st) + if Refused(st, p, true, g) && g == NoNode then {p} else {}
  {
    if st.clients[p].pc.Leave? {
      LeavingMaroons(st, start, p, g);
    } else if st.clients[p].pc.Enter? {
      EnteringMaroons(st, p, g);
      hide SyncStep, WaitersOk, Marooned, ClientOk;
    } else {
      hide WaitersOk, ClientOk, Post, U64, S64;
    }
  }

  lemma EnteringMaroons(st: State, p: Pid, g: Grant)
    requires WaitersOk(st) && Enabled(st, p) && st.clients[p].pc.Enter?
    ensures Marooned(SyncStep(st, p, true, g))
            == Marooned(st) + if Refused(st, p, true, g) && g == NoNode then {p} else {}
  {
    assert p !in st.sem.queue;
    hide WaitersOk;
  }

  lemma LeavingMaroons(st: State, start: int, p: Pid, g: Grant)
    requires Inv(st, start) && Enabled(st, p) && !Overlooks(st, p, true, g) && st.clients[p].pc.Leave?
    ensures Marooned(SyncStep(st, p, true, g)) == Marooned(st)
  {
    if st.sem.queue != [] {
      HandOver(st, start, p, g);
      HandingMaroons(st, p);
      hide SyncStep, Marooned, WaitersOk;
    } else {
      NobodyToWake(st, p);
      hide Holders, Added, Sum, ClientOk;
    }
  }

  /**
   Whatever the interleaving: the shared variable has in all states what the stores so far add up to, with at most one
   client inside, if and only if no turn overlooks a refusal.
   */
  lemma {:induction false} EveryRun(st: State, start: int, run: seq<Turn>)
    requires Inv(st, start) && AllowedRun(st, run, true)
    ensures InvThroughout(st, start, run) <==> !RunOverlooks(st, run, true)
    ensures !RunOverlooks(st, run, true) ==> Inv(Final(st, run, true), start)
    decreases |run|
  {
    if run != [] {
      var p, g := run[0].pid, run[0].grant;
      SyncKeeps(st, start, p, g);
      hide Inv, SyncStep, Enabled, Overlooks;
      if !Overlooks(st, p, true, g) {
        EveryRun(SyncStep(st, p, true, g), start, run[1..]);
      }
    }
  }

  /** No step changes what is planned. */
  lemma {:induction false} RunPlan(st: State, run: seq<Turn>, useSem: bool)
    requires AllowedRun(st, run, useSem)
    ensures var v := Final(st, run, useSem);
            v.clients.Keys == st.clients.Keys && Planned(v.clients) == Planned(st.clients)
    decreases |run|
  {
    if run != [] {
      var p, g := run[0].pid, run[0].grant;
      SamePlan(st, p, useSem, g);
      hide SyncStep, Planned;
      RunPlan(SyncStep(st, p, useSem, g), run[1..], useSem);
    }
  }

  /** Nobody who is marooned ever gets out, and who is marooned was refused its list node. */
  lemma {:induction false} MaroonedInRun(st: State, start: int, run: seq<Turn>)
    requires Inv(st, start) && AllowedRun(st, run, true) && !RunOverlooks(st, run, true)
    ensures Marooned(Final(st, run, true)) == {} <==> Marooned(st) == {} && !RunRefused(st, run, true, NoNode)
    decreases |run|
  {
    if run != [] {
      var p, g := run[0].pid, run[0].grant;
      SyncKeeps(st, start, p, g);
      MaroonedAfter(st, start, p, g);
      hide Inv, SyncStep, Enabled, Refused, Overlooks, Marooned;
      MaroonedInRun(SyncStep(st, p, true, g), start, run[1..]);
    }
  }

  /** With the semaphore, every interleaving ends with exactly the planned sum, as a 64-bit integer. */
  lemma FinalValue(st: State, start: int, run: seq<Turn>)
    requires Fresh(st, start) && AllowedRun(st, run, true) && !RunOverlooks(st, run, true)
    requires AllDone(Final(st, run, true))
    ensures Final(st, run, true).global == S64(start + Sum(Planned(st.clients)))
  {
    FreshInv(st, start);
    EveryRun(st, start, run);
    RunPlan(st, run, true);
    var v := Final(st, run, true);
    forall p | p in v.clients ensures Added(v.clients)[p] == Planned(v.clients)[p] {
      assert ClientOk(v.clients[p], v.global);
    }
    assert Added(v.clients) == Planned(v.clients);
  }

  /** The two decrementing and two incrementing clients of the test cancel out. */
  lemma MatchedPairsCancel(st: State, n: nat, a: Pid, b: Pid, c: Pid, d: Pid)
    requires a != b && a != c && a != d && b != c && b != d && c != d
    requires st.clients.Keys == {a, b, c, d}
    requires forall p :: p in st.clients ==> st.clients[p].n == n
    requires st.clients[a].inc == st.clients[b].inc == -1 && st.clients[c].inc == st.clients[d].inc == 1
    ensures Sum(Planned(st.clients)) == 0
  {
    var m := Planned(st.clients);
    SumRemove(m, a);
    SumRemove(m - {a}, b);
    SumRemove(m - {a} - {b}, c);
    SumRemove(m - {a} - {b} - {c}, d);
    assert m - {a} - {b} - {c} - {d} == map[];
  }

  /** While some client is not done and nobody is marooned, some client can take a step. */
  lemma NoDeadlock(st: State, start: int, p: Pid)
    requires Inv(st, start) && Marooned(st) == {} && p in st.clients && !st.clients[p].pc.Done?
    ensures exists q :: Enabled(st, q)
  {
    Inhabited(Holders(st.clients));
    if st.sem.counter == 0 {
      var q :| q in Holders(st.clients);
      assert q !in st.blocked;
      assert Enabled(st, q);
    } else {
      assert p !in Marooned(st);
      assert Enabled(st, p);
    }
  }

  // ---------------------------------------------------------------- every run comes to an end

  /** Steps that a client has still to make: four in each round, one of them a sem_wait that is over once it is queued. */
  function Energy(st: State, p: Pid): nat
    requires p in st.clients && st.clients[p].rounds <= st.clients[p].n
    requires !st.clients[p].pc.Leave? && !st.clients[p].pc.Done? ==> st.clients[p].rounds < st.clients[p].n
  {
    var c := st.clients[p];
    var rest := 4 * (c.n - c.rounds);
    match c.pc
    case Enter => if p in st.blocked then rest - 1 else rest
    case Load => rest - 1
    case Yielded(_) => rest - 2
    case Leave => rest + 1
    case Done => 0
  }

  ghost predicate Counting(st: State) {
    forall p :: p in st.clients ==> ClientOk(st.clients[p], st.global)
  }

  ghost function Energies(st: State): map<Pid, int>
    requires Counting(st)
  {
    map p | p in st.clients :: Energy(st, p)
  }

  lemma LeaveCosts(st: State, start: int, p: Pid, g: Grant, q: Pid)
    requires Inv(st, start) && Enabled(st, p) && st.clients[p].pc.Leave? && q in st.clients
    requires !Overlooks(st, p, true, g)
    ensures var t := SyncStep(st, p, true, g);
            q in t.clients && ClientOk(t.clients[q], t.global) && Energy(t, q) <= Energy(st, q) - if q == p then 1 else 0
  {
    SyncKeeps(st, start, p, g);
    assert ClientOk(st.clients[q], st.global);
    if st.sem.queue != [] {
      HandOver(st, start, p, g);
      assert st.sem.queue == [st.sem.queue[0]] + st.sem.queue[1..];
    }
  }

  lemma OtherCosts(st: State, start: int, p: Pid, g: Grant, q: Pid)
    requires Inv(st, start) && Enabled(st, p) && !st.clients[p].pc.Leave? && q in st.clients
    requires !Overlooks(st, p, true, g)
    ensures var t := SyncStep(st, p, true, g);
            q in t.clients && ClientOk(t.clients[q], t.global) && Energy(t, q) <= Energy(st, q) - if q == p then 1 else 0
  {
    SyncKeeps(st, start, p, g);
    assert ClientOk(st.clients[q], st.global);
  }

  /** Every step that overlooks no refusal brings the end nearer. */
  lemma StepCosts(st: State, start: int, p: Pid, g: Grant)
    requires Inv(st, start) && Enabled(st, p) && !Overlooks(st, p, true, g)
    ensures var t := SyncStep(st, p, true, g);
            Counting(st) && Inv(t, start) && Counting(t) && Sum(Energies(t)) < Sum(Energies(st))
  {
    var t := SyncStep(st, p, true, g);
    SyncKeeps(st, start, p, g);
    SamePlan(st, p, true, g);
    assert Counting(st) && Counting(t);
    hide Inv, SyncStep, Energy, Sum;
    forall q | q in st.clients ensures Energies(t)[q] <= Energies(st)[q] - if q == p then 1 else 0 {
      if st.clients[p].pc.Leave? {
        LeaveCosts(st, start, p, g, q);
      } else {
        OtherCosts(st, start, p, g, q);
      }
    }
    SumSmaller(Energies(t), Energies(st), p);
  }

  lemma {:induction false} NoNegative(m: map<int, int>)
    requires forall k :: k in m ==> m[k] >= 0
    ensures Sum(m) >= 0
    decreases |m|
  {
    if m != map[] {
      Inhabited(m.Keys);
      var k :| k in m;
      SumRemove(m, k);
      NoNegative(m - {k});
    }
  }

  /** No run is longer than the energy that the clients start with: four steps for each round of each client. */
  lemma {:induction false} Termination(st: State, start: int, run: seq<Turn>)
    requires Inv(st, start) && AllowedRun(st, run, true) && !RunOverlooks(st, run, true)
    ensures Counting(st) && |run| <= Sum(Energies(st))
    decreases |run|
  {
    assert Counting(st);
    if run == [] {
      NoNegative(Energies(st));
    } else {
      var p, g := run[0].pid, run[0].grant;
      StepCosts(st, start, p, g);
      hide Inv, Counting, SyncStep, Enabled, Energies, Overlooks;
      Termination(SyncStep(st, p, true, g), start, run[1..]);
    }
  }

  /**
   A run that cannot go on has ended well, with every client done and the planned sum in the shared variable, if and
   only if nobody's list node was refused; else a client is blocked for ever.
   */
  lemma EndsWell(st: State, start: int, run: seq<Turn>)
    requires Fresh(st, start) && AllowedRun(st, run, true) && !RunOverlooks(st, run, true)
    requires forall p :: !Enabled(Final(st, run, true), p)
    ensures AllDone(Final(st, run, true)) <==> !RunRefused(st, run, true, NoNode)
    ensures AllDone(Final(st, run, true)) ==> Final(st, run, true).global == S64(start + Sum(Planned(st.clients)))
  {
    FreshInv(st, start);
    EveryRun(st, start, run);
    MaroonedInRun(st, start, run);
    var v := Final(st, run, true);
    Inhabited(Marooned(v));
    if Marooned(v) == {} {
      forall p | p in v.clients ensures v.clients[p].pc.Done? {
        if !v.clients[p].pc.Done? {
          NoDeadlock(v, start, p);
        }
      }
      FinalValue(st, start, run);
    } else {
      var p :| p in Marooned(v);
      assert v.clients[p].pc == Enter;
    }
  }

  /** The four clients that test_sync creates: a and b subtract, c and d add, n times each. */
  predicate FourClients(st: State, n: nat, a: Pid, b: Pid, c: Pid, d: Pid) {
    && a != b && a != c && a != d && b != c && b != d && c != d
    && st.clients.Keys == {a, b, c, d}
    && (forall p :: p in st.clients ==> st.clients[p].n == n)
    && st.clients[a].inc == st.clients[b].inc == -1 && st.clients[c].inc == st.clients[d].inc == 1
  }

  /** test_sync itself: the shared variable starts at 0, and unless memory is refused in every interleaving it ends at 0. */
  lemma TestSyncDeterministic(st: State, n: nat, a: Pid, b: Pid, c: Pid, d: Pid, run: seq<Turn>)
    requires FourClients(st, n, a, b, c, d)
    requires Fresh(st, 0) && AllowedRun(st, run, true) && !RunOverlooks(st, run, true)
    requires forall p :: !Enabled(Final(st, run, true), p)
    ensures AllDone(Final(st, run, true)) <==> !RunRefused(st, run, true, NoNode)
    ensures AllDone(Final(st, run, true)) ==> Final(st, run, true).global == 0
  {
    MatchedPairsCancel(st, n, a, b, c, d);
    EndsWell(st, 0, run);
  }
}
