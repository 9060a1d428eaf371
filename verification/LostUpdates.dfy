/** The synchronisation test without mutual exclusion: for every n some interleaving ends with the wrong sum. */
module LostUpdates {
  import opened Words
  import opened SemaphoreSpec
  import opened Sums
  import opened TestSync

  lemma Extend(st: State, t: Turn, next: State, run: seq<Turn>, last: State, useSem: bool)
    requires Enabled(st, t.pid) && SyncStep(st, t.pid, useSem, t.grant) == next
    requires AllowedRun(next, run, useSem) && Final(next, run, useSem) == last
    ensures AllowedRun(st, [t] + run, useSem) && Final(st, [t] + run, useSem) == last
  {
    assert ([t] + run)[1..] == run;
  }

  lemma {:induction false} RunsCompose(st: State, a: seq<Turn>, b: seq<Turn>, useSem: bool)
    requires AllowedRun(st, a, useSem) && AllowedRun(Final(st, a, useSem), b, useSem)
    ensures AllowedRun(st, a + b, useSem) && Final(st, a + b, useSem) == Final(Final(st, a, useSem), b, useSem)
    ensures RunRefused(st, a + b, useSem, NoCell)
            <==> RunRefused(st, a, useSem, NoCell) || RunRefused(Final(st, a, useSem), b, useSem, NoCell)
    decreases |a|
  {
    if a == [] {
      assert a + b == b;
    } else {
      RunsCompose(SyncStep(st, a[0].pid, useSem, a[0].grant), a[1..], b, useSem);
      assert (a + b)[0] == a[0] && (a + b)[1..] == a[1..] + b;
    }
  }

  /** The state in which client p is at pc, having made so many rounds, and the shared variable and counter are these. */
  function With(st: State, p: Pid, rounds: nat, pc: Pc, global: int, counter: nat): State
    requires p in st.clients
  {
    State(Sem(counter, st.sem.queue), global, st.clients[p := st.clients[p].(rounds := rounds, pc := pc)],
          st.blocked, st.lost)
  }

  /** Nobody waits, and client p could go through its critical section at once. */
  predicate FreeToEnter(st: State, p: Pid, useSem: bool) {
    && p in st.clients && st.clients[p].pc == Enter && st.clients[p].rounds < st.clients[p].n && st.blocked == st.lost == {}
    && st.sem.queue == [] && st.sem.counter < TWO_32 && (useSem ==> st.sem.counter > 0)
  }

  function G(p: Pid): Turn {
    Turn(p, Granted)
  }

  function RoundOf(p: Pid): seq<Turn> {
    [G(p), G(p), G(p), G(p)]
  }

  /** One round of p alone adds inc once. */
  lemma OneRound(st: State, p: Pid, useSem: bool, x: int)
    requires FreeToEnter(st, p, useSem) && st.global == S64(x)
    ensures var c := st.clients[p];
            var next := c.(rounds := c.rounds + 1);
            && AllowedRun(st, RoundOf(p), useSem)
            && Final(st, RoundOf(p), useSem)
               == With(st, p, c.rounds + 1, NextRound(next), S64(x + c.inc), st.sem.counter)
  {
    var c, k := st.clients[p], st.sem.counter;
    var k' := if useSem then k - 1 else k;
    var s1 := With(st, p, c.rounds, Load, st.global, k');
    var s2 := With(st, p, c.rounds, Yielded(U64(st.global)), st.global, k');
    var s3 := With(st, p, c.rounds + 1, Leave, S64(x + c.inc), k');
    var s4 := With(st, p, c.rounds + 1, NextRound(c.(rounds := c.rounds + 1)), S64(x + c.inc), k);
    StoreWraps(x, c.inc);
    hide U64, S64;
    EnterStep(st, p, useSem);
    LeaveStep(s3, p, useSem, s4);
    Extend(s3, G(p), s4, [], s4, useSem);
    Extend(s2, G(p), s3, [G(p)], s4, useSem);
    Extend(s1, G(p), s2, [G(p), G(p)], s4, useSem);
    Extend(st, G(p), s1, [G(p), G(p), G(p)], s4, useSem);
  }

  lemma EnterStep(st: State, p: Pid, useSem: bool)
    requires FreeToEnter(st, p, useSem)
    ensures var c := st.clients[p];
            Enabled(st, p) && SyncStep(st, p, useSem, Granted)
                              == With(st, p, c.rounds, Load, st.global, st.sem.counter - if useSem then 1 else 0)
  {
  }

  lemma LeaveStep(st: State, p: Pid, useSem: bool, next: State)
    requires p in st.clients && st.clients[p].pc == Leave && st.blocked == st.lost == {} && st.sem.queue == []
    requires useSem ==> st.sem.counter + 1 < TWO_32
    requires next == With(st, p, st.clients[p].rounds, NextRound(st.clients[p]), st.global, st.sem.counter + if useSem then 1 else 0)
    ensures Enabled(st, p) && SyncStep(st, p, useSem, Granted) == next
  {
    assert Purge([], st.clients.Keys) == [];
  }

  function Rounds(p: Pid, k: nat): seq<Turn> {
    if k == 0 then [] else RoundOf(p) + Rounds(p, k - 1)
  }

  lemma MoreRounds(k: nat, inc: int)
    requires k > 0
    ensures inc + (k - 1) * inc == k * inc
  {
  }

  /** Nobody waits, and client p is between two rounds with k of them to go. */
  predicate Between(st: State, p: Pid, useSem: bool, k: nat) {
    && p in st.clients && st.clients[p].n == st.clients[p].rounds + k && st.clients[p].pc == NextRound(st.clients[p])
    && st.blocked == st.lost == {} && st.sem.queue == [] && st.sem.counter < TWO_32 && (useSem ==> st.sem.counter > 0)
  }

  /** Client p alone runs to its end and adds inc for each of the rounds that it has left. */
  lemma {:induction false} Solo(st: State, p: Pid, useSem: bool, x: int, k: nat)
    requires Between(st, p, useSem, k) && st.global == S64(x)
    ensures AllowedRun(st, Rounds(p, k), useSem)
    ensures Final(st, Rounds(p, k), useSem)
            == With(st, p, st.clients[p].n, Done, S64(x + k * st.clients[p].inc), st.sem.counter)
    decreases k
  {
    var c := st.clients[p];
    if k == 0 {
      assert st == With(st, p, c.n, Done, S64(x), st.sem.counter);
    } else {
      OneRound(st, p, useSem, x);
      var next := Final(st, RoundOf(p), useSem);
      hide RoundOf, SyncStep, S64;
      MoreRounds(k, c.inc);
      Solo(next, p, useSem, x + c.inc, k - 1);
      assert (x + c.inc) + (k - 1) * c.inc == x + k * c.inc;
      RunsCompose(st, RoundOf(p), Rounds(p, k - 1), useSem);
    }
  }

  // ---------------------------------------------------------------- the interleaving that loses an update

  /** A client enters although it has no permit: there is no semaphore, or its cell was refused. */
  lemma EnterAnyway(st: State, p: Pid, useSem: bool)
    requires p in st.clients && st.clients[p].pc == Enter && p !in st.blocked && p !in st.lost
    requires useSem ==> st.sem.counter == 0
    ensures Enabled(st, p)
    ensures SyncStep(st, p, useSem, NoCell) == With(st, p, st.clients[p].rounds, Load, st.global, st.sem.counter)
    ensures useSem ==> Refused(st, p, useSem, NoCell)
  {
  }

  function Intrude(p: Pid): seq<Turn> {
    [Turn(p, NoCell), G(p), G(p), G(p)]
  }

  /** A first round of p while somebody else is inside. */
  lemma IntruderRound(st: State, p: Pid, useSem: bool, x: int)
    requires p in st.clients && st.clients[p].pc == Enter && st.clients[p].rounds < st.clients[p].n
    requires st.blocked == st.lost == {} && st.sem.queue == [] && st.global == S64(x) && st.sem.counter == if useSem then 0 else 1
    ensures var c := st.clients[p];
            && AllowedRun(st, Intrude(p), useSem)
            && (useSem ==> RunRefused(st, Intrude(p), useSem, NoCell))
            && Final(st, Intrude(p), useSem)
               == With(st, p, c.rounds + 1, NextRound(c.(rounds := c.rounds + 1)), S64(x + c.inc), 1)
  {
    var c, k := st.clients[p], st.sem.counter;
    var s1 := With(st, p, c.rounds, Load, st.global, k);
    var s2 := With(st, p, c.rounds, Yielded(U64(st.global)), st.global, k);
    var s3 := With(st, p, c.rounds + 1, Leave, S64(x + c.inc), k);
    var s4 := With(st, p, c.rounds + 1, NextRound(c.(rounds := c.rounds + 1)), S64(x + c.inc), 1);
    StoreWraps(x, c.inc);
    hide U64, S64;
    EnterAnyway(st, p, useSem);
    LeaveStep(s3, p, useSem, s4);
    Extend(s3, G(p), s4, [], s4, useSem);
    Extend(s2, G(p), s3, [G(p)], s4, useSem);
    Extend(s1, G(p), s2, [G(p), G(p)], s4, useSem);
    Extend(st, Turn(p, NoCell), s1, [G(p), G(p), G(p)], s4, useSem);
  }

  /** p enters and reads the shared variable. */
  lemma ReadsFirst(st: State, p: Pid, useSem: bool)
    requires FreeToEnter(st, p, useSem)
    ensures AllowedRun(st, [G(p), G(p)], useSem)
    ensures Final(st, [G(p), G(p)], useSem)
            == With(st, p, st.clients[p].rounds, Yielded(U64(st.global)), st.global, st.sem.counter - if useSem then 1 else 0)
  {
    var c, k' := st.clients[p], st.sem.counter - if useSem then 1 else 0;
    var s1 := With(st, p, c.rounds, Load, st.global, k');
    var s2 := With(st, p, c.rounds, Yielded(U64(st.global)), st.global, k');
    EnterStep(st, p, useSem);
    hide U64;
    Extend(s1, G(p), s2, [], s2, useSem);
    Extend(st, G(p), s1, [G(p)], s2, useSem);
  }

  /** p adds to what it read before, whatever was stored since, and leaves. */
  lemma StoresLate(st: State, p: Pid, useSem: bool, x: int)
    requires p in st.clients && st.clients[p].pc == Yielded(U64(S64(x)))
    requires st.blocked == st.lost == {} && st.sem.queue == [] && st.sem.counter + 1 < TWO_32
    ensures var c := st.clients[p];
            && AllowedRun(st, [G(p), G(p)], useSem)
            && Final(st, [G(p), G(p)], useSem)
               == With(st, p, c.rounds + 1, NextRound(c.(rounds := c.rounds + 1)), S64(x + c.inc),
                       st.sem.counter + if useSem then 1 else 0)
  {
    var c, k := st.clients[p], st.sem.counter;
    var s1 := With(st, p, c.rounds + 1, Leave, S64(x + c.inc), k);
    var s2 := With(st, p, c.rounds + 1, NextRound(c.(rounds := c.rounds + 1)), S64(x + c.inc), k + if useSem then 1 else 0);
    StoreWraps(x, c.inc);
    hide U64, S64;
    LeaveStep(s1, p, useSem, s2);
    Extend(s1, G(p), s2, [], s2, useSem);
    Extend(st, G(p), s1, [G(p)], s2, useSem);
  }

  lemma Then(st: State, a: seq<Turn>, mid: State, b: seq<Turn>, last: State, useSem: bool)
    requires AllowedRun(st, a, useSem) && Final(st, a, useSem) == mid
    requires AllowedRun(mid, b, useSem) && Final(mid, b, useSem) == last
    ensures AllowedRun(st, a + b, useSem) && Final(st, a + b, useSem) == last
    ensures RunRefused(st, a + b, useSem, NoCell)
            <==> RunRefused(st, a, useSem, NoCell) || RunRefused(mid, b, useSem, NoCell)
  {
    RunsCompose(st, a, b, useSem);
  }

  /** All rounds of c, the first of them as an intruder. */
  lemma IntruderRuns(st: State, n: nat, c: Pid, useSem: bool) returns (run: seq<Turn>)
    requires c in st.clients && st.clients[c].pc == Enter && st.clients[c].rounds == 0 && st.clients[c].n == n > 0
    requires st.blocked == st.lost == {} && st.sem.queue == [] && st.global == S64(0) && st.sem.counter == if useSem then 0 else 1
    ensures AllowedRun(st, run, useSem) && (useSem ==> RunRefused(st, run, useSem, NoCell))
    ensures Final(st, run, useSem) == With(st, c, n, Done, S64(n * st.clients[c].inc), 1)
  {
    var inc := st.clients[c].inc;
    IntruderRound(st, c, useSem, 0);
    var s1 := Final(st, Intrude(c), useSem);
    var last := With(st, c, n, Done, S64(n * inc), 1);
    MoreRounds(n, inc);
    hide Intrude, SyncStep, S64, U64;
    Solo(s1, c, useSem, inc, n - 1);
    assert With(s1, c, n, Done, S64(n * inc), 1) == last;
    Then(st, Intrude(c), s1, Rounds(c, n - 1), last, useSem);
    run := Intrude(c) + Rounds(c, n - 1);
  }

  /** One client reads, another one does all of its rounds, and then the first one stores: all of those rounds are lost. */
  lemma LoseRounds(st: State, n: nat, a: Pid, c: Pid, useSem: bool) returns (run: seq<Turn>)
    requires FreeToEnter(st, a, useSem) && FreeToEnter(st, c, useSem) && a != c && n > 0
    requires st.global == S64(0) && st.sem.counter == 1
    requires st.clients[a].n == st.clients[c].n == n && st.clients[a].rounds == st.clients[c].rounds == 0
    ensures AllowedRun(st, run, useSem) && (useSem ==> RunRefused(st, run, useSem, NoCell))
    ensures Final(st, run, useSem)
            == With(With(st, c, n, Done, 0, 0), a, 1, NextRound(st.clients[a].(rounds := 1)), S64(st.clients[a].inc),
                    if useSem then 2 else 1)
  {
    var pair := [G(a), G(a)];
    ReadsFirst(st, a, useSem);
    var s1 := Final(st, pair, useSem);
    var middle := IntruderRuns(s1, n, c, useSem);
    var s2 := Final(s1, middle, useSem);
    StoresLate(s2, a, useSem, 0);
    var s3 := Final(s2, pair, useSem);
    assert s3 == With(With(st, c, n, Done, 0, 0), a, 1, NextRound(st.clients[a].(rounds := 1)), S64(st.clients[a].inc),
                      if useSem then 2 else 1);
    hide SyncStep, S64, U64, RunRefused;
    Then(s1, middle, s2, pair, s3, useSem);
    Then(st, pair, s1, middle + pair, s3, useSem);
    run := pair + (middle + pair);
  }

  /** The rest: a, then b, then d, each on its own. */
  lemma TheRest(st: State, n: nat, a: Pid, b: Pid, d: Pid, useSem: bool) returns (run: seq<Turn>)
    requires n > 0 && Between(st, a, useSem, n - 1) && Between(st, b, useSem, n) && Between(st, d, useSem, n)
    requires a != b && a != d && b != d && st.global == S64(-1)
    requires st.clients[a].n == st.clients[b].n == st.clients[d].n == n
    requires st.clients[a].inc == st.clients[b].inc == -1 && st.clients[d].inc == 1
    ensures AllowedRun(st, run, useSem)
    ensures var v := Final(st, run, useSem);
            && v.global == S64(0 - n) && v.clients.Keys == st.clients.Keys
            && (forall p :: p in st.clients && p != a && p != b && p != d ==> v.clients[p] == st.clients[p])
            && v.clients[a].pc.Done? && v.clients[b].pc.Done? && v.clients[d].pc.Done?
  {
    Solo(st, a, useSem, -1, n - 1);
    var s1 := Final(st, Rounds(a, n - 1), useSem);
    Solo(s1, b, useSem, 0 - n, n);
    var s2 := Final(s1, Rounds(b, n), useSem);
    Solo(s2, d, useSem, 0 - n - n, n);
    var s3 := Final(s2, Rounds(d, n), useSem);
    hide SyncStep, S64, RunRefused, Rounds;
    Then(s1, Rounds(b, n), s2, Rounds(d, n), s3, useSem);
    Then(st, Rounds(a, n - 1), s1, Rounds(b, n) + Rounds(d, n), s3, useSem);
    run := Rounds(a, n - 1) + (Rounds(b, n) + Rounds(d, n));
  }

  /**
   For every n the four clients of test_sync have an interleaving that ends with -n instead of 0: always if there is no
   semaphore, and with it if a single sem_wait is refused its cell.
   */
  lemma LostUpdate(st: State, n: nat, a: Pid, b: Pid, c: Pid, d: Pid, useSem: bool) returns (run: seq<Turn>)
    requires FourClients(st, n, a, b, c, d) && Fresh(st, 0) && 0 < n < TWO_64
    ensures AllowedRun(st, run, useSem) && AllDone(Final(st, run, useSem))
    ensures Final(st, run, useSem).global == S64(0 - n) != 0
    ensures useSem ==> RunRefused(st, run, useSem, NoCell)
  {
    hide SyncStep, RunRefused, AllowedRun, Final;
    var first := LoseRounds(st, n, a, c, useSem);
    var mid := Final(st, first, useSem);
    var rest := TheRest(mid, n, a, b, d, useSem);
    Then(st, first, mid, rest, Final(mid, rest, useSem), useSem);
    run := first + rest;
    NotZero(n);
  }

  lemma NotZero(n: nat)
    requires 0 < n < TWO_64
    ensures S64(0 - n) != 0
  {
  }

  /** No refusal in the run matters. */
  ghost predicate Undisturbed(st: State, run: seq<Turn>, useSem: bool)
    requires AllowedRun(st, run, useSem)
  {
    !RunOverlooks(st, run, useSem) && !RunRefused(st, run, useSem, NoNode)
  }

  lemma {:induction false} NeverRefusedWithout(st: State, run: seq<Turn>, g: Grant)
    requires AllowedRun(st, run, false)
    ensures !RunRefused(st, run, false, g) && !RunOverlooks(st, run, false)
    decreases |run|
  {
    if run != [] {
      NeverRefusedWithout(SyncStep(st, run[0].pid, false, run[0].grant), run[1..], g);
    }
  }

  /** The run cannot go on. */
  ghost predicate Ended(st: State, run: seq<Turn>, useSem: bool) {
    AllowedRun(st, run, useSem) && forall p :: !Enabled(Final(st, run, useSem), p)
  }

  /** test_sync always ends with every client done and the shared variable 0 if and only if it uses the semaphore. */
  lemma DeterministicIff(st: State, n: nat, a: Pid, b: Pid, c: Pid, d: Pid, useSem: bool)
    requires FourClients(st, n, a, b, c, d) && Fresh(st, 0) && 0 < n < TWO_64
    ensures (forall run :: Ended(st, run, useSem) && Undisturbed(st, run, useSem) ==>
               AllDone(Final(st, run, useSem)) && Final(st, run, useSem).global == 0)
            <==> useSem
  {
    hide RunRefused, FourClients, Fresh;
    if useSem {
      forall run | Ended(st, run, useSem) && Undisturbed(st, run, useSem)
        ensures AllDone(Final(st, run, useSem)) && Final(st, run, useSem).global == 0
      {
        TestSyncDeterministic(st, n, a, b, c, d, run);
      }
    } else {
      var run := LostUpdate(st, n, a, b, c, d, useSem);
      NeverRefusedWithout(st, run, NoNode);
      assert Ended(st, run, useSem) && Undisturbed(st, run, useSem);
    }
  }
}
