/** Counting semaphores with a queue of waiting pids, on values. */
module SemaphoreSpec {

  type Pid = int

  datatype Option<+T> = None | Some(value: T)

  const TWO_32: nat := 0x1_0000_0000

  datatype Sem = Sem(counter: nat, queue: seq<Pid>)

  /** The pids of q that still name a live process, in order. */
  function Purge(q: seq<Pid>, live: set<Pid>): (r: seq<Pid>)
    ensures |r| <= |q|
    ensures forall p :: p in r <==> p in q && p in live
  {
    if q == [] then [] else (if q[0] in live then [q[0]] else []) + Purge(q[1..], live)
  }

  /**
   What memory a call is refused, if any: a sem_wait that finds no permit asks for its cell, its list node and the node
   of the list of blocked processes, and a sem_post that wakes a process for the node of the ready list.
   */
  datatype Grant = Granted | NoCell | NoNode | NoBlock | NoWake

  /**
   How a sem_wait ends: with a permit; blocked in the queue; blocked outside of it; not blocked, with 0 and an entry in the
   queue but no permit; or with -1 and no permit.
   */
  datatype Waited = Acquired | Joined | Stranded | Passed | Failed

  /** sem_wait. It ignores the results of addNode, so the entry may be missing, and of blockProcess, so the block may. */
  function Wait(s: Sem, pid: Pid, g: Grant): (Sem, Waited) {
    if s.counter > 0 then (s.(counter := s.counter - 1), Acquired)
    else match g
      case NoCell => (s, Failed)
      case NoNode => (s, Stranded)
      case NoBlock => (s.(queue := s.queue + [pid]), Passed)
      case _ => (s.(queue := s.queue + [pid]), Joined)
  }

  /** Whether the caller of a sem_wait goes on, with or without a permit. */
  predicate GoesOn(r: Waited) {
    r.Acquired? || r.Passed? || r.Failed?
  }

  /** sem_post: drops dead waiters, then hands the permit to the first live one or else counts it. */
  function Post(s: Sem, live: set<Pid>): (Sem, Option<Pid>) {
    var q := Purge(s.queue, live);
    if q != [] then (Sem(s.counter, q[1..]), Some(q[0]))
    else (Sem((s.counter + 1) % TWO_32, []), None)
  }

  /** A positive counter means nobody waits. */
  predicate SemOk(s: Sem) {
    s.counter < TWO_32 && (s.counter > 0 ==> s.queue == [])
  }

  // ---------------------------------------------------------------- runs

  datatype Event = WaitEvent(pid: Pid, grant: Grant) | PostEvent(live: set<Pid>)

  /** A semaphore with the totals of one run. */
  datatype Tally = Tally(s: Sem, posts: nat, acquired: nat, handed: nat)

  function Step(t: Tally, e: Event): Tally {
    match e
    case WaitEvent(pid, g) =>
      var (s, r) := Wait(t.s, pid, g);
      Tally(s, t.posts, t.acquired + (if r.Acquired? then 1 else 0), t.handed)
    case PostEvent(live) =>
      var (s, woken) := Post(t.s, live);
      Tally(s, t.posts + 1, t.acquired, t.handed + (if woken.Some? then 1 else 0))
  }

  function Run(t: Tally, es: seq<Event>): Tally
    decreases |es|
  {
    if es == [] then t else Run(Step(t, es[0]), es[1..])
  }

  function Posts(es: seq<Event>): nat {
    if es == [] then 0 else Posts(es[1..]) + if es[0].PostEvent? then 1 else 0
  }

  /**
   Permits are conserved: what was there at first and what was posted is still in the counter, or was
   acquired at once, or was handed to a waiter. (As long as the 32-bit counter cannot overflow.)
   */
  lemma {:induction false} Conservation(t: Tally, es: seq<Event>, permits: nat)
    requires SemOk(t.s) && permits == t.s.counter + t.acquired + t.handed
    requires permits + Posts(es) < 0x1_0000_0000
    ensures var u := Run(t, es);
            && SemOk(u.s)
            && permits + Posts(es) == u.s.counter + u.acquired + u.handed
            && u.posts == t.posts + Posts(es)
    decreases |es|
  {
    if es != [] {
      var t' := Step(t, es[0]);
      Conservation(t', es[1..], permits + if es[0].PostEvent? then 1 else 0);
    }
  }

  /** A post that finds nobody alive counts, and the 32-bit counter wraps around at its end. */
  lemma PostCounts(s: Sem, live: set<Pid>)
    requires SemOk(s) && forall p :: p in s.queue ==> p !in live
    ensures Post(s, live) == (Sem(if s.counter == 0xFFFF_FFFF then 0 else s.counter + 1, []), None)
  {
    PurgeNobody(s.queue, live);
    assert s.counter == 0xFFFF_FFFF ==> (s.counter + 1) % TWO_32 == 0;
  }

  lemma {:induction false} PurgeNobody(q: seq<Pid>, live: set<Pid>)
    requires forall p :: p in q ==> p !in live
    ensures Purge(q, live) == []
  {
    if q != [] {
      var head := q[0];
      assert head in q && head !in live;
      PurgeNobody(q[1..], live);
      assert Purge(q, live) == [] + Purge(q[1..], live);
    }
  }

  /** Even when the counter wraps around, nobody waits while it is positive. */
  lemma {:induction false} SemOkAlways(t: Tally, es: seq<Event>)
    requires SemOk(t.s)
    ensures SemOk(Run(t, es).s)
    decreases |es|
  {
    if es != [] {
      SemOkAlways(Step(t, es[0]), es[1..]);
    }
  }

  /** Purging keeps every entry of a live pid, as often as it is there. */
  lemma {:induction false} PurgeCounts(q: seq<Pid>, live: set<Pid>)
    ensures forall p :: multiset(Purge(q, live))[p] == if p in live then multiset(q)[p] else 0
  {
    if q != [] {
      PurgeCounts(q[1..], live);
      assert q == [q[0]] + q[1..];
    }
  }

  lemma {:induction false} PurgeAppend(a: seq<Pid>, b: seq<Pid>, live: set<Pid>)
    ensures Purge(a + b, live) == Purge(a, live) + Purge(b, live)
  {
    if a == [] {
      assert a + b == b;
    } else {
      assert (a + b)[1..] == a[1..] + b;
      PurgeAppend(a[1..], b, live);
    }
  }

  lemma {:induction false} PurgeAllLive(q: seq<Pid>, live: set<Pid>)
    requires forall i :: 0 <= i < |q| ==> q[i] in live
    ensures Purge(q, live) == q
  {
    if q != [] {
      PurgeAllLive(q[1..], live);
      assert [q[0]] + q[1..] == q;
    }
  }

  /** Purging keeps the order: of two live entries the one that was first is still first. */
  lemma PurgeOrder(q: seq<Pid>, i: nat, j: nat, live: set<Pid>)
    requires i < j < |q| && q[i] in live && q[j] in live
    ensures var a, b := |Purge(q[..i], live)|, |Purge(q[..j], live)|;
            var r := Purge(q, live);
            a < b < |r| && r[a] == q[i] && r[b] == q[j]
  {
    PurgePlace(q, i, live);
    PurgePlace(q, j, live);
    PurgePlace(q[..j], i, live);
    assert q[..j][..i] == q[..i];
  }

  lemma PurgePlace(q: seq<Pid>, k: nat, live: set<Pid>)
    requires k < |q| && q[k] in live
    ensures var a := |Purge(q[..k], live)|; a < |Purge(q, live)| && Purge(q, live)[a] == q[k]
  {
    assert q == q[..k] + q[k..];
    PurgeAppend(q[..k], q[k..], live);
    assert Purge(q[k..], live)[0] == q[k];
  }

  /** The place of the k-th waiter after one event, or None once it has been woken. */
  function PlaceAfter(s: Sem, k: nat, e: Event): Option<nat>
    requires k < |s.queue|
  {
    match e
    case WaitEvent(_, _) => Some(k)
    case PostEvent(live) =>
      var ahead := |Purge(s.queue[..k], live)|;
      if ahead == 0 then None else Some(ahead - 1)
  }

  /** A waiter that is alive at a post either gets the permit, being first among the living, or moves up. */
  lemma PlaceMoves(s: Sem, k: nat, e: Event)
    requires SemOk(s) && k < |s.queue| && (e.PostEvent? ==> s.queue[k] in e.live)
    ensures match e
            case WaitEvent(pid, g) => k < |Wait(s, pid, g).0.queue| && Wait(s, pid, g).0.queue[k] == s.queue[k]
            case PostEvent(live) =>
              var (s', woken) := Post(s, live);
              match PlaceAfter(s, k, e)
              case None => woken == Some(s.queue[k])
              case Some(j) => j < k && j < |s'.queue| && s'.queue[j] == s.queue[k]
  {
    match e
    case WaitEvent(_, _) =>
    case PostEvent(live) =>
      PurgePlace(s.queue, k, live);
  }

  /** The k-th waiter is alive at every post of the run for as long as it waits. */
  predicate AliveWhileWaiting(s: Sem, k: nat, es: seq<Event>)
    requires SemOk(s) && k < |s.queue|
    decreases |es|
  {
    es == [] ||
    (&& (es[0].PostEvent? ==> s.queue[k] in es[0].live)
     && (PlaceMoves(s, k, es[0]);
         var s' := Step(Tally(s, 0, 0, 0), es[0]).s;
         match PlaceAfter(s, k, es[0])
         case None => true
         case Some(j) => AliveWhileWaiting(s', j, es[1..])))
  }

  /** Is the k-th waiter still in the queue at the end of the run? */
  predicate StillWaiting(s: Sem, k: nat, es: seq<Event>)
    requires SemOk(s) && k < |s.queue| && AliveWhileWaiting(s, k, es)
    decreases |es|
  {
    es == [] ||
    (PlaceMoves(s, k, es[0]);
     var s' := Step(Tally(s, 0, 0, 0), es[0]).s;
     match PlaceAfter(s, k, es[0])
     case None => false
     case Some(j) => StillWaiting(s', j, es[1..]))
  }

  /** First come, first served: a live waiter with k others ahead of it is woken by the (k+1)-th post at the latest. */
  lemma {:induction false} WokenInTurn(s: Sem, k: nat, es: seq<Event>)
    requires SemOk(s) && k < |s.queue| && AliveWhileWaiting(s, k, es) && StillWaiting(s, k, es)
    ensures Posts(es) <= k
    decreases |es|
  {
    if es != [] {
      PlaceMoves(s, k, es[0]);
      var s' := Step(Tally(s, 0, 0, 0), es[0]).s;
      WokenInTurn(s', PlaceAfter(s, k, es[0]).value, es[1..]);
    }
  }
}
