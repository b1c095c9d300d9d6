/** Locks with priority inheritance: when a process blocks on a lock, the holders of the lock inherit its
    priority, and so do the holders of the locks that those wait for. */
module PriorityInheritance {
  import opened Codes
  import opened QueueSpec
  import QueueTables
  import opened LockQueues

  /** `oprio` is the priority a boosted process had before. */
  datatype PEntry = PEntry(free: bool, prio: int, boosted: bool, oprio: int, plock: int)

  /** `holds[i] > 0` for each process `i` that holds the lock. */
  datatype LockEntry = LockEntry(prio: int, holds: seq<int>)

  datatype Table = Table(procs: seq<PEntry>, locks: seq<LockEntry>)

  predicate BadLock(l: int) { l < 0 || l >= NLOCKS }

  ghost predicate WellFormed(t: Table)
  {
    && |t.procs| == NPROC && |t.locks| == NLOCKS
    && forall l :: 0 <= l < NLOCKS ==> |t.locks[l].holds| == NPROC
  }

  predicate Holds(t: Table, l: nat, h: nat)
    requires l < |t.locks| && h < |t.locks[l].holds|
  {
    t.locks[l].holds[h] > 0
  }

  /** Process `p` waits for a lock that `h` holds. */
  ghost predicate Edge(t: Table, p: nat, h: nat)
    requires WellFormed(t) && p < NPROC && h < NPROC
  {
    !t.procs[p].free && !BadLock(t.procs[p].plock) && Holds(t, t.procs[p].plock, h)
  }

  /** The holder runs at no lower a priority than the one who waits for it. */
  ghost predicate Ordered(t: Table, p: nat, h: nat)
    requires WellFormed(t) && p < NPROC && h < NPROC
  {
    t.procs[p].prio <= t.procs[h].prio
  }

  /** Along every edge from a process of the set a rank goes down. */
  ghost predicate Ranked(t: Table, rank: seq<nat>, reach: set<int>)
    requires WellFormed(t)
  {
    |rank| == NPROC
    && forall p, h :: 0 <= p < NPROC && 0 <= h < NPROC && p in reach && Edge(t, p, h) ==> rank[h] < rank[p]
  }

  /** From `p` one can go `n` edges along the graph: so deep the recursion goes, for it leaves the graph alone. */
  ghost predicate Path(t: Table, p: nat, n: nat)
    requires WellFormed(t) && p < NPROC
    decreases n
  {
    n == 0 || exists h :: 0 <= h < NPROC && Edge(t, p, h) && Path(t, h, n - 1)
  }

  lemma {:induction false} PathsEnd(t: Table, rank: seq<nat>, reach: set<int>, p: nat, n: nat)
    requires WellFormed(t) && Ranked(t, rank, reach) && Closed(t, reach) && p < NPROC && p in reach && Path(t, p, n)
    ensures n <= rank[p]
    decreases n
  {
    hide Edge;
    if n > 0 {
      var h :| 0 <= h < NPROC && Edge(t, p, h) && Path(t, h, n - 1);
      PathsEnd(t, rank, reach, h, n - 1);
    }
  }

  /** The longest path from `p`, of those shorter than `n`. */
  ghost function Longest(t: Table, p: nat, n: nat): (r: nat)
    requires WellFormed(t) && p < NPROC && n > 0
    ensures r < n && Path(t, p, r) && forall m :: r < m < n ==> !Path(t, p, m)
  {
    if n == 1 || Path(t, p, n - 1) then n - 1 else Longest(t, p, n - 1)
  }

  /** The recursion's depth is bounded in the part of the graph that can be reached, if and only if that has a rank:
      what `SwapPriority` demands is just that it ends. */
  lemma BoundedIffRanked(t: Table, reach: set<int>)
    requires WellFormed(t) && Closed(t, reach) && forall p :: p in reach ==> 0 <= p < NPROC
    ensures (exists n: nat :: Bounded(t, reach, n)) <==> exists rank: seq<nat> :: Ranked(t, rank, reach)
  {
    if n: nat :| Bounded(t, reach, n) {
      HasRank(t, reach, n);
    }
    if rank: seq<nat> :| Ranked(t, rank, reach) {
      var n := Sum(rank, NPROC) + 1;
      forall p | 0 <= p < NPROC && p in reach
        ensures !Path(t, p, n)
      {
        SumAtLeast(rank, NPROC, p);
        if Path(t, p, n) { PathsEnd(t, rank, reach, p, n); }
      }
      assert Bounded(t, reach, n);
    }
  }

  ghost predicate Bounded(t: Table, reach: set<int>, n: nat)
    requires WellFormed(t)
  {
    n > 0 && forall p :: 0 <= p < NPROC && p in reach ==> !Path(t, p, n)
  }

  lemma HasRank(t: Table, reach: set<int>, n: nat)
    requires WellFormed(t) && Closed(t, reach) && Bounded(t, reach, n)
    ensures exists rank: seq<nat> :: Ranked(t, rank, reach)
  {
    hide Edge;
    var rank: seq<nat> := seq(NPROC, p requires 0 <= p < NPROC => Longest(t, p, n));
    forall p, h | 0 <= p < NPROC && 0 <= h < NPROC && p in reach && Edge(t, p, h)
      ensures rank[h] < rank[p]
    {
      assert Path(t, p, rank[h] + 1);
    }
    assert Ranked(t, rank, reach);
  }

  function Sum(rank: seq<nat>, n: nat): nat
    requires n <= |rank|
  {
    if n == 0 then 0 else Sum(rank, n - 1) + rank[n - 1]
  }

  lemma {:induction false} SumAtLeast(rank: seq<nat>, n: nat, p: nat)
    requires p < n <= |rank|
    ensures rank[p] <= Sum(rank, n)
  {
    if p < n - 1 { SumAtLeast(rank, n - 1, p); }
  }

  /** The priority a process has of its own. */
  function BasePrio(p: PEntry): int { if p.boosted then p.oprio else p.prio }

  /** Waiting and holding are the same. */
  ghost predicate SameGraph(t: Table, t': Table)
    requires WellFormed(t) && WellFormed(t')
  {
    && (forall p :: 0 <= p < NPROC ==> t'.procs[p].free == t.procs[p].free && t'.procs[p].plock == t.procs[p].plock)
    && forall l :: 0 <= l < NLOCKS ==> t'.locks[l].holds == t.locks[l].holds
  }

  /** Process `p` may have been raised, and then remembers its own priority. */
  predicate Raised(p: PEntry, p': PEntry)
  {
    p.prio <= p'.prio && BasePrio(p') == BasePrio(p) && if p'.prio == p.prio then p' == p else p'.boosted
  }

  ghost predicate OnlyRaised(t: Table, t': Table)
    requires WellFormed(t) && WellFormed(t')
  {
    && (forall p :: 0 <= p < NPROC ==> Raised(t.procs[p], t'.procs[p]))
    && forall l :: 0 <= l < NLOCKS ==> t.locks[l].prio <= t'.locks[l].prio
  }

  /** Process `p` waits for lock `l`. */
  ghost predicate WaitsFor(t: Table, p: nat, l: int)
    requires WellFormed(t) && p < NPROC
  {
    !t.procs[p].free && t.procs[p].plock == l && !BadLock(l)
  }

  /** Priorities `want` of processes and `ask` of locks that inheritance may lead to: none below what it is, no lock
      below those who wait for it, and no holder below what its lock asks for. */
  ghost predicate Accepts(t: Table, want: seq<int>, ask: seq<int>)
    requires WellFormed(t)
  {
    && |want| == NPROC && |ask| == NLOCKS
    && (forall p :: 0 <= p < NPROC ==> t.procs[p].prio <= want[p])
    && (forall l :: 0 <= l < NLOCKS ==> t.locks[l].prio <= ask[l])
    && (forall l, h :: 0 <= l < NLOCKS && 0 <= h < NPROC && Holds(t, l, h) ==> ask[l] <= want[h])
    && forall p, l :: 0 <= p < NPROC && 0 <= l < NLOCKS && WaitsFor(t, p, l) ==> want[p] <= ask[l]
  }

  /** Nothing is raised higher than it must be. */
  ghost predicate NoHigher(t: Table, t': Table)
    requires WellFormed(t) && WellFormed(t')
  {
    forall want, ask :: Accepts(t, want, ask) ==> Accepts(t', want, ask)
  }

  /** The lock that process `p` waits for, if any, records a priority no lower than its. */
  ghost predicate Asked(t: Table, p: nat)
    requires WellFormed(t) && p < NPROC
  {
    forall l :: 0 <= l < NLOCKS && WaitsFor(t, p, l) ==> t.procs[p].prio <= t.locks[l].prio
  }

  /** If process `h` holds lock `l`, it runs at no lower a priority than the lock records. */
  ghost predicate Covered(t: Table, l: nat, h: nat)
    requires WellFormed(t) && l < NLOCKS && h < NPROC
  {
    Holds(t, l, h) ==> t.locks[l].prio <= t.procs[h].prio
  }

  /** Who asked enough and who was covered still is; but for lock `ld`, which may have come to ask for more. */
  ghost predicate AskedKept(t: Table, t': Table)
    requires WellFormed(t) && WellFormed(t')
  {
    forall p :: 0 <= p < NPROC && Asked(t, p) ==> Asked(t', p)
  }

  ghost predicate CoverKept(t: Table, t': Table, ld: int)
    requires WellFormed(t) && WellFormed(t')
  {
    forall l, h :: 0 <= l < NLOCKS && 0 <= h < NPROC && l != ld && Covered(t, l, h) ==> Covered(t', l, h)
  }

  /** The priority the lock records once process `p` waits for it. */
  function Larger(t: Table, l: nat, p: nat): int
    requires l < |t.locks| && p < |t.procs|
  {
    if t.locks[l].prio < t.procs[p].prio then t.procs[p].prio else t.locks[l].prio
  }

  /** Edges in order before are in order after. */
  ghost predicate OrderKept(t: Table, t': Table)
    requires WellFormed(t) && WellFormed(t')
  {
    forall p, h :: 0 <= p < NPROC && 0 <= h < NPROC && Edge(t, p, h) && Ordered(t, p, h) ==> Ordered(t', p, h)
  }

  /** The set has with each process all whom it waits for. */
  ghost predicate Closed(t: Table, reach: set<int>)
    requires WellFormed(t)
  {
    forall p, h :: 0 <= p < NPROC && 0 <= h < NPROC && p in reach && Edge(t, p, h) ==> h in reach
  }

  /** Some process of the set, of a rank no higher than `r`, waits for the lock. */
  ghost predicate Reached(t: Table, l: nat, rank: seq<nat>, r: nat, reach: set<int>)
    requires WellFormed(t) && |rank| == NPROC && l < NLOCKS
  {
    exists p :: 0 <= p < NPROC && p in reach && WaitsFor(t, p, l) && rank[p] <= r
  }

  /** Only processes of the set, of a rank below `r`, have changed, and only locks for which they or one of rank `r`
      wait. */
  ghost predicate Within(t: Table, t': Table, rank: seq<nat>, r: nat, reach: set<int>)
    requires WellFormed(t) && WellFormed(t') && |rank| == NPROC
  {
    && (forall p :: 0 <= p < NPROC && (rank[p] >= r || p !in reach) ==> t'.procs[p] == t.procs[p])
    && forall l :: 0 <= l < NLOCKS && !Reached(t, l, rank, r, reach) ==> t'.locks[l] == t.locks[l]
  }

  /** What a call of `swapPriority` does. */
  ghost predicate Inherits(t: Table, t': Table, pid: int, ld: int)
    requires WellFormed(t) && WellFormed(t')
  {
    && SameGraph(t, t') && OnlyRaised(t, t') && NoHigher(t, t') && OrderKept(t, t')
    && AskedKept(t, t') && CoverKept(t, t', -1)
    && (0 <= pid < NPROC && WaitsFor(t, pid, ld) ==>
          && t'.locks[ld].prio == Larger(t, ld, pid) && Asked(t', pid)
          && (forall h :: 0 <= h < NPROC ==> Covered(t', ld, h))
          && forall h :: 0 <= h < NPROC && Edge(t, pid, h) ==> Ordered(t', pid, h))
  }

  /** What holds of the table when the holders below `i` have been seen to. */
  ghost predicate Progress(t0: Table, t: Table, pid: nat, ld: nat, hprio: int, i: nat, rank: seq<nat>, reach: set<int>)
    requires WellFormed(t0) && WellFormed(t) && pid < NPROC && ld < NLOCKS && |rank| == NPROC
  {
    && SameGraph(t0, t) && OnlyRaised(t0, t) && NoHigher(t0, t) && OrderKept(t0, t)
    && AskedKept(t0, t) && CoverKept(t0, t, ld) && Within(t0, t, rank, rank[pid], reach)
    && t.procs[pid].prio <= hprio == t.locks[ld].prio == Larger(t0, ld, pid)
    && forall h :: 0 <= h < i && h < NPROC && Holds(t, ld, h) ==> hprio <= t.procs[h].prio
  }

  lemma SameEdges(t: Table, t': Table, p: nat, h: nat)
    requires WellFormed(t) && WellFormed(t') && SameGraph(t, t') && p < NPROC && h < NPROC
    ensures Edge(t', p, h) <==> Edge(t, p, h)
  {
  }

  lemma SameRank(t: Table, t': Table, rank: seq<nat>, reach: set<int>)
    requires WellFormed(t) && WellFormed(t') && SameGraph(t, t') && Ranked(t, rank, reach) && Closed(t, reach)
    ensures Ranked(t', rank, reach) && Closed(t', reach)
  {
    hide Edge;
    forall p, h | 0 <= p < NPROC && 0 <= h < NPROC && Edge(t', p, h)
      ensures Edge(t, p, h)
    {
      SameEdges(t, t', p, h);
    }
  }

  /** The lock comes to ask for the priority of a process that waits for it. */
  function Asking(t: Table, pid: nat, ld: nat): Table
    requires pid < |t.procs| && ld < |t.locks|
  {
    t.(locks := t.locks[ld := t.locks[ld].(prio := Larger(t, ld, pid))])
  }

  lemma AskMore(t: Table, t': Table, pid: nat, ld: nat, rank: seq<nat>, reach: set<int>)
    requires WellFormed(t) && pid < NPROC && ld < NLOCKS && |rank| == NPROC && pid in reach
    requires WaitsFor(t, pid, ld) && t' == Asking(t, pid, ld)
    ensures WellFormed(t') && Progress(t, t', pid, ld, t'.locks[ld].prio, 0, rank, reach)
  {
    forall want, ask | Accepts(t, want, ask)
      ensures Accepts(t', want, ask)
    {
      assert want[pid] <= ask[ld];
      WaitsSame(t, t');
      HoldsSame(t, t');
    }
    WaitsSame(t, t');
    assert Reached(t, ld, rank, rank[pid], reach);
    hide Accepts, Edge, Reached;
  }

  lemma WaitsSame(t: Table, t': Table)
    requires WellFormed(t) && WellFormed(t') && SameGraph(t, t')
    ensures forall p, l :: 0 <= p < NPROC ==> (WaitsFor(t', p, l) <==> WaitsFor(t, p, l))
  {
  }

  lemma HoldsSame(t: Table, t': Table)
    requires WellFormed(t) && WellFormed(t') && SameGraph(t, t')
    ensures forall l, h :: 0 <= l < NLOCKS && 0 <= h < NPROC ==> (Holds(t', l, h) <==> Holds(t, l, h))
  {
  }

  /** Process `i` raised to `hprio`, if it was lower. */
  ghost predicate RaisedOne(t: Table, t': Table, i: nat, hprio: int)
    requires WellFormed(t) && WellFormed(t') && i < NPROC
  {
    && t'.locks == t.locks && t'.procs == t.procs[i := t'.procs[i]]
    && t'.procs[i].free == t.procs[i].free && t'.procs[i].plock == t.procs[i].plock && Raised(t.procs[i], t'.procs[i])
    && t'.procs[i].prio == if t.procs[i].prio < hprio then hprio else t.procs[i].prio
  }

  lemma RaisedAccepts(t: Table, t': Table, ld: nat, i: nat, hprio: int, want: seq<int>, ask: seq<int>)
    requires WellFormed(t) && WellFormed(t') && i < NPROC && ld < NLOCKS && RaisedOne(t, t', i, hprio)
    requires Holds(t, ld, i) && hprio <= t.locks[ld].prio && Accepts(t, want, ask)
    ensures Accepts(t', want, ask)
  {
    assert t.locks[ld].prio <= ask[ld] <= want[i];
    WaitsSame(t, t');
    HoldsSame(t, t');
  }

  lemma StepOrder(t0: Table, t: Table, t1: Table, t2: Table, i: nat, hprio: int)
    requires WellFormed(t0) && WellFormed(t) && WellFormed(t1) && WellFormed(t2) && i < NPROC
    requires SameGraph(t0, t) && OrderKept(t0, t) && RaisedOne(t, t1, i, hprio)
    requires Inherits(t1, t2, i, t1.procs[i].plock)
    ensures OrderKept(t0, t2)
  {
    forall p, h | 0 <= p < NPROC && 0 <= h < NPROC && Edge(t0, p, h) && Ordered(t0, p, h)
      ensures Ordered(t2, p, h)
    {
      SameEdges(t0, t, p, h);
      SameEdges(t, t1, p, h);
      assert Ordered(t, p, h);
      if p != i { assert Ordered(t1, p, h); }
    }
  }

  lemma StepWithin(t0: Table, t: Table, t1: Table, t2: Table, pid: nat, i: nat, hprio: int, rank: seq<nat>,
                   reach: set<int>)
    requires WellFormed(t0) && WellFormed(t) && WellFormed(t1) && WellFormed(t2) && pid < NPROC && i < NPROC
    requires |rank| == NPROC
    requires Within(t0, t, rank, rank[pid], reach) && RaisedOne(t, t1, i, hprio) && Within(t1, t2, rank, rank[i], reach)
    requires rank[i] < rank[pid] && i in reach && SameGraph(t0, t1)
    ensures Within(t0, t2, rank, rank[pid], reach)
  {
    WaitsSame(t0, t1);
  }

  /** The recursion comes back neither to the process nor to the lock it waits for. */
  lemma LockSpared(t0: Table, t1: Table, t2: Table, ld: nat, i: nat, rank: seq<nat>, reach: set<int>)
    requires WellFormed(t0) && WellFormed(t1) && WellFormed(t2) && ld < NLOCKS && i < NPROC && |rank| == NPROC
    requires SameGraph(t0, t1) && Ranked(t0, rank, reach) && Holds(t0, ld, i) && Within(t1, t2, rank, rank[i], reach)
    ensures t2.locks[ld] == t1.locks[ld]
  {
    WaitsSame(t0, t1);
    if Reached(t1, ld, rank, rank[i], reach) {
      var p :| 0 <= p < NPROC && p in reach && WaitsFor(t1, p, ld) && rank[p] <= rank[i];
      assert WaitsFor(t0, p, ld) && Edge(t0, p, i);
    }
  }

  lemma StepAsked(t0: Table, t: Table, t1: Table, t2: Table, i: nat, hprio: int)
    requires WellFormed(t0) && WellFormed(t) && WellFormed(t1) && WellFormed(t2) && i < NPROC
    requires AskedKept(t0, t) && RaisedOne(t, t1, i, hprio) && Inherits(t1, t2, i, t1.procs[i].plock)
    ensures AskedKept(t0, t2)
  {
    forall p | 0 <= p < NPROC && Asked(t0, p)
      ensures Asked(t2, p)
    {
      assert Asked(t, p);
      if p != i {
        assert Asked(t1, p);
      } else if !WaitsFor(t1, i, t1.procs[i].plock) {
        assert Asked(t1, i);
      }
    }
  }

  lemma StepCovered(t0: Table, t: Table, t1: Table, t2: Table, ld: nat, i: nat, hprio: int)
    requires WellFormed(t0) && WellFormed(t) && WellFormed(t1) && WellFormed(t2) && i < NPROC && ld < NLOCKS
    requires CoverKept(t0, t, ld) && RaisedOne(t, t1, i, hprio) && Inherits(t1, t2, i, t1.procs[i].plock)
    ensures CoverKept(t0, t2, ld)
  {
    forall l, h | 0 <= l < NLOCKS && 0 <= h < NPROC && l != ld && Covered(t0, l, h)
      ensures Covered(t2, l, h)
    {
      assert Covered(t, l, h);
      assert Covered(t1, l, h);
    }
  }

  lemma StepHigher(t0: Table, t: Table, t1: Table, t2: Table, ld: nat, i: nat, hprio: int)
    requires WellFormed(t0) && WellFormed(t) && WellFormed(t1) && WellFormed(t2) && i < NPROC && ld < NLOCKS
    requires NoHigher(t0, t) && RaisedOne(t, t1, i, hprio) && NoHigher(t1, t2) && Holds(t, ld, i)
    requires hprio <= t.locks[ld].prio
    ensures NoHigher(t0, t2)
  {
    hide Accepts;
    forall want, ask | Accepts(t0, want, ask)
      ensures Accepts(t2, want, ask)
    {
      RaisedAccepts(t, t1, ld, i, hprio, want, ask);
    }
  }

  lemma StepRaised(t0: Table, t: Table, t1: Table, t2: Table, i: nat, hprio: int)
    requires WellFormed(t0) && WellFormed(t) && WellFormed(t1) && WellFormed(t2) && i < NPROC
    requires SameGraph(t0, t) && OnlyRaised(t0, t) && RaisedOne(t, t1, i, hprio) && SameGraph(t1, t2)
    requires OnlyRaised(t1, t2)
    ensures SameGraph(t0, t2) && OnlyRaised(t0, t2) && OnlyRaised(t, t2) && SameGraph(t, t2)
  {
    forall p | 0 <= p < NPROC
      ensures Raised(t.procs[p], t2.procs[p]) && Raised(t0.procs[p], t2.procs[p])
    {
      assert Raised(t.procs[p], t1.procs[p]) && Raised(t1.procs[p], t2.procs[p]) && Raised(t0.procs[p], t.procs[p]);
    }
  }

  lemma SameGraphs(t0: Table, t: Table, t1: Table, i: nat, hprio: int)
    requires WellFormed(t0) && WellFormed(t) && WellFormed(t1) && i < NPROC
    requires SameGraph(t0, t) && RaisedOne(t, t1, i, hprio)
    ensures SameGraph(t0, t1) && t1.locks == t.locks
  {
  }

  /** One holder more has been raised and has passed it on. */
  lemma ProgressStep(t0: Table, t: Table, t1: Table, t2: Table, pid: nat, ld: nat, hprio: int, i: nat,
                     rank: seq<nat>, reach: set<int>)
    requires WellFormed(t0) && WellFormed(t) && WellFormed(t1) && WellFormed(t2) && pid < NPROC && ld < NLOCKS
    requires i < NPROC
    requires Ranked(t0, rank, reach) && Closed(t0, reach) && pid in reach && !t0.procs[pid].free
    requires t0.procs[pid].plock == ld
    requires Progress(t0, t, pid, ld, hprio, i, rank, reach) && Holds(t, ld, i)
    requires RaisedOne(t, t1, i, hprio) && Inherits(t1, t2, i, t1.procs[i].plock)
    requires Within(t1, t2, rank, rank[i], reach)
    ensures Progress(t0, t2, pid, ld, hprio, i + 1, rank, reach)
  {
    hide OrderKept, NoHigher, Within, Ranked, Closed, AskedKept, CoverKept, SameGraph, OnlyRaised, RaisedOne, Asked,
      Covered, Edge;
    RaisedGraph(t0, t, t1, pid, ld, i, hprio, rank, reach);
    SameGraphs(t0, t, t1, i, hprio);
    StepRaised(t0, t, t1, t2, i, hprio);
    StepOrder(t0, t, t1, t2, i, hprio);
    StepWithin(t0, t, t1, t2, pid, i, hprio, rank, reach);
    StepHigher(t0, t, t1, t2, ld, i, hprio);
    StepAsked(t0, t, t1, t2, i, hprio);
    StepCovered(t0, t, t1, t2, ld, i, hprio);
    LockSpared(t0, t1, t2, ld, i, rank, reach);
    hide Inherits;
    assert t2.procs[pid] == t.procs[pid] by { Unmoved(t0, t, rank, reach, pid); Unmoved(t0, t2, rank, reach, pid); }
    HoldsSame(t, t2);
    forall h | 0 <= h < i + 1 && h < NPROC && Holds(t2, ld, h)
      ensures hprio <= t2.procs[h].prio
    {
      RaisedAt(t, t1, t2, i, hprio, h);
    }
  }

  lemma RaisedAt(t: Table, t1: Table, t2: Table, i: nat, hprio: int, h: nat)
    requires WellFormed(t) && WellFormed(t1) && WellFormed(t2) && i < NPROC && h < NPROC
    requires RaisedOne(t, t1, i, hprio) && Inherits(t1, t2, i, t1.procs[i].plock)
    ensures t.procs[h].prio <= t1.procs[h].prio <= t2.procs[h].prio && (h == i ==> hprio <= t1.procs[h].prio)
  {
    assert Raised(t1.procs[h], t2.procs[h]);
  }

  lemma Unmoved(t0: Table, t: Table, rank: seq<nat>, reach: set<int>, pid: nat)
    requires WellFormed(t0) && WellFormed(t) && pid < NPROC && |rank| == NPROC && Within(t0, t, rank, rank[pid], reach)
    ensures t.procs[pid] == t0.procs[pid]
  {
  }

  /** When all holders have been seen to, the call has done its work. */
  lemma ProgressDone(t0: Table, t: Table, pid: nat, ld: nat, hprio: int, rank: seq<nat>, reach: set<int>)
    requires WellFormed(t0) && WellFormed(t) && pid < NPROC && ld < NLOCKS && |rank| == NPROC
    requires Progress(t0, t, pid, ld, hprio, NPROC, rank, reach)
    ensures Inherits(t0, t, pid, ld)
  {
    forall h | 0 <= h < NPROC && Edge(t0, pid, h) && t0.procs[pid].plock == ld
      ensures Ordered(t, pid, h)
    {
      assert Holds(t, ld, h);
    }
    hide OrderKept, NoHigher;
  }

  lemma Still(t: Table, rank: seq<nat>, r: nat, reach: set<int>)
    requires WellFormed(t) && |rank| == NPROC
    ensures Within(t, t, rank, r, reach)
  {
  }

  lemma ProgressGraph(t0: Table, t: Table, pid: nat, ld: nat, hprio: int, i: nat, rank: seq<nat>, reach: set<int>)
    requires WellFormed(t0) && WellFormed(t) && pid < NPROC && ld < NLOCKS && |rank| == NPROC
    requires Progress(t0, t, pid, ld, hprio, i, rank, reach)
    ensures Within(t0, t, rank, rank[pid], reach) && SameGraph(t0, t)
  {
  }

  lemma ProgressSkip(t0: Table, t: Table, pid: nat, ld: nat, hprio: int, i: nat, rank: seq<nat>, reach: set<int>)
    requires WellFormed(t0) && WellFormed(t) && pid < NPROC && ld < NLOCKS && |rank| == NPROC && i < NPROC
    requires Progress(t0, t, pid, ld, hprio, i, rank, reach) && !Holds(t, ld, i)
    ensures Progress(t0, t, pid, ld, hprio, i + 1, rank, reach)
  {
    hide SameGraph, OnlyRaised, NoHigher, OrderKept, Within;
  }

  /** A holder that has been raised waits for others of lower rank, if at all. */
  lemma RaisedGraph(t0: Table, t: Table, t1: Table, pid: nat, ld: nat, i: nat, hprio: int, rank: seq<nat>,
                    reach: set<int>)
    requires WellFormed(t0) && WellFormed(t) && WellFormed(t1) && pid < NPROC && ld < NLOCKS && i < NPROC
    requires Ranked(t0, rank, reach) && Closed(t0, reach) && pid in reach && !t0.procs[pid].free
    requires t0.procs[pid].plock == ld
    requires SameGraph(t0, t) && RaisedOne(t, t1, i, hprio) && Holds(t, ld, i)
    ensures Ranked(t1, rank, reach) && Closed(t1, reach) && rank[i] < rank[pid] && i in reach
  {
    assert Edge(t0, pid, i);
    assert SameGraph(t0, t1);
    SameRank(t0, t1, rank, reach);
  }

  lemma NothingToDo(t: Table, pid: int, ld: int)
    requires WellFormed(t)
    requires !BadLock(ld) ==> pid < 0 || pid >= NPROC || t.procs[pid].free
    ensures Inherits(t, t, pid, ld)
  {
  }

  /** Every holder runs at no lower a priority than those who wait for it; those who wait with `pid` aside. */
  ghost predicate InOrder(t: Table, pid: int)
    requires WellFormed(t)
  {
    forall p, h :: 0 <= p < NPROC && 0 <= h < NPROC && p != pid && Edge(t, p, h) ==> Ordered(t, p, h)
  }

  /** Every lock records at least the priority of whoever waits for it, `pid` aside, and every holder runs at no lower a
      priority than its lock records. */
  ghost predicate SettledBut(t: Table, pid: int)
    requires WellFormed(t)
  {
    && (forall p :: 0 <= p < NPROC && p != pid ==> Asked(t, p))
    && forall l, h :: 0 <= l < NLOCKS && 0 <= h < NPROC ==> Covered(t, l, h)
  }

  /** If only `pid` had not asked yet, all is settled afterwards. */
  lemma SettledThroughout(t: Table, t': Table, pid: nat, ld: int)
    requires WellFormed(t) && WellFormed(t') && Inherits(t, t', pid, ld) && pid < NPROC && WaitsFor(t, pid, ld)
    requires SettledBut(t, pid)
    ensures SettledBut(t', -1)
  {
    hide Asked, Covered, SameGraph, OnlyRaised, NoHigher, OrderKept;
  }

  function Prios(t: Table): seq<int>
  {
    seq(|t.procs|, p requires 0 <= p < |t.procs| => t.procs[p].prio)
  }

  function Asks(t: Table): seq<int>
  {
    seq(|t.locks|, l requires 0 <= l < |t.locks| => t.locks[l].prio)
  }

  /** What comes out is the least that inheritance may lead to. */
  lemma LeastInherited(t: Table, t': Table, pid: nat, ld: int)
    requires WellFormed(t) && WellFormed(t') && Inherits(t, t', pid, ld) && pid < NPROC && WaitsFor(t, pid, ld)
    requires SettledBut(t, pid)
    ensures Accepts(t, Prios(t'), Asks(t'))
    ensures forall want, ask :: Accepts(t, want, ask) ==>
              && (forall p :: 0 <= p < NPROC ==> t'.procs[p].prio <= want[p])
              && forall l :: 0 <= l < NLOCKS ==> t'.locks[l].prio <= ask[l]
  {
    SettledThroughout(t, t', pid, ld);
    WaitsSame(t, t');
    HoldsSame(t, t');
    forall p | 0 <= p < NPROC
      ensures t.procs[p].prio <= Prios(t')[p]
    {
      assert Raised(t.procs[p], t'.procs[p]);
    }
    hide Inherits, SameGraph, OrderKept;
    forall p, l | 0 <= p < NPROC && 0 <= l < NLOCKS && WaitsFor(t, p, l)
      ensures Prios(t')[p] <= Asks(t')[l]
    {
      assert Asked(t', p) && WaitsFor(t', p, l);
    }
    forall l, h | 0 <= l < NLOCKS && 0 <= h < NPROC && Holds(t, l, h)
      ensures Asks(t')[l] <= Prios(t')[h]
    {
      assert Covered(t', l, h) && Holds(t', l, h);
    }
  }

  /** Priorities are inherited all along the graph: if only edges out of `pid` were out of order, none is left. */
  lemma InheritedThroughout(t: Table, t': Table, pid: int, ld: int)
    requires WellFormed(t) && WellFormed(t') && Inherits(t, t', pid, ld) && InOrder(t, pid)
    requires 0 <= pid < NPROC && !t.procs[pid].free && t.procs[pid].plock == ld
    ensures InOrder(t', -1)
  {
    hide Edge, Ordered;
    forall p, h | 0 <= p < NPROC && 0 <= h < NPROC && Edge(t', p, h)
      ensures Ordered(t', p, h)
    {
      SameEdges(t, t', p, h);
      EdgeWaits(t, p, h);
    }
  }

  lemma EdgeWaits(t: Table, p: nat, h: nat)
    requires WellFormed(t) && p < NPROC && h < NPROC && Edge(t, p, h)
    ensures WaitsFor(t, p, t.procs[p].plock)
  {
  }

  /** Process `pid` waits for lock `lid`. */
  function WaitingFor(t: Table, pid: nat, lid: nat): Table
    requires pid < |t.procs|
  {
    t.(procs := t.procs[pid := t.procs[pid].(plock := lid)])
  }

  lemma AskThenInherit(t: Table, t1: Table, t2: Table, pid: nat, ld: nat, rank: seq<nat>, reach: set<int>)
    requires WellFormed(t) && WellFormed(t1) && WellFormed(t2) && pid < NPROC && ld < NLOCKS && |rank| == NPROC
    requires pid in reach && !t.procs[pid].free && t.procs[pid].plock == ld
    requires t1 == Asking(t, pid, ld) && Inherits(t1, t2, pid, ld)
    ensures Inherits(t, t2, pid, ld)
  {
    AskMore(t, t1, pid, ld, rank, reach);
    forall p | 0 <= p < NPROC
      ensures Raised(t.procs[p], t2.procs[p])
    {
      assert Raised(t.procs[p], t1.procs[p]) && Raised(t1.procs[p], t2.procs[p]);
    }
    hide Accepts, Edge;
    forall p, h | 0 <= p < NPROC && 0 <= h < NPROC
      ensures Edge(t1, p, h) <==> Edge(t, p, h)
    {
      SameEdges(t, t1, p, h);
    }
  }

  lemma AskedGraph(t: Table, t1: Table, pid: nat, ld: nat, rank: seq<nat>, reach: set<int>)
    requires WellFormed(t) && pid < NPROC && ld < NLOCKS && t1 == Asking(t, pid, ld)
    requires Ranked(t, rank, reach) && Closed(t, reach)
    ensures WellFormed(t1) && Ranked(t1, rank, reach) && Closed(t1, reach)
  {
    SameRank(t, t1, rank, reach);
  }

  class LockTable {
    const procTab: array<PEntry>
    const lockTab: array<LockEntry>
    const waiting: array<bool>               // is the process in the state of waiting
    const waitRet: array<int>                // what its wait returns
    const lqhead: array<nat>                 // the queue of each lock
    const lockQueues: LockQueueTable
    ghost const first: nat                   // place of the first lock's queue among the queues

    ghost predicate Valid()
      reads this, procTab, lockTab
    {
      WellFormed(Now())
    }

    /** Each lock has its queue. */
    ghost predicate Queued()
      reads this, lqhead, lockQueues, lockQueues.queues, lockQueues.queues.tab
    {
      && lockQueues.Valid() && first + NLOCKS <= |lockQueues.queues.lists| && lqhead.Length == NLOCKS
      && waiting.Length == waitRet.Length == NPROC
      && forall l :: 0 <= l < NLOCKS ==> lqhead[l] == Head(first + l)
    }

    /** Who waits for a lock, first in line first. */
    ghost function Waiters(l: nat): seq<Waiter>
      requires Queued() && l < NLOCKS
      reads this, lqhead, lockQueues, lockQueues.queues, lockQueues.queues.tab, lockQueues.qtype
    {
      lockQueues.Waiters(first + l)
    }

    ghost function Now(): Table
      reads this, procTab, lockTab
    {
      Table(procTab[..], lockTab[..])
    }

    predicate IsBadPid(pid: int)
      reads procTab
    {
      pid < 0 || pid >= procTab.Length || procTab[pid].free
    }

    /** Free locks, each with a queue of its own in the table of queues. */
    constructor (queues: QueueTables.QueueTable)
      requires queues.Valid() && queues.nextqid + 2 * NLOCKS <= NQENT
      modifies queues, queues.tab
      ensures Valid() && Queued() && lockQueues.queues == queues && first == old(|queues.lists|)
      ensures forall l :: 0 <= l < NLOCKS ==> Waiters(l) == []
      ensures fresh(procTab) && fresh(lockTab) && fresh(waiting) && fresh(waitRet) && fresh(lqhead) && fresh(lockQueues)
      ensures fresh(lockQueues.qtype)
    {
      procTab := new PEntry[NPROC](_ => PEntry(true, 0, false, 0, -1));
      lockTab := new LockEntry[NLOCKS](_ => LockEntry(-1, seq(NPROC, _ => 0)));
      waiting := new bool[NPROC](_ => false);
      waitRet := new int[NPROC](_ => 0);
      lqhead := new nat[NLOCKS](_ => 0);
      lockQueues := new LockQueueTable(queues);
      first := |queues.lists|;
      new;
      hide QueueTables.QueueTable.Valid, QueueTables.QueueTable.Keys, LockQueueTable.Waiters;
      MakeQueues();
    }

    method MakeQueues()
      requires lockQueues.Valid() && lqhead.Length == NLOCKS && waiting.Length == waitRet.Length == NPROC
      requires first == |lockQueues.queues.lists| && lockQueues.queues.nextqid + 2 * NLOCKS <= NQENT
      modifies lqhead, lockQueues.queues, lockQueues.queues.tab
      ensures Queued() && forall l :: 0 <= l < NLOCKS ==> Waiters(l) == []
    {
      hide QueueTables.QueueTable.Keys, QueueTables.Represents, QueueTables.Separate;
      var queues := lockQueues.queues;
      for l := 0 to NLOCKS
        invariant lockQueues.Valid() && |queues.lists| == first + l && queues.nextqid == Head(first + l)
        invariant forall i :: 0 <= i < l ==> lqhead[i] == Head(first + i)
        invariant forall j :: first <= j < first + l ==> queues.lists[j] == []
      {
        lqhead[l] := queues.NewQueue();
      }
      assert Queued();
      forall l | 0 <= l < NLOCKS
        ensures Waiters(l) == []
      {
        assert queues.lists[first + l] == [];
        assert |lockQueues.Waiters(first + l)| == 0;
      }
    }

    /** Raises a holder to `hprio`, remembering what it had. */
    method Raise(i: nat, hprio: int)
      requires Valid() && i < NPROC
      modifies procTab
      ensures Valid() && RaisedOne(old(Now()), Now(), i, hprio)
    {
      if procTab[i].prio < hprio {
        if !procTab[i].boosted {
          procTab[i] := procTab[i].(boosted := true, oprio := procTab[i].prio);
        }
        procTab[i] := procTab[i].(prio := hprio);
      }
    }

    /** The holders of lock `ld` inherit the priority of `pid`, which waits for it, and pass it on. */
    method SwapPriority(ld: int, pid: int, ghost rank: seq<nat>, ghost reach: set<int>)
      requires Valid() && |rank| == NPROC && Ranked(Now(), rank, reach) && Closed(Now(), reach)
      requires !IsBadPid(pid) && !BadLock(ld) ==> procTab[pid].plock == ld && pid in reach
      modifies procTab, lockTab
      ensures Valid() && Inherits(old(Now()), Now(), pid, ld)
      ensures Within(old(Now()), Now(), rank, if 0 <= pid < NPROC then rank[pid] else 0, reach)
      decreases if 0 <= pid < |rank| then rank[pid] else 0
    {
      hide Inherits, Progress, SameGraph, OnlyRaised, NoHigher, OrderKept, Edge, Ranked, Closed, Within, RaisedOne;
      ghost var t0 := Now();
      if BadLock(ld) || IsBadPid(pid) {
        NothingToDo(t0, pid, ld);
        Still(t0, rank, if 0 <= pid < NPROC then rank[pid] else 0, reach);
        return;
      }
      var hprio := lockTab[ld].prio;
      var cprio := procTab[pid].prio;
      if hprio < cprio {
        lockTab[ld] := lockTab[ld].(prio := cprio);
        hprio := cprio;
      }
      AskMore(t0, Now(), pid, ld, rank, reach);
      for i := 0 to NPROC
        invariant Valid() && Progress(t0, Now(), pid, ld, hprio, i, rank, reach)
      {
        ghost var t := Now();
        ProgressGraph(t0, t, pid, ld, hprio, i, rank, reach);
        if lockTab[ld].holds[i] > 0 {
          Raise(i, hprio);
          ghost var t1 := Now();
          RaisedGraph(t0, t, t1, pid, ld, i, hprio, rank, reach);
          SwapPriority(procTab[i].plock, i, rank, reach);
          ProgressStep(t0, t, t1, Now(), pid, ld, hprio, i, rank, reach);
        } else {
          ProgressSkip(t0, t, pid, ld, hprio, i, rank, reach);
        }
      }
      ProgressDone(t0, Now(), pid, ld, hprio, rank, reach);
      ProgressGraph(t0, Now(), pid, ld, hprio, NPROC, rank, reach);
    }

    /** A process blocks on a lock, up to where it gives up the processor. */
    method WaitLock(lid: nat, pid: nat, priority: int, kind: LockType, ghost rank: seq<nat>, ghost reach: set<int>)
      requires Valid() && Queued() && lid < NLOCKS && !IsBadPid(pid) && |rank| == NPROC
      requires QueueTables.Absent(pid, lockQueues.queues.lists) && priority > MINKEY
      requires Ranked(WaitingFor(Now(), pid, lid), rank, reach) && Closed(WaitingFor(Now(), pid, lid), reach)
      requires pid in reach
      modifies procTab, lockTab, waiting, waitRet, lockQueues.queues`lists, lockQueues.queues.tab, lockQueues.qtype
      ensures Valid() && Queued()
      ensures waiting[..] == old(waiting[..])[pid := true] && waitRet[..] == old(waitRet[..])[pid := OK]
      ensures Inherits(WaitingFor(old(Now()), pid, lid), Now(), pid, lid)
      ensures Within(WaitingFor(old(Now()), pid, lid), Now(), rank, rank[pid], reach)
      ensures InOrder(WaitingFor(old(Now()), pid, lid), pid) ==> InOrder(Now(), -1)
      ensures SettledBut(WaitingFor(old(Now()), pid, lid), pid) ==> SettledBut(Now(), -1)
      ensures Waiters(lid) == Enter(old(Waiters(lid)), Waiter(pid, priority, kind))
      ensures forall l :: 0 <= l < NLOCKS && l != lid ==> Waiters(l) == old(Waiters(l))
    {
      hide Inherits, SameGraph, OnlyRaised, NoHigher, OrderKept, Edge, Ranked, Closed, InOrder, SettledBut,
        LockQueueTable.Waiters,
        LockQueueTable.Valid, Enter, QueueTables.Absent;
      waiting[pid] := true;
      Block(lid, pid, rank, reach);
      var _ := lockQueues.InsertLockQ(pid, lqhead[lid], priority, kind, first + lid);
      waitRet[pid] := OK;
    }

    /** The process records what it waits for and hands its priority on. */
    method Block(lid: nat, pid: nat, ghost rank: seq<nat>, ghost reach: set<int>)
      requires Valid() && lid < NLOCKS && !IsBadPid(pid) && |rank| == NPROC
      requires Ranked(WaitingFor(Now(), pid, lid), rank, reach) && Closed(WaitingFor(Now(), pid, lid), reach)
      requires pid in reach
      modifies procTab, lockTab
      ensures Valid()
      ensures Inherits(WaitingFor(old(Now()), pid, lid), Now(), pid, lid)
      ensures Within(WaitingFor(old(Now()), pid, lid), Now(), rank, rank[pid], reach)
      ensures InOrder(WaitingFor(old(Now()), pid, lid), pid) ==> InOrder(Now(), -1)
      ensures SettledBut(WaitingFor(old(Now()), pid, lid), pid) ==> SettledBut(Now(), -1)
    {
      hide Inherits, SameGraph, OnlyRaised, NoHigher, OrderKept, Edge, Ranked, Closed, InOrder, SettledBut;
      procTab[pid] := procTab[pid].(plock := lid);
      ghost var t := Now();
      assert t == WaitingFor(old(Now()), pid, lid);
      if lockTab[lid].prio < procTab[pid].prio {
        lockTab[lid] := lockTab[lid].(prio := procTab[pid].prio);
      }
      ghost var t1 := Now();
      assert t1 == Asking(t, pid, lid);
      AskedGraph(t, t1, pid, lid, rank, reach);
      SwapPriority(lid, pid, rank, reach);
      AskThenInherit(t, t1, Now(), pid, lid, rank, reach);
      if InOrder(t, pid) { InheritedThroughout(t, Now(), pid, lid); }
      if SettledBut(t, pid) { SettledThroughout(t, Now(), pid, lid); }
    }
  }
}
