/** What holds in every reachable state of the kernel. */
module KernelInv {
  import opened Codes
  import opened QueueSpec
  import opened KernelSpec

  /** The queue a process must be in, by its state; -1 for none. */
  function Home(p: Proc): int
  {
    match p.state
    case Ready => READYLIST
    case Sleep => SLEEPQ
    case RecTim => SLEEPQ
    case Wait => if 0 <= p.sem < NSEM then p.sem else READYLIST + 1
    case _ => -1
  }

  /** Process `p` stands in queue `q` just when that is its home. */
  ghost predicate AtHome(k: Kernel, p: nat, q: nat)
    requires WellFormed(k) && p < NPROC && q < NLISTS
  {
    p in k.lists[q] <==> Home(k.procs[p]) == q
  }

  /** States agree with queues, and no queue has a process twice. */
  ghost predicate Base(k: Kernel)
  {
    && WellFormed(k)
    && (forall q :: 0 <= q < NLISTS ==> NoDup(k.lists[q]))
    && (forall p, q :: 0 <= p < NPROC && 0 <= q < NLISTS ==> AtHome(k, p, q))
    && (forall p :: 0 <= p < NPROC && k.procs[p].state.Wait? ==> 0 <= k.procs[p].sem < NSEM)
  }

  lemma StandsAt(k: Kernel, p: nat, q: nat)
    requires Base(k) && p < NPROC && q < NLISTS
    ensures WellFormed(k) && NoDup(k.lists[q]) && AtHome(k, p, q)
  {
  }

  lemma InsertMembers(l: seq<int>, i: nat, x: int)
    requires i <= |l|
    ensures forall y :: y in InsertAt(l, i, x) <==> y in l || y == x
    ensures NoDup(l) && x !in l ==> NoDup(InsertAt(l, i, x))
    ensures Pids(l) && 0 <= x < NPROC ==> Pids(InsertAt(l, i, x))
  {
    var r := InsertAt(l, i, x);
    assert forall j :: 0 <= j < |r| ==> r[j] == if j < i then l[j] else if j == i then x else l[j - 1];
    assert r[i] == x;
    forall y | y in l
      ensures y in r
    {
      var j :| 0 <= j < |l| && l[j] == y;
      assert r[if j < i then j else j + 1] == y;
    }
  }

  lemma RemoveMembers(l: seq<int>, i: nat)
    requires i < |l| && NoDup(l)
    ensures forall y :: y in RemoveAt(l, i) <==> y in l && y != l[i]
    ensures NoDup(RemoveAt(l, i))
    ensures Pids(l) ==> Pids(RemoveAt(l, i))
  {
    var r := RemoveAt(l, i);
    assert forall j :: 0 <= j < |r| ==> r[j] == if j < i then l[j] else l[j + 1];
    forall y | y in l && y != l[i]
      ensures y in r
    {
      var j :| 0 <= j < |l| && l[j] == y;
      assert r[if j < i then j else j - 1] == y;
    }
  }

  /** A process leaves its queue for a state that needs none. */
  lemma Leave(k: Kernel, q: nat, i: nat, pr: Proc, key: seq<int>)
    requires Base(k) && q < NLISTS && i < |k.lists[q]| && Home(pr) == -1 && |key| == NPROC
    requires -0x8000 <= pr.prio < 0x8000
    ensures var p := k.lists[q][i];
            && 0 <= p < NPROC
            && Base(WithList(k, q, RemoveAt(k.lists[q], i)).(procs := k.procs[p := pr], key := key))
  {
    var l, p := k.lists[q], k.lists[q][i];
    var k' := WithList(k, q, RemoveAt(l, i)).(procs := k.procs[p := pr], key := key);
    RemoveMembers(l, i);
    assert AtHome(k, p, q);
    forall x, y | 0 <= x < NPROC && 0 <= y < NLISTS
      ensures AtHome(k', x, y)
    {
      assert AtHome(k, x, y);
    }
  }

  /** A process in no queue enters the one its new state needs. */
  lemma Join(k: Kernel, q: nat, i: nat, p: nat, pr: Proc, key: seq<int>)
    requires Base(k) && q < NLISTS && i <= |k.lists[q]| && p < NPROC && |key| == NPROC && -0x8000 <= pr.prio < 0x8000
    requires Home(k.procs[p]) == -1 && Home(pr) == q && (pr.state.Wait? ==> 0 <= pr.sem < NSEM)
    ensures Base(WithList(k, q, InsertAt(k.lists[q], i, p)).(procs := k.procs[p := pr], key := key))
  {
    var l := k.lists[q];
    var k' := WithList(k, q, InsertAt(l, i, p)).(procs := k.procs[p := pr], key := key);
    assert AtHome(k, p, q);
    InsertMembers(l, i, p);
    forall x, y | 0 <= x < NPROC && 0 <= y < NLISTS
      ensures AtHome(k', x, y)
    {
      assert AtHome(k, x, y);
    }
  }

  /** Changes that leave every process's home alone. */
  lemma Stay(k: Kernel, k': Kernel)
    requires Base(k) && WellFormed(k') && k'.lists == k.lists
    requires forall p :: 0 <= p < NPROC ==> Home(k'.procs[p]) == Home(k.procs[p])
    requires forall p :: 0 <= p < NPROC && k'.procs[p].state.Wait? ==> 0 <= k'.procs[p].sem < NSEM
    ensures Base(k')
  {
    forall x, y | 0 <= x < NPROC && 0 <= y < NLISTS
      ensures AtHome(k', x, y)
    {
      assert AtHome(k, x, y);
    }
  }

  // --- the scheduler ---

  ghost predicate Descending(l: seq<int>, key: seq<int>)
    requires |key| == NPROC && Pids(l)
  {
    forall i, j :: 0 <= i < j < |l| ==> key[l[i]] >= key[l[j]]
  }

  /** The ready list is in descending order of the priorities of its processes. */
  ghost predicate Sorted(k: Kernel)
    requires WellFormed(k)
  {
    && Descending(ReadyList(k), k.key)
    && forall i :: 0 <= i < |ReadyList(k)| ==> k.key[ReadyList(k)[i]] == k.procs[ReadyList(k)[i]].prio
  }

  lemma InsertDescending(l: seq<int>, key: seq<int>, p: int, x: int)
    requires |key| == NPROC && Pids(l) && 0 <= p < NPROC && p !in l && Descending(l, key)
    ensures Pids(InsertAt(l, Place(l, key, x), p)) && Descending(InsertAt(l, Place(l, key, x), p), key[p := x])
  {
    var n := Place(l, key, x);
    var r, key' := InsertAt(l, n, p), key[p := x];
    forall i, j | 0 <= i < j < |r|
      ensures 0 <= r[i] < NPROC && 0 <= r[j] < NPROC && key'[r[i]] >= key'[r[j]]
    {
      InsertedPlace(l, n, p, i);
      InsertedPlace(l, n, p, j);
    }
    InsertMembers(l, n, p);
  }

  lemma InsertedPlace(l: seq<int>, n: nat, p: int, i: nat)
    requires n <= |l| && i <= |l|
    ensures InsertAt(l, n, p)[i] == if i < n then l[i] else if i == n then p else l[i - 1]
  {
  }

  /** What rescheduling needs: queues in order, at most one process running, the null process able to. */
  ghost predicate Core(k: Kernel)
  {
    && Base(k) && Sorted(k)
    && (forall p :: 0 <= p < NPROC && k.procs[p].state.Curr? ==> p == k.curr)
    && (k.procs[NULLPROC].state.Curr? || k.procs[NULLPROC].state.Ready?)
  }

  lemma CoreFormed(k: Kernel)
    requires Core(k)
    ensures WellFormed(k)
  {
  }

  /** The current process runs, unless it gave up the processor while rescheduling was put off. */
  ghost predicate Running(k: Kernel)
    requires WellFormed(k)
  {
    && !k.procs[k.curr].state.Free?
    && (k.ndefers == 0 ==> k.procs[k.curr].state.Curr?)
    && (!k.procs[k.curr].state.Curr? ==> k.attempt)
  }

  /** Nothing ready has a higher priority than the current process. */
  ghost predicate Highest(k: Kernel)
    requires WellFormed(k)
  {
    forall i :: 0 <= i < |ReadyList(k)| ==> k.key[ReadyList(k)[i]] <= k.procs[k.curr].prio
  }

  ghost predicate Scheduled(k: Kernel)
    requires WellFormed(k)
  {
    Running(k) && (k.ndefers == 0 || !k.attempt ==> Highest(k))
  }

  lemma PutReadyCore(k: Kernel, p: nat)
    requires Core(k) && p < NPROC && Home(k.procs[p]) == -1
    requires k.procs[p].state.Curr? ==> p == k.curr
    ensures Core(PutReady(k, p))
  {
    var l, prio := ReadyList(k), k.procs[p].prio;
    var i := Place(l, k.key, prio);
    Join(k, READYLIST, i, p, k.procs[p].(state := Ready), k.key[p := prio]);
    assert AtHome(k, p, READYLIST);
    InsertDescending(l, k.key, p, prio);
    InsertMembers(l, i, p);
    hide Base, Descending, InsertAt;
    var k' := PutReady(k, p);
    forall j | 0 <= j < |ReadyList(k')|
      ensures k'.key[ReadyList(k')[j]] == k'.procs[ReadyList(k')[j]].prio
    {
      InsertedPlace(l, i, p, j);
    }
  }

  /** With the null process able to run and not running, some process is ready. */
  lemma SomeReady(k: Kernel)
    requires Core(k) && !k.procs[k.curr].state.Curr?
    ensures ReadyList(k) != []
  {
    assert AtHome(k, NULLPROC, READYLIST);
  }

  lemma SwitchToCore(k: Kernel)
    requires Core(k) && !k.procs[k.curr].state.Curr?
    ensures var k' := SwitchTo(k);
            && Core(k') && k'.procs[k'.curr].state.Curr? && Highest(k')
            && ReadyList(k) != [] && k'.curr == ReadyList(k)[0] && ReadyList(k') == ReadyList(k)[1..]
  {
    SomeReady(k);
    var l := ReadyList(k);
    var p := l[0];
    assert RemoveAt(l, 0) == l[1..];
    Leave(k, READYLIST, 0, k.procs[p].(state := Curr), k.key);
    assert AtHome(k, p, READYLIST);
    RemoveMembers(l, 0);
    Stay(WithList(k, READYLIST, l[1..]).(procs := k.procs[p := k.procs[p].(state := Curr)], key := k.key), SwitchTo(k));
    hide Base;
  }

  /** Rescheduling leaves the processor with a process of the highest priority, or records the attempt. */
  lemma ReschedScheduled(k: Kernel)
    requires Core(k) && !k.procs[k.curr].state.Free?
    ensures Core(Resched(k)) && Scheduled(Resched(k))
  {
    if k.ndefers > 0 {
      Stay(k, k.(attempt := true));
    } else if k.procs[k.curr].state.Curr? {
      if !(ReadyList(k) == [] || k.procs[k.curr].prio > k.key[ReadyList(k)[0]]) {
        PutReadyCore(k, k.curr);
        SwitchToCore(PutReady(k, k.curr));
      }
    } else {
      SwitchToCore(k);
    }
  }

  // --- semaphores ---

  /** A semaphore in use counts up from 0 with nobody waiting, or down from 0 by one for each waiter; its count is
      a signed word. */
  ghost predicate Counted(k: Kernel, s: nat)
    requires WellFormed(k) && s < NSEM
  {
    k.sems[s].count <= MAXINT && |k.lists[s]| == if k.sems[s].used && k.sems[s].count < 0 then -k.sems[s].count else 0
  }

  ghost predicate AllCounted(k: Kernel)
    requires WellFormed(k)
  {
    forall s :: 0 <= s < NSEM ==> Counted(k, s)
  }

  /** The invariant of every reachable state. */
  ghost predicate Inv(k: Kernel)
  {
    Core(k) && Scheduled(k) && AllCounted(k)
  }

  lemma InvFormed(k: Kernel)
    requires Inv(k)
    ensures WellFormed(k)
  {
  }

  lemma ReadyOnlyCounted(k: Kernel, k': Kernel)
    requires WellFormed(k) && WellFormed(k') && AllCounted(k) && OnlyReady(k, k')
    ensures AllCounted(k')
  {
    forall j | 0 <= j < NSEM
      ensures Counted(k', j)
    {
      assert Counted(k, j);
    }
  }

  /** A process in no queue and not running becomes ready. */
  lemma MakeReadyInv(k: Kernel, p: nat)
    requires Core(k) && Running(k) && p < NPROC && Home(k.procs[p]) == -1 && !k.procs[p].state.Curr?
    ensures Core(MakeReady(k, p)) && Scheduled(MakeReady(k, p))
  {
    PutReadyCore(k, p);
    ReschedScheduled(PutReady(k, p));
  }

  /** The first process of a queue other than the ready list, taken out. */
  lemma OutOfQueue(k: Kernel, q: nat)
    requires Core(k) && q < NLISTS && q != READYLIST && k.lists[q] != []
    ensures var p, l := k.lists[q][0], k.lists[q];
            && p < NPROC && Core(WithState(WithList(k, q, l[1..]), p, Susp)) && !k.procs[p].state.Curr?
  {
    var p, l := k.lists[q][0], k.lists[q];
    assert RemoveAt(l, 0) == l[1..];
    Leave(k, q, 0, k.procs[p].(state := Susp), k.key);
    StandsAt(k, p, q);
    StandsAt(k, p, READYLIST);
    hide Base, Descending;
  }

  /** What becomes of a process made ready does not depend on the state it had. */
  lemma ReadyFromAny(k: Kernel, p: nat, st: PState)
    requires WellFormed(k) && p < NPROC
    ensures PutReady(WithState(k, p, st), p) == PutReady(k, p)
  {
    assert WithState(k, p, st).procs[p := k.procs[p].(state := Ready)] == k.procs[p := k.procs[p].(state := Ready)];
  }

  /** The first process of a queue other than the ready list joins the ready list. */
  lemma FirstPutReady(k: Kernel, q: nat)
    requires Core(k) && Running(k) && q < NLISTS && q != READYLIST && k.lists[q] != []
    ensures var k1 := PutReady(WithList(k, q, k.lists[q][1..]), k.lists[q][0]);
            Core(k1) && !k1.procs[k1.curr].state.Free?
  {
    hide Core, PutReady;
    CoreFormed(k);
    OutOfQueue(k, q);
    var p, l := k.lists[q][0], k.lists[q];
    var k0 := WithList(k, q, l[1..]);
    var k1 := WithState(k0, p, Susp);
    PutReadyCore(k1, p);
    ReadyFromAny(k0, p, Susp);
    PutReadyRuns(k1, p);
  }

  /** The first process of a queue other than the ready list becomes ready. */
  lemma ReadyFirstInv(k: Kernel, q: nat)
    requires Core(k) && Running(k) && q < NLISTS && q != READYLIST && k.lists[q] != []
    ensures Core(ReadyFirst(k, q)) && Scheduled(ReadyFirst(k, q))
    ensures OnlyReady(WithList(k, q, k.lists[q][1..]), ReadyFirst(k, q))
  {
    hide Core, Scheduled, Resched, PutReady, Running;
    CoreFormed(k);
    FirstPutReady(k, q);
    ReschedScheduled(PutReady(WithList(k, q, k.lists[q][1..]), k.lists[q][0]));
  }

  lemma PutReadyRuns(k: Kernel, p: nat)
    requires WellFormed(k) && p < NPROC && !k.procs[k.curr].state.Free?
    ensures var k' := PutReady(k, p); !k'.procs[k'.curr].state.Free?
  {
  }
}
