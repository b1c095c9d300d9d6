/** The kernel's tables, updated in place, and the calls on them. Each method is proved to compute the
    function that specifies its call. */
module KernelTables {
  import opened Codes
  import opened QueueSpec
  import opened KernelSpec
  import opened KernelInv
  import opened KernelCalls
  import opened KernelSleep
  import QueueTables

  /** Rescheduling finds a process to run. */
  ghost predicate CanSwitch(k: Kernel)
    requires WellFormed(k)
  {
    k.ndefers > 0 || (if k.procs[k.curr].state.Curr? then QueueTables.Absent(k.curr, k.lists) else ReadyList(k) != [])
  }

  lemma HomelessAbsent(k: Kernel, p: nat)
    requires Base(k) && p < NPROC && Home(k.procs[p]) == -1
    ensures QueueTables.Absent(p, k.lists)
  {
    forall q | 0 <= q < |k.lists|
      ensures p !in k.lists[q]
    {
      StandsAt(k, p, q);
    }
  }

  lemma CoreSwitches(k: Kernel)
    requires Core(k) && !k.procs[k.curr].state.Free?
    ensures WellFormed(k) && CanSwitch(k)
  {
    if k.procs[k.curr].state.Curr? {
      HomelessAbsent(k, k.curr);
    } else {
      SomeReady(k);
    }
  }

  /** The null process stands by while another runs. */
  lemma NullStandsBy(k: Kernel)
    requires Core(k) && k.curr != NULLPROC
    ensures WellFormed(k) && ReadyList(k) != []
  {
    StandsAt(k, NULLPROC, READYLIST);
    hide Base;
  }

  ghost predicate AllEmpty(lists: seq<seq<int>>, n: nat)
  {
    |lists| == n && forall q :: 0 <= q < n ==> lists[q] == []
  }

  lemma Nothing(lists: seq<seq<int>>)
    requires lists == []
    ensures AllEmpty(lists, 0)
  {
  }

  lemma OneMore(lists: seq<seq<int>>, n: nat)
    requires AllEmpty(lists, n)
    ensures |lists| == n && AllEmpty(lists + [[]], n + 1)
  {
  }

  lemma InitialLists(lists: seq<seq<int>>)
    requires AllEmpty(lists, NLISTS)
    ensures lists == Initial().lists
  {
  }

  const DEFER_START := 1
  const DEFER_STOP := 2

  /** Ending a deferral can reschedule if it has to. */
  ghost predicate CanStop(k: Kernel)
    requires WellFormed(k)
  {
    k.ndefers == 1 && k.attempt ==> CanSwitch(k.(ndefers := 0))
  }

  lemma ScheduledStops(k: Kernel)
    requires Core(k) && Scheduled(k)
    ensures WellFormed(k) && CanStop(k)
  {
    if k.ndefers == 1 && k.attempt {
      Stay(k, k.(ndefers := 0));
      CoreSwitches(k.(ndefers := 0));
    }
  }

  /** The first ready process has the processor, with a whole slice. */
  function Dispatched(k: Kernel): (k': Kernel)
    requires WellFormed(k) && ReadyList(k) != []
    ensures WellFormed(k')
  {
    var l := ReadyList(k);
    WithState(WithList(k, READYLIST, l[1..]), l[0], Curr).(curr := l[0], preempt := QUANTUM)
  }

  lemma DispatchedOwes(k: Kernel)
    requires WellFormed(k) && ReadyList(k) != []
    ensures var k' := Dispatched(k);
            SwitchTo(k) == k'.(preempt := SliceOf(k', k'.curr), owing := k'.owing - {k'.curr})
  {
  }

  lemma FirstReleased(k: Kernel, q: nat)
    requires Core(k) && Running(k) && q < NLISTS && q != READYLIST && k.lists[q] != []
    ensures var p, k1 := k.lists[q][0], WithList(k, q, k.lists[q][1..]);
            WellFormed(k) && 0 <= p < NPROC && !BadPid(k1, p) && CanSwitch(PutReady(k1, p))
  {
    FirstPutReady(k, q);
    StandsAt(k, k.lists[q][0], q);
    hide Core, PutReady;
    CoreSwitches(PutReady(WithList(k, q, k.lists[q][1..]), k.lists[q][0]));
  }

  lemma InvCore(k: Kernel)
    requires Inv(k)
    ensures WellFormed(k) && Core(k) && Scheduled(k)
    ensures forall s :: 0 <= s < NSEM ==> Counted(k, s)
  {
  }

  lemma RunningSwitches(k: Kernel)
    requires Inv(k)
    ensures WellFormed(k) && CanSwitch(k)
  {
    CoreSwitches(k);
  }

  /** The running process can give up the processor in any state that is not running. */
  lemma BlockedSwitches(k: Kernel, k': Kernel)
    requires Core(k) && k.curr != NULLPROC && WellFormed(k')
    requires ReadyList(k') == k.lists[READYLIST] && !k'.procs[k'.curr].state.Curr?
    ensures CanSwitch(k')
  {
    NullStandsBy(k);
  }

  lemma CurrentAbsent(k: Kernel)
    requires Inv(k) && k.procs[k.curr].state.Curr?
    ensures WellFormed(k) && QueueTables.Absent(k.curr, k.lists)
  {
    HomelessAbsent(k, k.curr);
  }

  /** The current process counted out of a semaphore and put at the end of its queue. */
  function WaitingOn(k: Kernel, s: nat): (k': Kernel)
    requires WellFormed(k) && s < NSEM
    ensures WellFormed(k')
  {
    var k1 := WithCount(k, s, k.sems[s].count - 1);
    var k2 := k1.(procs := k1.procs[k.curr := k1.procs[k.curr].(sem := s)]);
    WithState(WithList(k2, s, k1.lists[s] + [k.curr]), k.curr, Wait)
  }

  lemma FreeSemStep(sems: seq<Sem>, at: nat, n: nat)
    requires |sems| == NSEM && at < NSEM
    ensures FreeSem(sems, at, n) == if n == 0 then SYSERR else if !sems[at].used then at
                                    else FreeSem(sems, if at + 1 >= NSEM then 0 else at + 1, n - 1)
  {
  }

  /** What the link of a sleeper says of the one behind it. */
  lemma SleeperNext(k: Kernel, q: QueueTables.QueueTable, p: nat)
    requires Inv(k) && q.Valid() && q.lists == k.lists && q.Keys() == k.key && p < NPROC && Home(k.procs[p]) == SLEEPQ
    ensures WellFormed(k) && p < q.tab.Length
    ensures var l, i, next := k.lists[SLEEPQ], IndexOf(k.lists[SLEEPQ], p), q.tab[p].qnext;
            && i < |l| && l[i] == p && q.tab[p].qkey == k.key[p]
            && (next < NPROC <==> i + 1 < |l|) && (i + 1 < |l| ==> next == l[i + 1])
  {
    StandsAt(k, p, SLEEPQ);
    LinkedAt(q.tab[..], Head(SLEEPQ), k.lists[SLEEPQ], IndexOf(k.lists[SLEEPQ], p));
  }

  /** A process in no queue and not running can be made ready. */
  lemma ReadySwitches(k: Kernel, p: nat)
    requires Core(k) && Running(k) && p < NPROC && Home(k.procs[p]) == -1 && !k.procs[p].state.Curr?
    ensures QueueTables.Absent(p, k.lists) && CanSwitch(PutReady(k, p))
  {
    HomelessAbsent(k, p);
    PutReadyCore(k, p);
    PutReadyRuns(k, p);
    hide Core;
    CoreSwitches(PutReady(k, p));
  }

  /** So can a timed receiver taken off its list. */
  lemma AwakenSwitches(k: Kernel, p: nat)
    requires Inv(k) && p < NPROC && k.procs[p].state.RecTim?
    ensures WellFormed(k) && !BadPid(TakeAwake(k, p), p) && CanSwitch(PutReady(TakeAwake(k, p), p))
  {
    hide Core, TakeAwake, PutReady;
    CoreFormed(k);
    NullNotAsleep(k);
    TakeAwakeRest(k, p);
    TakeAwakeCore(k, p);
    var k1 := TakeAwake(k, p);
    var k2 := WithState(k1, p, Susp);
    PutReadyCore(k2, p);
    ReadyFromAny(k1, p, Susp);
    PutReadyRuns(k2, p);
    CoreSwitches(PutReady(k1, p));
  }

  lemma TakeAwakeRest(k: Kernel, p: nat)
    requires Inv(k) && p < NPROC
    ensures var k1 := TakeAwake(k, p); k1.procs == k.procs && !k1.procs[k1.curr].state.Free?
  {
  }

  lemma ReschedPrio(k: Kernel, p: nat)
    requires WellFormed(k) && p < NPROC
    ensures KernelSpec.Resched(k).procs[p].prio == k.procs[p].prio
  {
  }

  lemma NullNotAsleep(k: Kernel)
    requires Core(k)
    ensures k.procs[NULLPROC].state.Curr? || k.procs[NULLPROC].state.Ready?
  {
  }

  /** While expired sleepers become ready, the next one is still the first of the list, with its own key. */
  lemma NextExpired(k: Kernel, i: nat)
    requires Core(k) && Scheduled(k) && i <= |k.lists[SLEEPQ]|
    ensures var k1, l := ReadyTimes(k, SLEEPQ, i), k.lists[SLEEPQ];
            && k1.lists[SLEEPQ] == l[i..] && Core(k1) && Running(k1)
            && (i < |l| ==> k1.key[l[i]] == k.key[l[i]])
  {
    hide Core, Scheduled, Running, ReadyTimes;
    CoreFormed(k);
    ReadyTimesInv(k, SLEEPQ, i);
    ReadyTimesSleep(k, SLEEPQ, i);
    ScheduledRuns(ReadyTimes(k, SLEEPQ, i));
    if i < |k.lists[SLEEPQ]| {
      assert k.lists[SLEEPQ][i..][0] == k.lists[SLEEPQ][i];
    }
  }

  lemma ReadyStands(k: Kernel, p: nat)
    requires Core(k) && p < NPROC && k.procs[p].state.Ready?
    ensures p in ReadyList(k)
  {
    StandsAt(k, p, READYLIST);
  }

  lemma OneRuns(k: Kernel, p: nat)
    requires Core(k) && p < NPROC && k.procs[p].state.Curr?
    ensures p == k.curr
  {
  }

  lemma NoSignal(k: Kernel, s: nat)
    requires WellFormed(k) && s < NSEM
    ensures SignalTimes(k, s, 0) == k
  {
  }

  lemma SignalOnceMore(k: Kernel, s: nat, n: nat)
    requires WellFormed(k) && s < NSEM
    ensures SignalTimes(k, s, n + 1) == SignalOnce(SignalTimes(k, s, n), s)
  {
  }

  /** Seconds since the start, and the milliseconds left of the present one. */
  class SecondsClock {
    var clkTime: nat
    var count1000: nat

    predicate Valid()
      reads this
    {
      0 < count1000 <= 1000 && clkTime < TWO32
    }

    /** Milliseconds since the start; the seconds wrap at 2^32. */
    function Millis(): (ms: nat)
      requires Valid()
      reads this
      ensures ms / 1000 == clkTime
    {
      1000 * clkTime + (1000 - count1000)
    }

    constructor ()
      ensures Valid() && Millis() == 0
    {
      clkTime, count1000 := 0, 1000;
    }

    method Tick()
      requires Valid()
      modifies this
      ensures Valid() && Millis() == (old(Millis()) + 1) % (1000 * TWO32)
    {
      count1000 := count1000 - 1;
      if count1000 <= 0 {
        clkTime := (clkTime + 1) % TWO32;
        count1000 := 1000;
      }
    }
  }

  class KernelState {
    const procTab: array<Proc>
    const semTab: array<Sem>
    const semQueue: array<int>
    const queues: QueueTables.QueueTable
    const clock: SecondsClock
    var readyList: nat
    var sleepQ: nat
    var currPid: nat
    var deferrals: nat
    var attempt: bool
    var preempt: int
    var owing: set<int>    // processes whose saved context is in the clock handler, before the countdown
    var nextSem: nat
    ghost var k: Kernel

    /** The fields hold what `k` says. */
    ghost predicate Holds()
      reads this, procTab, semTab
    {
      && procTab[..] == k.procs && semTab[..] == k.sems && currPid == k.curr && deferrals == k.ndefers
      && attempt == k.attempt && preempt == k.preempt && owing == k.owing && nextSem == k.nextsem
    }

    ghost predicate Queued()
      reads this, queues, queues.tab
    {
      queues.Valid() && queues.lists == k.lists && queues.Keys() == k.key
    }

    ghost predicate Valid()
      reads this, procTab, semTab, semQueue, queues, queues.tab
    {
      && WellFormed(k) && Holds() && Queued()
      && readyList == Head(READYLIST) && sleepQ == Head(SLEEPQ)
      && semQueue.Length == NSEM && forall s :: 0 <= s < NSEM ==> semQueue[s] == Head(s)
    }

    constructor ()
      ensures Valid() && k == Initial()
      ensures fresh(procTab) && fresh(semTab) && fresh(semQueue) && fresh(queues) && fresh(queues.tab)
      ensures fresh(clock) && clock.Valid() && clock.Millis() == 0
    {
      procTab := new Proc[NPROC](p => Proc(if p == NULLPROC then Curr else PState.Free, 0, -1, 0, false));
      semTab := new Sem[NSEM](s => Sem(false, 0));
      semQueue := new int[NSEM];
      queues := new QueueTables.QueueTable();
      clock := new SecondsClock();
      currPid, deferrals, attempt, preempt, owing, nextSem := NULLPROC, 0, false, QUANTUM, {}, 0;
      k := Initial();
      new;
      hide QueueTables.QueueTable.Valid, QueueTables.QueueTable.Keys, AllEmpty, WellFormed;
      assert procTab[..] == k.procs && semTab[..] == k.sems && queues.Keys() == k.key;
      hide Initial;
      MakeQueues();
    }

    /** A queue for each semaphore, the ready list, one for each lock, and the list of sleepers. */
    method MakeQueues()
      requires queues.Valid() && queues.lists == [] && semQueue.Length == NSEM
      modifies this`readyList, this`sleepQ, semQueue, queues, queues.tab
      ensures queues.Valid() && queues.lists == Initial().lists && queues.Keys() == old(queues.Keys())
      ensures readyList == Head(READYLIST) && sleepQ == Head(SLEEPQ)
      ensures forall s :: 0 <= s < NSEM ==> semQueue[s] == Head(s)
    {
      hide QueueTables.QueueTable.Valid, QueueTables.QueueTable.Keys, AllEmpty;
      Nothing(queues.lists);
      for s := 0 to NSEM
        modifies semQueue, queues, queues.tab
        invariant queues.Valid() && AllEmpty(queues.lists, s) && queues.Keys() == old(queues.Keys())
        invariant forall j :: 0 <= j < s ==> semQueue[j] == Head(j)
      {
        semQueue[s] := MakeQueue(s);
      }
      readyList := MakeQueue(NSEM);
      for s := 0 to NLOCKS
        modifies queues, queues.tab
        invariant queues.Valid() && AllEmpty(queues.lists, NSEM + 1 + s) && queues.Keys() == old(queues.Keys())
      {
        var _ := MakeQueue(NSEM + 1 + s);
      }
      sleepQ := MakeQueue(NSEM + 1 + NLOCKS);
      InitialLists(queues.lists);
    }

    method MakeQueue(ghost n: nat) returns (q: nat)
      requires queues.Valid() && AllEmpty(queues.lists, n) && n < NLISTS
      modifies queues, queues.tab
      ensures queues.Valid() && AllEmpty(queues.lists, n + 1) && queues.Keys() == old(queues.Keys()) && q == Head(n)
    {
      hide QueueTables.QueueTable.Keys, AllEmpty, QueueTables.Separate, QueueTables.Represents;
      OneMore(queues.lists, n);
      q := queues.NewQueue();
    }

    predicate IsBadPid(pid: int)
      reads procTab
    {
      pid < 0 || pid >= procTab.Length || procTab[pid].state.Free?
    }

    /** Marks a process ready and puts it on the ready list. */
    method Enlist(pid: nat)
      requires Valid() && pid < NPROC && QueueTables.Absent(pid, k.lists)
      modifies this`k, procTab, queues`lists, queues.tab
      ensures Valid() && k == PutReady(old(k), pid)
    {
      hide QueueTables.QueueTable.Valid, QueueTables.QueueTable.Keys, QueueTables.Absent, InsertAt;
      procTab[pid] := procTab[pid].(state := PState.Ready);
      var _ := queues.Insert(pid, readyList, procTab[pid].prio, READYLIST);
      k := PutReady(k, pid);
    }

    /** Gives the processor to the first ready process, which goes on from where it lost it. */
    method Dispatch()
      requires Valid() && ReadyList(k) != []
      modifies this, procTab, queues`lists, queues.tab
      ensures Valid() && k == SwitchTo(old(k))
    {
      hide QueueTables.QueueTable.Valid, QueueTables.QueueTable.Keys, QueueTables.Absent;
      currPid := queues.Dequeue(readyList, READYLIST);
      procTab[currPid] := procTab[currPid].(state := Curr);
      preempt := QUANTUM;
      ghost var k0 := k;
      k := Dispatched(k0);
      Repay();
      DispatchedOwes(k0);
    }

    /** A process that lost the processor in the clock handler counts its slice down. */
    method Repay()
      requires Valid() && preempt == QUANTUM
      modifies this`k, this`owing, this`preempt
      ensures Valid() && k == old(k).(preempt := SliceOf(old(k), old(k).curr), owing := old(k).owing - {old(k).curr})
    {
      hide QueueTables.QueueTable.Valid, QueueTables.QueueTable.Keys;
      if currPid in owing {
        owing := owing - {currPid};
        preempt := preempt - 1;
        assert preempt > 0;    // a countdown of the first tick does not end a slice
      }
      k := k.(preempt := preempt, owing := k.owing - {k.curr});
    }

    /** The interrupted process has the countdown still before it. */
    method Owe(pid: nat)
      requires Valid()
      modifies this`k, this`owing
      ensures Valid() && k == old(k).(owing := old(k).owing + {pid})
    {
      hide QueueTables.QueueTable.Valid, QueueTables.QueueTable.Keys;
      owing := owing + {pid};
      k := k.(owing := owing);
    }

    method Resched()
      requires Valid() && CanSwitch(k)
      modifies this, procTab, queues`lists, queues.tab
      ensures Valid() && k == KernelSpec.Resched(old(k))
    {
      hide QueueTables.QueueTable.Valid, QueueTables.QueueTable.Keys, QueueTables.Absent, InsertAt, Place;
      if deferrals > 0 {
        attempt := true;
        k := k.(attempt := true);
        return;
      }
      if procTab[currPid].state.Curr? {
        queues.FirstKeySays(READYLIST);
        if procTab[currPid].prio > queues.FirstKey(readyList) {
          return;
        }
        Enlist(currPid);
      }
      Dispatch();
    }

    method Ready(pid: int) returns (r: int)
      requires Valid() && (!BadPid(k, pid) ==> QueueTables.Absent(pid, k.lists) && CanSwitch(PutReady(k, pid)))
      modifies this, procTab, queues`lists, queues.tab
      ensures Valid() && (k, r) == if BadPid(old(k), pid) then (old(k), SYSERR) else (MakeReady(old(k), pid), OK)
    {
      hide Queued;
      if IsBadPid(pid) {
        return SYSERR;
      }
      hide Holds, PutReady, KernelSpec.Resched, QueueTables.Absent;
      Enlist(pid);
      Resched();
      r := OK;
    }

    method ReschedCntl(defer: int) returns (r: int)
      requires Valid() && (defer == DEFER_STOP ==> CanStop(k))
      modifies this, procTab, queues`lists, queues.tab
      ensures Valid()
      ensures (k, r) == if defer == DEFER_START then (DeferStart(old(k)), OK)
                        else if defer == DEFER_STOP then DeferStop(old(k)) else (old(k), SYSERR)
    {
      hide QueueTables.QueueTable.Valid, QueueTables.QueueTable.Keys, KernelSpec.Resched, CanSwitch;
      if defer == DEFER_START {
        deferrals := deferrals + 1;
        if deferrals == 1 {
          attempt := false;
        }
        k := DeferStart(k);
        return OK;
      } else if defer == DEFER_STOP {
        if deferrals <= 0 {
          return SYSERR;
        }
        deferrals := deferrals - 1;
        k := k.(ndefers := k.ndefers - 1);
        if deferrals == 0 && attempt {
          Resched();
        }
        return OK;
      } else {
        return SYSERR;
      }
    }

    method SetCount(s: nat, n: int)
      requires Valid() && s < NSEM
      modifies this`k, semTab
      ensures Valid() && k == WithCount(old(k), s, n)
    {
      hide QueueTables.QueueTable.Valid, QueueTables.QueueTable.Keys;
      semTab[s] := semTab[s].(count := n);
      k := WithCount(k, s, n);
    }

    /** Takes the first waiter, if any, off a queue and makes it ready. */
    method ReadyNext(qid: int, ghost q: nat)
      requires Valid() && Core(k) && Running(k) && q < NLISTS && q != READYLIST && qid == Head(q)
      modifies this, procTab, queues`lists, queues.tab
      ensures Valid() && k == if old(k).lists[q] == [] then old(k) else ReadyFirst(old(k), q)
    {
      hide Core, Running, PutReady, CanSwitch, MakeReady, QueueTables.QueueTable.Valid, QueueTables.QueueTable.Keys;
      if k.lists[q] != [] { FirstReleased(k, q); }
      var pid := queues.Dequeue(qid, q);
      if k.lists[q] != [] {
        k := WithList(k, q, k.lists[q][1..]);
      }
      var _ := Ready(pid);
    }

    /** One signal. */
    method Release(s: nat)
      requires Valid() && Core(k) && Scheduled(k) && s < NSEM
      modifies this, procTab, semTab, queues`lists, queues.tab
      ensures Valid() && k == SignalOnce(old(k), s)
    {
      hide Core, Scheduled, Queued, ReadyFirst, ToInt32;
      var c := semTab[s].count;
      SemStay(k, k.sems[s := k.sems[s].(count := ToInt32(c + 1))]);
      SetCount(s, ToInt32(c + 1));
      if c < 0 {
        ScheduledRuns(k);
        ReadyNext(semQueue[s], s);
      }
    }

    method Signal(s: int) returns (r: int)
      requires Valid() && Inv(k)
      modifies this, procTab, semTab, queues`lists, queues.tab
      ensures Valid() && (k, r) == SignalCall(old(k), s)
    {
      hide Core, Scheduled, Queued, SignalOnce;
      InvCore(k);
      if BadSem(s) || !semTab[s].used {
        return SYSERR;
      }
      Release(s);
      r := OK;
    }

    method SignalN(s: int, count: int32) returns (r: int)
      requires Valid() && Inv(k)
      modifies this, procTab, semTab, queues`lists, queues.tab
      ensures Valid() && (k, r) == SignalNCall(old(k), s, count)
    {
      hide Core, Scheduled, Queued, SignalOnce, CanStop, DeferStop, Inv;
      InvCore(k);
      if BadSem(s) || count < 0 || !semTab[s].used {
        return SYSERR;
      }
      DeferStartInv(k);
      ghost var k0 := DeferStart(k);
      var _ := ReschedCntl(DEFER_START);
      for i := 0 to count
        invariant Valid() && k == SignalTimes(k0, s, i)
      {
        SignalTimesCore(k0, s, i);
        Release(s);
      }
      SignalTimesCore(k0, s, count);
      ScheduledStops(k);
      var _ := ReschedCntl(DEFER_STOP);
      r := OK;
    }

    method TakeFirst(qid: nat, ghost q: nat) returns (pid: int)
      requires Valid() && q < NLISTS && qid == Head(q)
      modifies this`k, queues`lists, queues.tab
      ensures Valid()
      ensures old(k).lists[q] == [] ==> pid == EMPTY && k == old(k)
      ensures old(k).lists[q] != [] ==>
                && pid == old(k).lists[q][0] && QueueTables.Absent(pid, k.lists)
                && k == WithList(old(k), q, old(k).lists[q][1..])
    {
      hide QueueTables.QueueTable.Valid, QueueTables.QueueTable.Keys, QueueTables.Absent;
      pid := queues.GetFirst(qid, q);
      if k.lists[q] != [] {
        k := WithList(k, q, k.lists[q][1..]);
      }
    }

    /** Empties a queue: each waiter in turn becomes ready. */
    method ReadyAll(qid: nat, ghost q: nat)
      requires Valid() && Core(k) && Scheduled(k) && q < NLISTS && q != READYLIST && qid == Head(q)
      modifies this, procTab, queues`lists, queues.tab
      ensures Valid() && k == ReadyTimes(old(k), q, |old(k).lists[q]|)
    {
      hide Core, Scheduled, Running, PutReady, CanSwitch, MakeReady, Queued, Holds, QueueTables.Absent;
      ghost var k0, n, i := k, |k.lists[q]|, 0;
      while true
        invariant Valid() && i <= n && k == ReadyTimes(k0, q, i)
        decreases n - i
      {
        ReadyTimesInv(k0, q, i);
        if k.lists[q] != [] {
          ScheduledRuns(k);
          FirstReleased(k, q);
        }
        var pid := TakeFirst(qid, q);
        if pid == EMPTY {
          break;
        }
        var _ := Ready(pid);
        i := i + 1;
      }
    }

    method SemReset(s: int, count: int32) returns (r: int)
      requires Valid() && Inv(k)
      modifies this, procTab, semTab, queues`lists, queues.tab
      ensures Valid() && (k, r) == SemResetCall(old(k), s, count)
    {
      hide Core, Scheduled, Queued, CanStop, DeferStop, Inv, ReadyTimes;
      InvCore(k);
      if count < 0 || BadSem(s) || !semTab[s].used {
        return SYSERR;
      }
      DeferStartInv(k);
      ghost var k0 := DeferStart(k);
      var _ := ReschedCntl(DEFER_START);
      ReadyTimesInv(k0, s, |k0.lists[s]|);
      ReadyAll(semQueue[s], s);
      SemStay(k, k.sems[s := k.sems[s].(count := count)]);
      SetCount(s, count);
      ScheduledStops(k);
      var _ := ReschedCntl(DEFER_STOP);
      r := OK;
    }

    method SetUsed(s: nat, used: bool)
      requires Valid() && s < NSEM
      modifies this`k, semTab
      ensures Valid() && k == old(k).(sems := old(k).sems[s := old(k).sems[s].(used := used)])
    {
      hide QueueTables.QueueTable.Valid, QueueTables.QueueTable.Keys;
      semTab[s] := semTab[s].(used := used);
      k := k.(sems := k.sems[s := k.sems[s].(used := used)]);
    }

    /** Counts a semaphore up to 0, releasing a waiter each time; the test that ends this counts once more. */
    method ReleaseAll(s: nat)
      requires Valid() && Core(k) && Scheduled(k) && s < NSEM && Balanced(k, s)
      modifies this, procTab, semTab, queues`lists, queues.tab
      ensures Valid() && Core(k) && Scheduled(k)
      ensures var k1 := SignalTimes(old(k), s, if old(k).sems[s].count < 0 then -old(k).sems[s].count else 0);
              k == WithCount(k1, s, ToInt32(k1.sems[s].count + 1))
    {
      hide Core, Scheduled, Queued, SignalOnce, SignalTimes, OnlyQueue, ToInt32;
      ghost var k0, i := k, 0;
      NoSignal(k, s);
      while semTab[s].count < 0
        invariant Valid() && Core(k) && Scheduled(k) && Balanced(k, s) && k == SignalTimes(k0, s, i)
        invariant k.sems[s].count == k0.sems[s].count + i
        invariant i <= if k0.sems[s].count < 0 then -k0.sems[s].count else 0
        decreases -k.sems[s].count
      {
        SignalOnceInv(k, s);
        Release(s);
        SignalOnceMore(k0, s, i);
        i := i + 1;
      }
      SemStay(k, k.sems[s := k.sems[s].(count := ToInt32(k.sems[s].count + 1))]);
      SetCount(s, ToInt32(semTab[s].count + 1));
    }

    method SemDelete(s: int) returns (r: int)
      requires Valid() && Inv(k)
      modifies this, procTab, semTab, queues`lists, queues.tab
      ensures Valid() && (k, r) == SemDeleteCall(old(k), s)
    {
      hide Core, Scheduled, Queued, SignalTimes, CanStop, DeferStop, Inv;
      InvCore(k);
      if BadSem(s) || !semTab[s].used {
        return SYSERR;
      }
      assert Counted(k, s);
      SemStay(k, k.sems[s := k.sems[s].(used := false)]);
      SetUsed(s, false);
      DeferStartInv(k);
      ghost var k0 := DeferStart(k);
      var _ := ReschedCntl(DEFER_START);
      ReleaseAll(s);
      ScheduledStops(k);
      var _ := ReschedCntl(DEFER_STOP);
      r := OK;
    }

    /** Looks for a free semaphore from where the last search ended, round the whole table. */
    method NewSem() returns (s: int)
      requires Valid()
      modifies this`k, this`nextSem, semTab
      ensures Valid() && s == FreeSem(old(k).sems, old(k).nextsem, NSEM)
      ensures s == SYSERR ==> k == old(k)
      ensures s != SYSERR ==>
                k == old(k).(sems := old(k).sems[s := old(k).sems[s].(used := true)],
                             nextsem := if s + 1 >= NSEM then 0 else s + 1)
    {
      hide QueueTables.QueueTable.Valid, QueueTables.QueueTable.Keys, FreeSem;
      ghost var k0 := k;
      for i := 0 to NSEM
        invariant Valid()
        invariant k == k0.(nextsem := if k0.nextsem + i >= NSEM then k0.nextsem + i - NSEM else k0.nextsem + i)
        invariant FreeSem(k0.sems, k0.nextsem, NSEM) == FreeSem(k0.sems, k.nextsem, NSEM - i)
      {
        s := nextSem;
        FreeSemStep(k0.sems, s, NSEM - i);
        nextSem := nextSem + 1;
        if nextSem >= NSEM {
          nextSem := 0;
        }
        k := k.(nextsem := nextSem);
        if !semTab[s].used {
          SetUsed(s, true);
          return;
        }
      }
      FreeSemStep(k0.sems, nextSem, 0);
      s := SYSERR;
    }

    method SemCreate(count: int32) returns (s: int)
      requires Valid()
      modifies this`k, this`nextSem, semTab
      ensures Valid() && (k, s) == SemCreateCall(old(k), count)
    {
      hide Queued;
      if count < 0 {
        return SYSERR;
      }
      s := NewSem();
      if s == SYSERR {
        return;
      }
      SetCount(s, count);
      assert k.sems == old(k).sems[s := Sem(true, count)];
    }

    /** The current process goes to the end of a queue in a state that waits there. */
    method Park(qid: int, ghost q: nat, pr: Proc)
      requires Valid() && q < NLISTS && qid == Head(q) && QueueTables.Absent(k.curr, k.lists)
      requires -0x8000 <= pr.prio < 0x8000
      modifies this`k, procTab, queues`lists, queues.tab
      ensures Valid()
      ensures k == WithList(old(k), q, old(k).lists[q] + [old(k).curr]).(procs := old(k).procs[old(k).curr := pr])
    {
      hide QueueTables.QueueTable.Valid, QueueTables.QueueTable.Keys, QueueTables.Absent;
      procTab[currPid] := pr;
      var _ := queues.Enqueue(currPid, qid, q);
      k := WithList(k, q, k.lists[q] + [k.curr]).(procs := k.procs[k.curr := pr]);
    }

    method Wait(s: int) returns (r: int)
      requires Valid() && Inv(k) && May(k, WaitOn(s))
      modifies this, procTab, semTab, queues`lists, queues.tab
      ensures Valid() && (k, r) == WaitCall(old(k), s)
    {
      hide Core, Scheduled, Queued, CanSwitch, QueueTables.Absent, KernelSpec.Resched;
      InvCore(k);
      if BadSem(s) || !semTab[s].used {
        return SYSERR;
      }
      CurrentAbsent(k);
      ghost var k0 := k;
      SetCount(s, semTab[s].count - 1);
      if semTab[s].count < 0 {
        Park(semQueue[s], s, procTab[currPid].(state := PState.Wait, sem := s));
        BlockedSwitches(k0, k);
        assert k == WaitingOn(k0, s);
        Resched();
      }
      r := OK;
    }

    /** The current process goes to sleep. */
    method Doze(delay: int, st: PState)
      requires Valid() && QueueTables.Absent(k.curr, k.lists)
      modifies this`k, procTab, queues`lists, queues.tab
      ensures Valid() && k == PutAsleep(old(k), old(k).curr, delay, st)
    {
      hide QueueTables.QueueTable.Valid, QueueTables.QueueTable.Keys, QueueTables.Absent, DeltaKeys, InsertAt;
      var _ := queues.InsertDelta(currPid, sleepQ, delay, SLEEPQ);
      procTab[currPid] := procTab[currPid].(state := st);
      k := PutAsleep(k, k.curr, delay, st);
    }

    method Yield()
      requires Valid() && Inv(k)
      modifies this, procTab, queues`lists, queues.tab
      ensures Valid() && k == KernelSpec.Resched(old(k))
    {
      RunningSwitches(k);
      hide Inv, Queued, CanSwitch, KernelSpec.Resched;
      Resched();
    }

    method SleepMs(delay: uint32) returns (r: int)
      requires Valid() && Inv(k) && May(k, KernelSpec.SleepMs(delay))
      modifies this, procTab, queues`lists, queues.tab
      ensures Valid() && (k, r) == SleepMsCall(old(k), delay)
    {
      hide Core, Scheduled, Queued, CanSwitch, QueueTables.Absent, KernelSpec.Resched;
      InvCore(k);
      if delay == 0 {
        Yield();
        return OK;
      }
      CurrentAbsent(k);
      ghost var k0 := k;
      Doze(ToInt32(delay), Sleep);
      BlockedSwitches(k0, k);
      Resched();
      r := OK;
    }

    /** Up to where the caller blocks. */
    method Receive()
      requires Valid() && Inv(k) && May(k, KernelSpec.Receive)
      modifies this, procTab, queues`lists, queues.tab
      ensures Valid() && k == ReceiveCall(old(k))
    {
      hide Core, Scheduled, QueueTables.QueueTable.Valid, QueueTables.QueueTable.Keys, CanSwitch, KernelSpec.Resched;
      InvCore(k);
      if !procTab[currPid].hasMsg {
        ghost var k0 := k;
        procTab[currPid] := procTab[currPid].(state := Recv);
        k := WithState(k, k.curr, Recv);
        BlockedSwitches(k0, k);
        Resched();
      }
    }

    /** Up to where the caller blocks. */
    method RecvTime(maxwait: int32) returns (r: int)
      requires Valid() && Inv(k) && May(k, KernelSpec.RecvTime(maxwait))
      modifies this, procTab, queues`lists, queues.tab
      ensures Valid() && (k, r) == RecvTimeCall(old(k), maxwait)
    {
      hide Core, Scheduled, Queued, CanSwitch, QueueTables.Absent, KernelSpec.Resched;
      InvCore(k);
      if maxwait < 0 {
        return SYSERR;
      }
      if !procTab[currPid].hasMsg {
        CurrentAbsent(k);
        ghost var k0 := k;
        Doze(maxwait, RecTim);
        BlockedSwitches(k0, k);
        Resched();
      }
      r := OK;
    }

    /** From where the receiver runs again. */
    method Take() returns (msg: int)
      requires Valid()
      modifies this`k, procTab
      ensures Valid() && (k, msg) == TakeMessage(old(k))
    {
      hide QueueTables.QueueTable.Valid, QueueTables.QueueTable.Keys;
      if procTab[currPid].hasMsg {
        msg := procTab[currPid].msg;
        procTab[currPid] := procTab[currPid].(hasMsg := false);
        k := TakeMessage(k).0;
      } else {
        msg := TIMEOUT;
      }
    }

    /** Takes a process off the list of sleepers before its time. */
    method Unsleep(pid: int) returns (r: int)
      requires Valid() && Inv(k)
      modifies this`k, queues`lists, queues.tab
      ensures Valid()
      ensures if BadPid(old(k), pid) || Home(old(k).procs[pid]) != SLEEPQ then (k, r) == (old(k), SYSERR)
              else (k, r) == (TakeAwake(old(k), pid), OK) && QueueTables.Absent(pid, k.lists)
    {
      hide Inv, QueueTables.QueueTable.Valid, QueueTables.QueueTable.Keys, QueueTables.Absent, IndexOf, RemoveAt;
      if IsBadPid(pid) {
        return SYSERR;
      }
      if !procTab[pid].state.Sleep? && !procTab[pid].state.RecTim? {
        return SYSERR;
      }
      SleeperNext(k, queues, pid);
      ghost var i := IndexOf(k.lists[SLEEPQ], pid);
      var next := queues.tab[pid].qnext;
      if next < NPROC {
        queues.AddKey(next, queues.tab[pid].qkey);
      }
      var _ := queues.GetItem(pid, SLEEPQ, i);
      k := TakeAwake(k, pid);
      r := OK;
    }

    method Deliver(pid: nat, msg: int)
      requires Valid() && pid < NPROC
      modifies this`k, procTab
      ensures Valid() && k == old(k).(procs := old(k).procs[pid := old(k).procs[pid].(msg := msg, hasMsg := true)])
    {
      hide QueueTables.QueueTable.Valid, QueueTables.QueueTable.Keys;
      procTab[pid] := procTab[pid].(msg := msg, hasMsg := true);
      k := k.(procs := k.procs[pid := k.procs[pid].(msg := msg, hasMsg := true)]);
    }

    method Send(pid: int, msg: int) returns (r: int)
      requires Valid() && Inv(k)
      modifies this, procTab, queues`lists, queues.tab
      ensures Valid() && (k, r) == SendCall(old(k), pid, msg)
    {
      hide Core, Running, Queued, CanSwitch, QueueTables.Absent, PutReady, MakeReady, TakeAwake;
      InvCore(k);
      if IsBadPid(pid) {
        return SYSERR;
      }
      if procTab[pid].hasMsg {
        return SYSERR;
      }
      MessageStay(k, pid, msg);
      Deliver(pid, msg);
      if procTab[pid].state.Recv? {
        ReadySwitches(k, pid);
        var _ := Ready(pid);
      } else if procTab[pid].state.RecTim? {
        AwakenSwitches(k, pid);
        var _ := Unsleep(pid);
        var _ := Ready(pid);
      }
      r := OK;
    }

    /** Takes a ready process off the ready list and suspends it. */
    method Withdraw(pid: nat)
      requires Valid() && pid < NPROC && pid in ReadyList(k)
      modifies this`k, procTab, queues`lists, queues.tab
      ensures Valid()
      ensures var l := ReadyList(old(k));
              k == WithState(WithList(old(k), READYLIST, RemoveAt(l, IndexOf(l, pid))), pid, Susp)
    {
      hide QueueTables.QueueTable.Valid, QueueTables.QueueTable.Keys, QueueTables.Absent;
      ghost var i := IndexOf(ReadyList(k), pid);
      var _ := queues.GetItem(pid, READYLIST, i);
      procTab[pid] := procTab[pid].(state := Susp);
      k := WithState(WithList(k, READYLIST, RemoveAt(ReadyList(k), i)), pid, Susp);
    }

    method SetState(st: PState)
      requires Valid()
      modifies this`k, procTab
      ensures Valid() && k == WithState(old(k), old(k).curr, st)
    {
      hide QueueTables.QueueTable.Valid, QueueTables.QueueTable.Keys;
      procTab[currPid] := procTab[currPid].(state := st);
      k := WithState(k, k.curr, st);
    }

    method Suspend(pid: int) returns (r: int)
      requires Valid() && Inv(k)
      modifies this, procTab, queues`lists, queues.tab
      ensures Valid() && (k, r) == SuspendCall(old(k), pid)
    {
      hide Queued, CanSwitch, KernelSpec.Resched, Core, Scheduled, RemoveAt;
      InvCore(k);
      if IsBadPid(pid) || pid == NULLPROC {
        return SYSERR;
      }
      if !procTab[pid].state.Curr? && !procTab[pid].state.Ready? {
        return SYSERR;
      }
      ghost var k0 := k;
      if procTab[pid].state.Ready? {
        ReadyStands(k, pid);
        Withdraw(pid);
      } else {
        OneRuns(k, pid);
        SetState(Susp);
        BlockedSwitches(k0, k);
        ReschedPrio(k, pid);
        Resched();
      }
      r := procTab[pid].prio;
    }

    method Resume(pid: int) returns (r: int)
      requires Valid() && Inv(k)
      modifies this, procTab, queues`lists, queues.tab
      ensures Valid() && (k, r) == ResumeCall(old(k), pid)
    {
      hide Core, Running, Queued, CanSwitch, QueueTables.Absent, PutReady, MakeReady;
      InvCore(k);
      if IsBadPid(pid) {
        return SYSERR;
      }
      if !procTab[pid].state.Susp? {
        return SYSERR;
      }
      r := procTab[pid].prio;
      ReadySwitches(k, pid);
      var _ := Ready(pid);
    }

    method Wakeup()
      requires Valid() && Inv(k)
      modifies this, procTab, queues`lists, queues.tab
      ensures Valid() && k == KernelSpec.Wakeup(old(k))
    {
      hide Core, Scheduled, Queued, CanStop, DeferStop, Inv, Running, ReadyTimes;
      InvCore(k);
      DeferStartInv(k);
      ghost var k0 := DeferStart(k);
      var _ := ReschedCntl(DEFER_START);
      WakeExpired();
      ReadyTimesInv(k0, SLEEPQ, Expired(k0.lists[SLEEPQ], k0.key));
      ScheduledStops(k);
      var _ := ReschedCntl(DEFER_STOP);
    }

    method WakeExpired()
      requires Valid() && Core(k) && Scheduled(k)
      modifies this, procTab, queues`lists, queues.tab
      ensures Valid() && k == ReadyTimes(old(k), SLEEPQ, Expired(old(k).lists[SLEEPQ], old(k).key))
    {
      hide Core, Scheduled, Running, QueueTables.QueueTable.Valid, QueueTables.QueueTable.Keys, ReadyFirst, Expired,
        Holds;
      ghost var k0, l := k, k.lists[SLEEPQ];
      ghost var n, i := Expired(l, k.key), 0;
      NextExpired(k0, 0);
      queues.FirstKeySays(SLEEPQ);
      queues.HeadSays(SLEEPQ);
      while queues.NonEmpty(sleepQ) && queues.FirstKey(sleepQ) <= 0
        invariant Valid() && i <= n && k == ReadyTimes(k0, SLEEPQ, i) && k.lists[SLEEPQ] == l[i..]
        invariant i < |l| ==> k.key[l[i]] == k0.key[l[i]]
        invariant Core(k) && Running(k)
        invariant 0 <= queues.FirstId(sleepQ) < queues.tab.Length
        invariant queues.NonEmpty(sleepQ) <==> i < |l|
        invariant i < |l| ==> queues.FirstKey(sleepQ) == k.key[l[i]]
        decreases n - i
      {
        ReadyNext(sleepQ, SLEEPQ);
        i := i + 1;
        NextExpired(k0, i);
        queues.FirstKeySays(SLEEPQ);
        queues.HeadSays(SLEEPQ);
      }
    }

    /** One clock interrupt. */
    method ClkHandler()
      requires Valid() && Inv(k) && clock.Valid()
      modifies this, procTab, queues`lists, queues.tab, clock
      ensures Valid() && k == ClockTick(old(k))
      ensures clock.Valid() && clock.Millis() == (old(clock.Millis()) + 1) % (1000 * TWO32)
    {
      hide Inv, Queued, Holds, ClockTick, WellFormed, SecondsClock.Valid, SecondsClock.Millis;
      clock.Tick();
      TickTables();
    }

    method TickTables()
      requires Valid() && Inv(k)
      modifies this, procTab, queues`lists, queues.tab
      ensures Valid() && k == ClockTick(old(k))
    {
      hide Inv, Queued, KernelSpec.Resched, TickSleepers, KernelSpec.CountDown;
      TickSleepersInv(k);
      var interrupted := currPid;
      TickDelays();
      if currPid != interrupted {
        Owe(interrupted);
      } else {
        CountDown();
      }
    }

    method CountDown()
      requires Valid() && Inv(k)
      modifies this, procTab, queues`lists, queues.tab
      ensures Valid() && k == KernelSpec.CountDown(old(k))
    {
      hide Inv, QueueTables.QueueTable.Valid, QueueTables.QueueTable.Keys, KernelSpec.Resched;
      SliceStay(k, k.preempt - 1, k.owing);
      SliceStay(k.(preempt := k.preempt - 1), QUANTUM, k.owing);
      preempt := preempt - 1;
      k := k.(preempt := preempt);
      if preempt <= 0 {
        preempt := QUANTUM;
        k := k.(preempt := QUANTUM);
        Yield();
      }
    }

    /** Adds to the key of a process. */
    method AddToKey(pid: nat, x: int)
      requires Valid() && pid < NPROC
      modifies this`k, queues.tab
      ensures Valid() && k == old(k).(key := old(k).key[pid := ToInt32(old(k).key[pid] + x)])
    {
      hide QueueTables.QueueTable.Valid, QueueTables.QueueTable.Keys;
      queues.AddKey(pid, x);
      k := k.(key := k.key[pid := ToInt32(k.key[pid] + x)]);
    }

    method TickDelays()
      requires Valid() && Inv(k)
      modifies this, procTab, queues`lists, queues.tab
      ensures Valid() && k == TickSleepers(old(k))
    {
      hide Inv, QueueTables.QueueTable.Valid, QueueTables.QueueTable.Keys, Holds, KernelSpec.Wakeup;
      queues.HeadSays(SLEEPQ);
      if queues.NonEmpty(sleepQ) {
        var first := queues.FirstId(sleepQ);
        RekeyInv(k, 0, ToInt32(k.key[k.lists[SLEEPQ][0]] - 1));
        AddToKey(first, -1);
        queues.FirstKeySays(SLEEPQ);
        if queues.FirstKey(sleepQ) <= 0 {
          Wakeup();
        }
      }
    }
  }
}
