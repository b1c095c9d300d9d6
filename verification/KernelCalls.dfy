/** Every kernel call keeps the invariant, so every run does. */
module KernelCalls {
  import opened Codes
  import opened QueueSpec
  import opened KernelSpec
  import opened KernelInv

  /** As many wait on the semaphore as its count is below zero. */
  ghost predicate Balanced(k: Kernel, s: nat)
    requires WellFormed(k) && s < NSEM
  {
    |k.lists[s]| == if k.sems[s].count < 0 then -k.sems[s].count else 0
  }

  /** Nothing changed but the ready list, queue `q` and, if that is a semaphore's, its count. */
  ghost predicate OnlyQueue(k: Kernel, k': Kernel, q: nat)
    requires WellFormed(k) && WellFormed(k')
  {
    && k'.ndefers == k.ndefers && k'.nextsem == k.nextsem
    && (forall j :: 0 <= j < NSEM && j != q ==> k'.sems[j] == k.sems[j])
    && (q < NSEM ==> k'.sems[q].used == k.sems[q].used)
    && forall j :: 0 <= j < NLISTS && j != q && j != READYLIST ==> k'.lists[j] == k.lists[j]
  }

  lemma CountedBut(k: Kernel, k': Kernel, s: nat)
    requires WellFormed(k) && WellFormed(k') && AllCounted(k) && s < NLISTS && OnlyQueue(k, k', s)
    requires s < NSEM ==> Counted(k', s)
    ensures AllCounted(k')
  {
    forall j | 0 <= j < NSEM
      ensures Counted(k', j)
    {
      assert Counted(k, j);
    }
  }

  lemma SemStay(k: Kernel, sems: seq<Sem>)
    requires Core(k) && |sems| == NSEM
    ensures Core(k.(sems := sems))
    ensures Scheduled(k) ==> Scheduled(k.(sems := sems))
  {
    Stay(k, k.(sems := sems));
  }

  lemma SignalOnceCore(k: Kernel, s: nat)
    requires Core(k) && Scheduled(k) && s < NSEM
    ensures var k' := SignalOnce(k, s);
            && Core(k') && Scheduled(k') && OnlyQueue(k, k', s)
            && k'.sems[s].count == ToInt32(k.sems[s].count + 1)
            && k'.lists[s] == if k.sems[s].count < 0 && k.lists[s] != [] then k.lists[s][1..] else k.lists[s]
  {
    hide Core, Scheduled, ToInt32, ReadyFirst;
    CoreFormed(k);
    var k1 := WithCount(k, s, ToInt32(k.sems[s].count + 1));
    SemStay(k, k1.sems);
    if k.sems[s].count < 0 && k.lists[s] != [] {
      ScheduledRuns(k1);
      ReadyFirstInv(k1, s);
    }
  }

  lemma SignalOnceInv(k: Kernel, s: nat)
    requires Core(k) && Scheduled(k) && s < NSEM && Balanced(k, s) && k.sems[s].count < MAXINT
    ensures var k' := SignalOnce(k, s);
            && Core(k') && Scheduled(k') && Balanced(k', s) && OnlyQueue(k, k', s)
            && k'.sems[s].count == k.sems[s].count + 1
            && k'.lists[s] == if k.lists[s] == [] then [] else k.lists[s][1..]
  {
    SignalOnceCore(k, s);
    FewIn(k, s);
    hide Core, Scheduled, ToInt32, SignalOnce;
  }

  lemma FewIn(k: Kernel, q: nat)
    requires Core(k) && q < NLISTS
    ensures WellFormed(k) && |k.lists[q]| <= NPROC
  {
    StandsAt(k, 0, q);
    FewPids(k.lists[q]);
    hide Core;
  }

  lemma OneShorter(l: seq<int>, n: nat)
    ensures n < |l| ==> l[n..] != [] && l[n..][1..] == l[n + 1..]
    ensures n == |l| ==> l[n..] == []
  {
  }

  /** Signals of any number keep queues and scheduler in order. */
  lemma {:induction false} SignalTimesCore(k: Kernel, s: nat, n: nat)
    requires Core(k) && Scheduled(k) && s < NSEM
    ensures var k' := SignalTimes(k, s, n);
            Core(k') && Scheduled(k') && OnlyQueue(k, k', s)
  {
    hide Core, Scheduled, SignalOnce;
    CoreFormed(k);
    if n > 0 {
      SignalTimesCore(k, s, n - 1);
      SignalOnceCore(SignalTimes(k, s, n - 1), s);
    }
  }

  lemma {:induction false} SignalTimesInv(k: Kernel, s: nat, n: nat)
    requires Core(k) && Scheduled(k) && s < NSEM && Balanced(k, s) && (n > 0 ==> k.sems[s].count + n <= MAXINT)
    ensures var k' := SignalTimes(k, s, n);
            && Core(k') && Scheduled(k') && Balanced(k', s) && OnlyQueue(k, k', s)
            && k'.sems[s].count == k.sems[s].count + n
            && k'.lists[s] == if n <= |k.lists[s]| then k.lists[s][n..] else []
  {
    hide Core, Scheduled, SignalOnce, ToInt32;
    CoreFormed(k);
    if n > 0 {
      var k1 := SignalTimes(k, s, n - 1);
      SignalTimesInv(k, s, n - 1);
      SignalOnceInv(k1, s);
      hide Balanced;
      OneShorter(k.lists[s], n - 1);
    }
  }

  lemma {:induction false} ReadyTimesInv(k: Kernel, q: nat, n: nat)
    requires Core(k) && Scheduled(k) && q < NLISTS && q != READYLIST && n <= |k.lists[q]|
    ensures var k' := ReadyTimes(k, q, n);
            && Core(k') && Scheduled(k') && OnlyQueue(k, k', q) && k'.sems == k.sems && k'.lists[q] == k.lists[q][n..]
  {
    hide Core, Scheduled, ReadyFirst;
    CoreFormed(k);
    if n > 0 {
      ReadyTimesInv(k, q, n - 1);
      assert Running(ReadyTimes(k, q, n - 1)) by { ScheduledRuns(ReadyTimes(k, q, n - 1)); }
      ReadyFirstInv(ReadyTimes(k, q, n - 1), q);
    }
  }

  lemma ScheduledRuns(k: Kernel)
    requires WellFormed(k) && Scheduled(k)
    ensures Running(k)
  {
  }

  lemma DeferStartInv(k: Kernel)
    requires Core(k) && Scheduled(k)
    ensures Core(DeferStart(k)) && Scheduled(DeferStart(k))
  {
    Stay(k, DeferStart(k));
  }

  lemma DeferStopInv(k: Kernel)
    requires Core(k) && Scheduled(k)
    ensures var k' := DeferStop(k).0;
            Core(k') && Scheduled(k') && k'.sems == k.sems
            && forall q :: 0 <= q < NLISTS && q != READYLIST ==> k'.lists[q] == k.lists[q]
  {
    if k.ndefers > 0 {
      var k1 := k.(ndefers := k.ndefers - 1);
      Stay(k, k1);
      if k1.ndefers == 0 && k1.attempt {
        ReschedScheduled(k1);
      }
    }
  }

  lemma SignalNInv(k: Kernel, s: int, n: int32)
    requires Inv(k) && May(k, SignalN(s, n))
    ensures Inv(SignalNCall(k, s, n).0)
  {
    hide Core, Scheduled, SignalOnce, SignalTimes, ReadyFirst, ReadyTimes, Resched, ToInt32;
    CoreFormed(k);
    if !(BadSem(s) || n < 0 || !k.sems[s].used) {
      assert Counted(k, s);
      DeferStartInv(k);
      SignalTimesInv(DeferStart(k), s, n);
      var k2 := SignalTimes(DeferStart(k), s, n);
      DeferStopInv(k2);
      hide Core, Scheduled;
      var k3 := DeferStop(k2).0;
      forall j | 0 <= j < NSEM
        ensures Counted(k3, j)
      {
        assert Counted(k, j);
      }
    }
  }

  lemma SemDeleteInv(k: Kernel, s: int)
    requires Inv(k)
    ensures Inv(SemDeleteCall(k, s).0)
  {
    hide Core, Scheduled, SignalOnce, SignalTimes, ReadyFirst, ReadyTimes, Resched, ToInt32;
    CoreFormed(k);
    if !(BadSem(s) || !k.sems[s].used) {
      assert Counted(k, s);
      var k0 := k.(sems := k.sems[s := k.sems[s].(used := false)]);
      SemStay(k, k0.sems);
      DeferStartInv(k0);
      var n := if k.sems[s].count < 0 then -k.sems[s].count else 0;
      SignalTimesInv(DeferStart(k0), s, n);
      var k2 := SignalTimes(DeferStart(k0), s, n);
      var k3 := WithCount(k2, s, ToInt32(k2.sems[s].count + 1));
      SemStay(k2, k3.sems);
      DeferStopInv(k3);
      hide Core, Scheduled;
      var k4 := DeferStop(k3).0;
      forall j | 0 <= j < NSEM
        ensures Counted(k4, j)
      {
        assert Counted(k, j);
      }
    }
  }

  lemma SemResetInv(k: Kernel, s: int, n: int32)
    requires Inv(k)
    ensures Inv(SemResetCall(k, s, n).0)
  {
    hide Core, Scheduled, SignalOnce, SignalTimes, ReadyFirst, ReadyTimes, Resched;
    CoreFormed(k);
    if !(n < 0 || BadSem(s) || !k.sems[s].used) {
      DeferStartInv(k);
      ReadyTimesInv(DeferStart(k), s, |k.lists[s]|);
      var k2 := ReadyTimes(DeferStart(k), s, |k.lists[s]|);
      var k3 := WithCount(k2, s, n);
      SemStay(k2, k3.sems);
      DeferStopInv(k3);
      hide Core, Scheduled;
      var k4 := DeferStop(k3).0;
      forall j | 0 <= j < NSEM
        ensures Counted(k4, j)
      {
        assert Counted(k, j);
      }
    }
  }

  lemma SemCreateInv(k: Kernel, n: int32)
    requires Inv(k)
    ensures Inv(SemCreateCall(k, n).0)
  {
    var k' := SemCreateCall(k, n).0;
    Stay(k, k');
    hide Core, Scheduled;
    forall j | 0 <= j < NSEM
      ensures Counted(k', j)
    {
      assert Counted(k, j);
    }
  }

  /** The running process leaves the processor for the queue its new state needs. */
  lemma LeaveRunning(k: Kernel, q: nat, i: nat, pr: Proc, key: seq<int>)
    requires Core(k) && k.procs[k.curr].state.Curr? && k.curr != NULLPROC
    requires q < NLISTS && q != READYLIST && i <= |k.lists[q]| && |key| == NPROC
    requires pr.prio == k.procs[k.curr].prio && Home(pr) == q && (pr.state.Wait? ==> 0 <= pr.sem < NSEM)
    requires forall j :: 0 <= j < |ReadyList(k)| ==> key[ReadyList(k)[j]] == k.key[ReadyList(k)[j]]
    ensures Core(WithList(k, q, InsertAt(k.lists[q], i, k.curr)).(procs := k.procs[k.curr := pr], key := key))
  {
    Join(k, q, i, k.curr, pr, key);
    assert AtHome(k, k.curr, READYLIST);
    hide Base;
  }

  lemma WaitInv(k: Kernel, s: int)
    requires Inv(k) && May(k, WaitOn(s))
    ensures Inv(WaitCall(k, s).0)
  {
    if !(BadSem(s) || !k.sems[s].used) {
      assert Counted(k, s);
      var k1 := WithCount(k, s, k.sems[s].count - 1);
      SemStay(k, k1.sems);
      var k2 := k1;
      if k1.sems[s].count < 0 {
        var pr := k.procs[k.curr].(sem := s, state := Wait);
        var l := k1.lists[s];
        assert InsertAt(l, |l|, k.curr) == l + [k.curr];
        LeaveRunning(k1, s, |l|, pr, k1.key);
        var k3 := WithList(k1, s, l + [k.curr]).(procs := k.procs[k.curr := pr], key := k1.key);
        ReschedScheduled(k3);
        var k4 := k1.(procs := k1.procs[k.curr := k1.procs[k.curr].(sem := s)]);
        assert WithState(WithList(k4, s, l + [k.curr]), k.curr, Wait) == k3;
      }
      hide Core, Scheduled;
      var k5 := WaitCall(k, s).0;
      forall j | 0 <= j < NSEM
        ensures Counted(k5, j)
      {
        assert Counted(k, j);
      }
    }
  }

  lemma SignalInv(k: Kernel, s: int)
    requires Inv(k) && May(k, SignalTo(s))
    ensures Inv(SignalCall(k, s).0)
  {
    hide Core, Scheduled, ToInt32;
    CoreFormed(k);
    if !(BadSem(s) || !k.sems[s].used) {
      assert Counted(k, s);
      SignalOnceInv(k, s);
      hide SignalOnce;
      var k1 := SignalOnce(k, s);
      forall j | 0 <= j < NSEM
        ensures Counted(k1, j)
      {
        assert Counted(k, j);
      }
    }
  }

  /** Keys that a change of the list of sleepers touches belong to no ready process. */
  lemma SleeperKeys(k: Kernel, i: nat)
    requires Base(k) && i < |k.lists[SLEEPQ]|
    ensures k.lists[SLEEPQ][i] !in ReadyList(k)
    ensures Home(k.procs[k.lists[SLEEPQ][i]]) == SLEEPQ
  {
    var p := k.lists[SLEEPQ][i];
    assert AtHome(k, p, SLEEPQ) && AtHome(k, p, READYLIST);
  }

  lemma PutAsleepInv(k: Kernel, delay: int, st: PState)
    requires Inv(k) && k.procs[k.curr].state.Curr? && k.curr != NULLPROC && (st == Sleep || st == RecTim)
    ensures Inv(Resched(PutAsleep(k, k.curr, delay, st)))
  {
    var p, l := k.curr, k.lists[SLEEPQ];
    var (i, y) := DeltaPlace(l, k.key, delay);
    assert AtHome(k, p, READYLIST);
    if i < |l| { SleeperKeys(k, i); }
    LeaveRunning(k, SLEEPQ, i, k.procs[p].(state := st), DeltaKeys(k.key, l, i, p, y));
    hide DeltaKeys, DeltaPlace, InsertAt;
    var k1 := PutAsleep(k, p, delay, st);
    assert Core(k1);
    ReschedScheduled(k1);
    hide Core, Scheduled, Resched;
    CountedBut(k, Resched(k1), SLEEPQ);
  }

  lemma ReceiveInv(k: Kernel)
    requires Inv(k) && May(k, Receive)
    ensures Inv(ReceiveCall(k))
  {
    if !k.procs[k.curr].hasMsg {
      var k1 := WithState(k, k.curr, Recv);
      Stay(k, k1);
      assert AtHome(k, k.curr, READYLIST);
      hide Base;
      ReschedScheduled(k1);
      hide Core, Scheduled, Resched;
      ReadyOnlyCounted(k, Resched(k1));
    }
  }

  lemma RecvTimeInv(k: Kernel, maxwait: int32)
    requires Inv(k) && May(k, RecvTime(maxwait))
    ensures Inv(RecvTimeCall(k, maxwait).0)
  {
    if maxwait >= 0 && !k.procs[k.curr].hasMsg {
      PutAsleepInv(k, maxwait, RecTim);
    }
  }

  lemma TakeInv(k: Kernel)
    requires Inv(k)
    ensures Inv(TakeMessage(k).0)
  {
    var k' := TakeMessage(k).0;
    Stay(k, k');
    ReadyOnlyCounted(k, k');
  }

  lemma ResumeInv(k: Kernel, p: int)
    requires Inv(k)
    ensures Inv(ResumeCall(k, p).0)
  {
    if !(BadPid(k, p) || !k.procs[p].state.Susp?) {
      MakeReadyInv(k, p);
      hide Core, Scheduled, MakeReady;
      ReadyOnlyCounted(k, MakeReady(k, p));
    }
  }

  lemma CreateInv(k: Kernel, p: int, prio: int)
    requires Inv(k)
    ensures Inv(Do(k, Create(p, prio)).0)
  {
    var k' := Do(k, Create(p, prio)).0;
    if 0 <= p < NPROC && k.procs[p].state.Free? {
      assert AtHome(k, p, READYLIST);
    }
    Stay(k, k');
    ReadyOnlyCounted(k, k');
  }

  /** A sleeper taken off the list early, in a state that needs no queue. */
  lemma TakeAwakeCore(k: Kernel, p: nat)
    requires Core(k) && p < NPROC && Home(k.procs[p]) == SLEEPQ && p != NULLPROC
    ensures Core(WithState(TakeAwake(k, p), p, Susp))
    ensures OnlyQueue(k, TakeAwake(k, p), SLEEPQ) && TakeAwake(k, p).procs == k.procs
  {
    hide Base, NoDup, RemoveAt;
    CoreFormed(k);
    StandsAt(k, p, SLEEPQ);
    StandsAt(k, p, READYLIST);
    var l := k.lists[SLEEPQ];
    var i := IndexOf(l, p);
    hide IndexOf;
    if i + 1 < |l| { SleeperKeys(k, i + 1); }
    var key := if i + 1 < |l| then k.key[l[i + 1] := ToInt32(k.key[l[i + 1]] + k.key[p])] else k.key;
    Leave(k, SLEEPQ, i, k.procs[p].(state := Susp), key);
  }

  lemma MessageStay(k: Kernel, p: nat, msg: int)
    requires Inv(k) && p < NPROC
    ensures Inv(k.(procs := k.procs[p := k.procs[p].(msg := msg, hasMsg := true)]))
  {
    var k' := k.(procs := k.procs[p := k.procs[p].(msg := msg, hasMsg := true)]);
    Stay(k, k');
    ReadyOnlyCounted(k, k');
  }

  /** A timed receiver is taken off its list and made ready. */
  lemma AwakenInv(k: Kernel, p: nat)
    requires Inv(k) && p < NPROC && k.procs[p].state.RecTim?
    ensures Inv(MakeReady(TakeAwake(k, p), p))
  {
    TakeAwakeCore(k, p);
    assert AtHome(k, p, SLEEPQ);
    var k1 := TakeAwake(k, p);
    var k2 := WithState(k1, p, Susp);
    hide TakeAwake;
    PutReadyCore(k2, p);
    assert k2.procs[p := k2.procs[p].(state := Ready)] == k1.procs[p := k1.procs[p].(state := Ready)];
    assert PutReady(k2, p) == PutReady(k1, p);
    ReschedScheduled(PutReady(k1, p));
    hide Core, Scheduled, MakeReady;
    CountedBut(k, MakeReady(k1, p), SLEEPQ);
  }

  lemma SendInv(k: Kernel, p: int, msg: int)
    requires Inv(k)
    ensures Inv(SendCall(k, p, msg).0)
  {
    if !(BadPid(k, p) || k.procs[p].hasMsg) {
      MessageStay(k, p, msg);
      var k1 := k.(procs := k.procs[p := k.procs[p].(msg := msg, hasMsg := true)]);
      if k.procs[p].state.Recv? {
        MakeReadyInv(k1, p);
        hide Core, Scheduled, MakeReady;
        ReadyOnlyCounted(k1, MakeReady(k1, p));
      } else if k.procs[p].state.RecTim? {
        AwakenInv(k1, p);
      }
    }
  }

  lemma SuspendInv(k: Kernel, p: int)
    requires Inv(k)
    ensures Inv(SuspendCall(k, p).0)
  {
    if !(BadPid(k, p) || p == NULLPROC) {
      if k.procs[p].state.Curr? {
        var k1 := WithState(k, p, Susp);
        Stay(k, k1);
        assert AtHome(k, p, READYLIST);
        hide Base;
        ReschedScheduled(k1);
        hide Core, Scheduled, Resched;
        ReadyOnlyCounted(k, Resched(k1));
      } else if k.procs[p].state.Ready? {
        SuspendReadyInv(k, p);
      }
    }
  }

  lemma SuspendReadyInv(k: Kernel, p: nat)
    requires Inv(k) && p < NPROC && p != NULLPROC && k.procs[p].state.Ready?
    ensures Inv(SuspendCall(k, p).0)
  {
    hide Base, NoDup, RemoveAt, Descending;
    CoreFormed(k);
    var l := ReadyList(k);
    var i := IndexOf(l, p);
    hide IndexOf;
    StandsAt(k, p, READYLIST);
    Leave(k, READYLIST, i, k.procs[p].(state := Susp), k.key);
    RemoveMembers(l, i);
    var k1 := WithState(WithList(k, READYLIST, RemoveAt(l, i)), p, Susp);
    RemoveDescending(l, k.key, i);
    ReadyOnlyCounted(k, k1);
    forall j | 0 <= j < |ReadyList(k1)|
      ensures k1.key[ReadyList(k1)[j]] == k1.procs[ReadyList(k1)[j]].prio
      ensures exists i :: 0 <= i < |l| && l[i] == ReadyList(k1)[j]
    {
      assert ReadyList(k1)[j] in RemoveAt(l, i);
    }
  }

  lemma RemoveDescending(l: seq<int>, key: seq<int>, i: nat)
    requires |key| == NPROC && Pids(l) && i < |l| && Descending(l, key)
    ensures Pids(RemoveAt(l, i)) && Descending(RemoveAt(l, i), key)
  {
    var r := RemoveAt(l, i);
    assert forall j :: 0 <= j < |r| ==> r[j] == if j < i then l[j] else l[j + 1];
  }

  lemma WakeupInv(k: Kernel)
    requires Inv(k)
    ensures Inv(Wakeup(k))
  {
    hide Core, Scheduled, ReadyTimes, Resched;
    CoreFormed(k);
    DeferStartInv(k);
    var n := Expired(k.lists[SLEEPQ], k.key);
    ReadyTimesInv(DeferStart(k), SLEEPQ, n);
    var k1 := ReadyTimes(DeferStart(k), SLEEPQ, n);
    DeferStopInv(k1);
    forall j | 0 <= j < NSEM
      ensures Counted(DeferStop(k1).0, j)
    {
      assert Counted(k, j);
    }
  }

  /** Changing the key of a sleeper. */
  lemma RekeyInv(k: Kernel, i: nat, x: int)
    requires Inv(k) && i < |k.lists[SLEEPQ]|
    ensures Inv(k.(key := k.key[k.lists[SLEEPQ][i] := x]))
  {
    var k' := k.(key := k.key[k.lists[SLEEPQ][i] := x]);
    SleeperKeys(k, i);
    Stay(k, k');
    hide Base;
    ReadyOnlyCounted(k, k');
  }

  lemma TickSleepersInv(k: Kernel)
    requires Inv(k)
    ensures Inv(TickSleepers(k))
  {
    var l := k.lists[SLEEPQ];
    if l != [] {
      RekeyInv(k, 0, ToInt32(k.key[l[0]] - 1));
      var k0 := k.(key := k.key[l[0] := ToInt32(k.key[l[0]] - 1)]);
      hide Inv;
      if k0.key[l[0]] <= 0 { WakeupInv(k0); }
    }
  }

  lemma CountDownInv(k: Kernel)
    requires Inv(k)
    ensures Inv(CountDown(k))
  {
    hide Inv, Resched;
    SliceStay(k, k.preempt - 1, k.owing);
    SliceStay(k, QUANTUM, k.owing);
    ReschedInv(k.(preempt := QUANTUM));
    CountDownIs(k);
  }

  lemma CountDownIs(k: Kernel)
    requires Inv(k)
    ensures WellFormed(k)
    ensures CountDown(k) == if k.preempt <= 1 then Resched(k.(preempt := QUANTUM)) else k.(preempt := k.preempt - 1)
  {
    assert k.(preempt := k.preempt - 1).(preempt := QUANTUM) == k.(preempt := QUANTUM);
    hide Resched;
  }

  lemma TickInv(k: Kernel)
    requires Inv(k)
    ensures Inv(ClockTick(k))
  {
    hide Inv, CountDown, TickSleepers;
    InvFormed(k);
    TickSleepersInv(k);
    var k1 := TickSleepers(k);
    SliceStay(k1, k1.preempt, k1.owing + {k.curr});
    CountDownInv(k1);
  }

  /** The time slice has no part in the invariant. */
  lemma SliceStay(k: Kernel, n: int, owing: set<int>)
    requires Inv(k)
    ensures WellFormed(k) && Inv(k.(preempt := n, owing := owing))
    ensures Inv(k.(preempt := n)) && Inv(k.(owing := owing))
  {
    Stay(k, k.(preempt := n, owing := owing));
    Stay(k, k.(preempt := n));
    Stay(k, k.(owing := owing));
    ReadyOnlyCounted(k, k.(preempt := n, owing := owing));
    ReadyOnlyCounted(k, k.(preempt := n));
    ReadyOnlyCounted(k, k.(owing := owing));
    hide Base;
  }

  lemma ReschedInv(k: Kernel)
    requires Inv(k)
    ensures Inv(Resched(k))
  {
    ReschedScheduled(k);
    hide Core, Scheduled, Resched;
    ReadyOnlyCounted(k, Resched(k));
  }

  lemma StartInv(k: Kernel)
    requires Inv(k)
    ensures Inv(DeferStart(k))
  {
    DeferStartInv(k);
    hide Core, Scheduled;
    forall j | 0 <= j < NSEM
      ensures Counted(DeferStart(k), j)
    {
      assert Counted(k, j);
    }
  }

  lemma StopInv(k: Kernel)
    requires Inv(k)
    ensures Inv(DeferStop(k).0)
  {
    DeferStopInv(k);
    hide Core, Scheduled, Resched;
    forall j | 0 <= j < NSEM
      ensures Counted(DeferStop(k).0, j)
    {
      assert Counted(k, j);
    }
  }

  /** Every call keeps the invariant. */
  lemma DoInv(k: Kernel, c: Call)
    requires Inv(k) && May(k, c)
    ensures Inv(Do(k, c).0)
  {
    hide Inv, Resched, ReceiveCall, ClockTick, ToInt32;
    match c
    case WaitOn(s) => WaitInv(k, s);
    case SignalTo(s) => SignalInv(k, s);
    case SignalN(s, n) => SignalNInv(k, s, n);
    case SemCreate(n) => SemCreateInv(k, n);
    case SemDelete(s) => SemDeleteInv(k, s);
    case SemReset(s, n) => SemResetInv(k, s, n);
    case SleepMs(delay) => if delay == 0 { ReschedInv(k); } else { PutAsleepInv(k, ToInt32(delay), Sleep); }
    case Receive => ReceiveInv(k);
    case RecvTime(maxwait) => RecvTimeInv(k, maxwait);
    case Take => TakeInv(k);
    case Send(p, msg) => SendInv(k, p, msg);
    case Suspend(p) => SuspendInv(k, p);
    case Resume(p) => ResumeInv(k, p);
    case Tick => TickInv(k);
    case StartDefer => StartInv(k);
    case StopDefer => StopInv(k);
    case Create(p, prio) => CreateInv(k, p, prio);
  }

  /** Signals past the greatest count leave it negative, with nobody waiting. */
  lemma {:induction false} SignalTimesOver(k: Kernel, s: nat, n: nat)
    requires Core(k) && Scheduled(k) && s < NSEM && 0 <= k.sems[s].count <= MAXINT && n <= MAXINT && k.lists[s] == []
    ensures var k' := SignalTimes(k, s, n);
            k'.sems[s].count == ToInt32(k.sems[s].count + n) && k'.lists[s] == []
  {
    hide Core, Scheduled, SignalOnce, ToInt32;
    CoreFormed(k);
    if n > 0 {
      SignalTimesOver(k, s, n - 1);
      SignalTimesCore(k, s, n - 1);
      SignalOnceCore(SignalTimes(k, s, n - 1), s);
    }
  }

  lemma OverflowBreaks(k: Kernel, c: Call)
    requires Inv(k) && WellFormed(k) && Overflows(k, c)
    ensures !Inv(Do(k, c).0)
  {
    hide Core, Scheduled, SignalOnce, SignalTimes, ToInt32, DeferStop;
    assert Counted(k, c.s);
    FewIn(k, c.s);
    var k' := Do(k, c).0;
    if c.SignalTo? {
      SignalOnceCore(k, c.s);
    } else {
      DeferStartInv(k);
      SignalTimesOver(DeferStart(k), c.s, c.n);
      SignalTimesCore(DeferStart(k), c.s, c.n);
      DeferStopInv(SignalTimes(DeferStart(k), c.s, c.n));
    }
    assert WellFormed(k') && !Counted(k', c.s);
  }

  /** Of the calls that can be made, just those that signal a semaphore past its greatest count break the invariant. */
  lemma KeepsUnlessOverflow(k: Kernel, c: Call)
    requires Inv(k) && WellFormed(k) && Calling(k, c)
    ensures Inv(Do(k, c).0) <==> !Overflows(k, c)
  {
    hide Inv, Do;
    if Overflows(k, c) { OverflowBreaks(k, c); } else { DoInv(k, c); }
  }

  /** In every state of a run every count is a signed word, so that counting down does not wrap either. */
  lemma CountsFit(states: seq<Kernel>, calls: seq<Call>, i: nat, s: nat)
    requires IsRun(states, calls) && i < |states| && s < NSEM
    ensures WellFormed(states[i]) && states[i].sems[s].count <= MAXINT
    ensures states[i].sems[s].used ==> -NPROC <= states[i].sems[s].count
  {
    RunInv(states, calls, i);
    assert Counted(states[i], s);
    FewIn(states[i], s);
    hide Core, Scheduled, IsRun;
  }

  /** The system when the null process has set itself up. */
  function Initial(): (k: Kernel)
    ensures WellFormed(k)
  {
    Kernel(seq(NPROC, p => Proc(if p == NULLPROC then Curr else PState.Free, 0, -1, 0, false)),
           seq(NSEM, s => Sem(false, 0)), seq(NLISTS, q => []), seq(NPROC, p => 0),
           NULLPROC, 0, false, QUANTUM, {}, 0)
  }

  lemma InitialInv()
    ensures Inv(Initial())
  {
    var k := Initial();
    forall p, q | 0 <= p < NPROC && 0 <= q < NLISTS
      ensures AtHome(k, p, q)
    {
    }
  }

  /** The states of a run: each call was allowed where it was made. */
  ghost predicate IsRun(states: seq<Kernel>, calls: seq<Call>)
  {
    && |states| == |calls| + 1 && states[0] == Initial()
    && forall i :: 0 <= i < |calls| ==>
         WellFormed(states[i]) && May(states[i], calls[i]) && states[i + 1] == Do(states[i], calls[i]).0
  }

  /** The invariant holds throughout every run. */
  lemma {:induction false} RunInv(states: seq<Kernel>, calls: seq<Call>, i: nat)
    requires IsRun(states, calls) && i < |states|
    ensures Inv(states[i])
  {
    hide Inv, Do;
    if i == 0 {
      InitialInv();
    } else {
      RunInv(states, calls, i - 1);
      DoInv(states[i - 1], calls[i - 1]);
    }
  }
}
