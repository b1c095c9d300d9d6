/** What each kernel call does to the states of the processes. Which of those that can run has the processor
    is left to the scheduler: rescheduling changes nothing here. */
module KernelStates {
  import opened Codes
  import opened QueueSpec
  import opened KernelSpec
  import opened KernelInv
  import opened KernelCalls
  import opened KernelSleep
  import opened KernelMessages
  import Delays

  datatype Standing = Absent | Runnable | Asleep | Receiving | TimedReceiving | Suspended | WaitingOn(s: int)

  function StandingOf(pr: Proc): Standing
  {
    match pr.state
    case Free => Absent
    case Curr => Runnable
    case Ready => Runnable
    case Recv => Receiving
    case Sleep => Asleep
    case Susp => Suspended
    case Wait => WaitingOn(pr.sem)
    case RecTim => TimedReceiving
  }

  function Standings(k: Kernel): (r: seq<Standing>)
    requires WellFormed(k)
    ensures |r| == NPROC
    ensures forall p :: 0 <= p < NPROC ==> r[p] == StandingOf(k.procs[p])
  {
    seq(NPROC, p requires 0 <= p < NPROC => StandingOf(k.procs[p]))
  }

  /** All processes of `l` can run from now on. */
  function Released(st: seq<Standing>, l: seq<int>): (r: seq<Standing>)
    requires |st| == NPROC && Pids(l)
    ensures |r| == NPROC
    ensures forall p :: 0 <= p < NPROC ==> r[p] == if p in l then Runnable else st[p]
  {
    if l == [] then st else Released(st, l[..|l| - 1])[l[|l| - 1] := Runnable]
  }

  function UpTo(l: seq<int>, n: nat): (r: seq<int>)
    ensures Pids(l) ==> Pids(r)
  {
    if n <= |l| then l[..n] else l
  }

  /** Does the call work? */
  predicate Works(k: Kernel, c: Call)
    requires WellFormed(k)
  {
    match c
    case WaitOn(s) => !BadSem(s) && k.sems[s].used
    case SignalTo(s) => !BadSem(s) && k.sems[s].used
    case SignalN(s, n) => !BadSem(s) && k.sems[s].used && n >= 0
    case SemDelete(s) => !BadSem(s) && k.sems[s].used
    case SemReset(s, n) => !BadSem(s) && k.sems[s].used && n >= 0
    case SemCreate(n) => n >= 0 && exists s :: 0 <= s < NSEM && !k.sems[s].used
    case RecvTime(maxwait) => maxwait >= 0
    case Take => k.procs[k.curr].hasMsg
    case StopDefer => k.ndefers > 0
    case Send(p, _) => !BadPid(k, p) && !k.procs[p].hasMsg
    case Suspend(p) => !BadPid(k, p) && p != NULLPROC && StandingOf(k.procs[p]) == Runnable
    case Resume(p) => !BadPid(k, p) && StandingOf(k.procs[p]) == Suspended
    case Create(p, prio) => 0 <= p < NPROC && StandingOf(k.procs[p]) == Absent && 1 <= prio < 0x8000
    case _ => true
  }

  /** The states of all processes after a call. */
  function StandingsAfter(k: Kernel, c: Call): seq<Standing>
    requires WellFormed(k)
  {
    var st := Standings(k);
    if !Works(k, c) then st
    else match c
      case WaitOn(s) => if k.sems[s].count <= 0 then st[k.curr := WaitingOn(s)] else st
      case SignalTo(s) => Released(st, UpTo(k.lists[s], 1))
      case SignalN(s, n) => Released(st, UpTo(k.lists[s], n))
      case SemDelete(s) => Released(st, k.lists[s])
      case SemReset(s, _) => Released(st, k.lists[s])
      case SleepMs(delay) => if delay == 0 then st else st[k.curr := Asleep]
      case Receive => if k.procs[k.curr].hasMsg then st else st[k.curr := Receiving]
      case RecvTime(_) => if k.procs[k.curr].hasMsg then st else st[k.curr := TimedReceiving]
      case Send(p, _) => if st[p] == Receiving || st[p] == TimedReceiving then st[p := Runnable] else st
      case Suspend(p) => st[p := Suspended]
      case Resume(p) => st[p := Runnable]
      case Tick => Released(st, UpTo(k.lists[SLEEPQ], |WordTick(Sleepers(k)).0|))
      case Create(p, _) => st[p := Suspended]
      case _ => st
  }

  /** One process changed. */
  lemma SetOne(k: Kernel, k': Kernel, p: nat, pr: Proc)
    requires WellFormed(k) && WellFormed(k') && p < NPROC && k'.procs == k.procs[p := pr]
    ensures Standings(k') == Standings(k)[p := StandingOf(pr)]
  {
  }

  lemma PutReadyStands(k: Kernel, p: nat)
    requires WellFormed(k) && p < NPROC
    ensures Standings(PutReady(k, p)) == Standings(k)[p := Runnable]
  {
    SetOne(k, PutReady(k, p), p, k.procs[p].(state := Ready));
  }

  lemma SwitchStands(k: Kernel)
    requires Core(k)
    ensures WellFormed(k) && Standings(SwitchTo(k)) == Standings(k)
  {
    CoreFormed(k);
    var l := ReadyList(k);
    if l != [] {
      StandsAt(k, l[0], READYLIST);
      hide Core;
      SetOne(k, SwitchTo(k), l[0], k.procs[l[0]].(state := Curr));
    }
  }

  /** Rescheduling decides only who of those that can run has the processor. */
  lemma ReschedStands(k: Kernel)
    requires Core(k)
    ensures WellFormed(k) && Standings(Resched(k)) == Standings(k)
  {
    hide Base, Sorted;
    CoreFormed(k);
    if k.ndefers == 0 && k.procs[k.curr].state.Curr? {
      StandsAt(k, k.curr, READYLIST);
      PutReadyCore(k, k.curr);
      PutReadyStands(k, k.curr);
      SwitchStands(PutReady(k, k.curr));
    } else if k.ndefers == 0 {
      SwitchStands(k);
    }
    hide Core, PutReady, SwitchTo;
  }

  lemma MakeReadyStands(k: Kernel, p: nat)
    requires WellFormed(k) && p < NPROC && Core(PutReady(k, p))
    ensures Standings(MakeReady(k, p)) == Standings(k)[p := Runnable]
  {
    PutReadyStands(k, p);
    ReschedStands(PutReady(k, p));
  }

  lemma ReadyFirstStands(k: Kernel, q: nat)
    requires Core(k) && Running(k) && q < NLISTS && q != READYLIST && k.lists[q] != []
    ensures WellFormed(k) && Pids(k.lists[q]) && Standings(ReadyFirst(k, q)) == Standings(k)[k.lists[q][0] := Runnable]
  {
    CoreFormed(k);
    FirstPutReady(k, q);
    hide Core, MakeReady, PutReady;
    MakeReadyStands(WithList(k, q, k.lists[q][1..]), k.lists[q][0]);
    assert Standings(WithList(k, q, k.lists[q][1..])) == Standings(k);
  }

  lemma SignalOnceStands(k: Kernel, s: nat)
    requires Core(k) && Scheduled(k) && s < NSEM && Balanced(k, s)
    ensures WellFormed(k) && Standings(SignalOnce(k, s)) == Released(Standings(k), UpTo(k.lists[s], 1))
  {
    CoreFormed(k);
    hide ToInt32;
    var k1 := WithCount(k, s, ToInt32(k.sems[s].count + 1));
    SemStay(k, k1.sems);
    assert Standings(k1) == Standings(k);
    if k.lists[s] != [] { ReadyFirstStands(k1, s); }
    hide Core, ReadyFirst;
  }

  /** One release more. */
  lemma ReleasedOn(st: seq<Standing>, l: seq<int>, n: nat)
    requires |st| == NPROC && Pids(l) && 0 < n
    ensures Released(Released(st, UpTo(l, n - 1)), UpTo(if n - 1 <= |l| then l[n - 1..] else [], 1))
            == Released(st, UpTo(l, n))
  {
    if n <= |l| {
      assert UpTo(l, n) == UpTo(l, n - 1) + [l[n - 1]];
      assert UpTo(l[n - 1..], 1) == [l[n - 1]];
    }
  }

  lemma {:induction false} SignalTimesStands(k: Kernel, s: nat, n: nat)
    requires Core(k) && Scheduled(k) && s < NSEM && Balanced(k, s) && (n > 0 ==> k.sems[s].count + n <= MAXINT)
    ensures WellFormed(k) && Standings(SignalTimes(k, s, n)) == Released(Standings(k), UpTo(k.lists[s], n))
  {
    hide Core, Scheduled, SignalOnce;
    CoreFormed(k);
    if n > 0 {
      SignalTimesStands(k, s, n - 1);
      SignalTimesInv(k, s, n - 1);
      SignalOnceStands(SignalTimes(k, s, n - 1), s);
      ReleasedOn(Standings(k), k.lists[s], n);
    }
  }

  lemma {:induction false} ReadyTimesStands(k: Kernel, q: nat, n: nat)
    requires Core(k) && Scheduled(k) && q < NLISTS && q != READYLIST && n <= |k.lists[q]|
    ensures WellFormed(k) && Standings(ReadyTimes(k, q, n)) == Released(Standings(k), UpTo(k.lists[q], n))
  {
    hide Core, Scheduled, ReadyFirst;
    CoreFormed(k);
    if n > 0 {
      ReadyTimesStands(k, q, n - 1);
      ReadyTimesInv(k, q, n - 1);
      var k1 := ReadyTimes(k, q, n - 1);
      ScheduledRuns(k1);
      ReadyFirstStands(k1, q);
      assert k.lists[q][..n] == k.lists[q][..n - 1] + [k.lists[q][n - 1]];
    }
  }

  lemma DeferStopStands(k: Kernel)
    requires Core(k)
    ensures WellFormed(k) && Standings(DeferStop(k).0) == Standings(k)
  {
    CoreFormed(k);
    if k.ndefers > 0 {
      var k1 := k.(ndefers := k.ndefers - 1);
      Stay(k, k1);
      hide Base;
      assert Standings(k1) == Standings(k);
      ReschedStands(k1);
      hide Core, Resched;
    }
  }

  /** The end of a deferral after the count of a semaphore has been set. */
  lemma CountAndStop(k: Kernel, s: nat, n: int)
    requires Core(k) && s < NSEM
    ensures WellFormed(k) && Standings(DeferStop(WithCount(k, s, n)).0) == Standings(k)
  {
    CoreFormed(k);
    SemStay(k, k.sems[s := k.sems[s].(count := n)]);
    DeferStopStands(WithCount(k, s, n));
    assert Standings(WithCount(k, s, n)) == Standings(k);
    hide DeferStop, Core;
  }

  lemma SemCallsStand(k: Kernel, c: Call)
    requires Inv(k) && May(k, c) && (c.SignalTo? || c.SignalN? || c.SemReset? || c.SemDelete?)
    ensures WellFormed(k) && Standings(Do(k, c).0) == StandingsAfter(k, c)
  {
    hide Core, Scheduled, SignalOnce, SignalTimes, ReadyTimes, DeferStop, UpTo, ToInt32;
    CoreFormed(k);
    var s := c.s;
    if Works(k, c) {
      assert Counted(k, s);
      match c
      case SignalTo(_) => SignalOnceStands(k, s);
      case SignalN(_, n) => SignalNStands(k, s, n);
      case SemReset(_, n) => SemResetStands(k, s, n);
      case SemDelete(_) => SemDeleteStands(k, s);
    }
  }

  lemma SignalNStands(k: Kernel, s: nat, n: nat)
    requires Inv(k) && s < NSEM && k.sems[s].used && (n > 0 ==> k.sems[s].count + n <= MAXINT)
    ensures Standings(SignalNCall(k, s, n).0) == Released(Standings(k), UpTo(k.lists[s], n))
  {
    hide Core, Scheduled, SignalTimes, DeferStop, UpTo, Released;
    CoreFormed(k);
    assert Counted(k, s);
    DeferStartInv(k);
    var k1 := DeferStart(k);
    assert Standings(k1) == Standings(k);
    SignalTimesInv(k1, s, n);
    SignalTimesStands(k1, s, n);
    DeferStopStands(SignalTimes(k1, s, n));
  }

  lemma SemResetStands(k: Kernel, s: nat, n: nat)
    requires Inv(k) && s < NSEM && k.sems[s].used
    ensures Standings(SemResetCall(k, s, n).0) == Released(Standings(k), k.lists[s])
  {
    hide Core, Scheduled, ReadyTimes, DeferStop, Released;
    CoreFormed(k);
    DeferStartInv(k);
    var k1 := DeferStart(k);
    assert Standings(k1) == Standings(k);
    ReadyTimesInv(k1, s, |k.lists[s]|);
    ReadyTimesStands(k1, s, |k.lists[s]|);
    assert k.lists[s][..|k.lists[s]|] == k.lists[s];
    CountAndStop(ReadyTimes(k1, s, |k.lists[s]|), s, n);
  }

  lemma SemDeleteStands(k: Kernel, s: nat)
    requires Inv(k) && s < NSEM && k.sems[s].used
    ensures Standings(SemDeleteCall(k, s).0) == Released(Standings(k), k.lists[s])
  {
    hide Core, Scheduled, SignalTimes, DeferStop, Released;
    CoreFormed(k);
    assert Counted(k, s);
    var k0 := k.(sems := k.sems[s := k.sems[s].(used := false)]);
    SemStay(k, k0.sems);
    DeferStartInv(k0);
    var k1, n := DeferStart(k0), |k.lists[s]|;
    assert Standings(k1) == Standings(k);
    SignalTimesInv(k1, s, n);
    SignalTimesStands(k1, s, n);
    assert UpTo(k.lists[s], n) == k.lists[s];
    CountAndStop(SignalTimes(k1, s, n), s, ToInt32(SignalTimes(k1, s, n).sems[s].count + 1));
  }

  lemma WaitStands(k: Kernel, s: int)
    requires Inv(k) && May(k, WaitOn(s))
    ensures WellFormed(k) && Standings(WaitCall(k, s).0) == StandingsAfter(k, WaitOn(s))
  {
    if Works(k, WaitOn(s)) && k.sems[s].count <= 0 {
      var k1 := WithCount(k, s, k.sems[s].count - 1);
      SemStay(k, k1.sems);
      var pr, l := k.procs[k.curr].(sem := s, state := Wait), k1.lists[s];
      assert InsertAt(l, |l|, k.curr) == l + [k.curr];
      LeaveRunning(k1, s, |l|, pr, k1.key);
      var k3 := WithList(k1, s, l + [k.curr]).(procs := k.procs[k.curr := pr], key := k1.key);
      var k4 := k1.(procs := k1.procs[k.curr := k1.procs[k.curr].(sem := s)]);
      assert WithState(WithList(k4, s, l + [k.curr]), k.curr, Wait) == k3;
      hide Core, Resched;
      ReschedStands(k3);
      SetOne(k, k3, k.curr, pr);
    } else {
      assert Standings(WaitCall(k, s).0) == Standings(k);
    }
  }

  lemma AsleepStands(k: Kernel, delay: int, st: PState)
    requires Inv(k) && k.procs[k.curr].state.Curr? && k.curr != NULLPROC && (st == Sleep || st == RecTim)
    ensures Standings(Resched(PutAsleep(k, k.curr, delay, st)))
            == Standings(k)[k.curr := if st == Sleep then Asleep else TimedReceiving]
  {
    var p, l := k.curr, k.lists[SLEEPQ];
    var (i, y) := DeltaPlace(l, k.key, delay);
    StandsAt(k, p, READYLIST);
    if i < |l| { SleeperKeys(k, i); }
    LeaveRunning(k, SLEEPQ, i, k.procs[p].(state := st), DeltaKeys(k.key, l, i, p, y));
    hide DeltaKeys, DeltaPlace, InsertAt, Core, Resched;
    ReschedStands(PutAsleep(k, p, delay, st));
    SetOne(k, PutAsleep(k, p, delay, st), p, k.procs[p].(state := st));
  }

  lemma ParkStands(k: Kernel, st: PState)
    requires Inv(k) && k.procs[k.curr].state.Curr? && k.curr != NULLPROC && (st == Recv || st == Susp)
    ensures Standings(Resched(WithState(k, k.curr, st)))
            == Standings(k)[k.curr := if st == Recv then Receiving else Suspended]
  {
    var k1 := WithState(k, k.curr, st);
    Stay(k, k1);
    StandsAt(k, k.curr, READYLIST);
    hide Base, Resched;
    ReschedStands(k1);
    SetOne(k, k1, k.curr, k.procs[k.curr].(state := st));
  }

  lemma SuspendStands(k: Kernel, p: int)
    requires Inv(k)
    ensures WellFormed(k) && Standings(SuspendCall(k, p).0) == StandingsAfter(k, Suspend(p))
    ensures SuspendCall(k, p).1 == if Works(k, Suspend(p)) then k.procs[p].prio else SYSERR
  {
    if Works(k, Suspend(p)) {
      if k.procs[p].state.Curr? {
        ParkStands(k, Susp);
        hide Resched, Inv;
      } else {
        StandsAt(k, p, READYLIST);
        hide Inv;
        SetOne(k, SuspendCall(k, p).0, p, k.procs[p].(state := Susp));
      }
    }
  }

  lemma ResumeStands(k: Kernel, p: int)
    requires Inv(k)
    ensures WellFormed(k) && Standings(ResumeCall(k, p).0) == StandingsAfter(k, Resume(p))
    ensures ResumeCall(k, p).1 == if Works(k, Resume(p)) then k.procs[p].prio else SYSERR
  {
    hide Inv, MakeReady;
    InvFormed(k);
    if Works(k, Resume(p)) { WaiterStands(k, p); }
    hide WellFormed;
  }

  lemma SendStands(k: Kernel, p: int, msg: int)
    requires Inv(k)
    ensures WellFormed(k) && Standings(SendCall(k, p, msg).0) == StandingsAfter(k, Send(p, msg))
  {
    hide Inv, MakeReady, TakeAwake;
    InvFormed(k);
    if Works(k, Send(p, msg)) {
      MessageStay(k, p, msg);
      var pr := k.procs[p].(msg := msg, hasMsg := true);
      var k1 := k.(procs := k.procs[p := pr]);
      SetOne(k, k1, p, pr);
      Again(k, p, pr);
      hide WellFormed;
      if k.procs[p].state.Recv? {
        WaiterStands(k1, p);
        assert SendCall(k, p, msg).0 == MakeReady(k1, p);
      } else if k.procs[p].state.RecTim? {
        AwakenStands(k1, p);
        assert SendCall(k, p, msg).0 == MakeReady(TakeAwake(k1, p), p);
      } else {
        assert SendCall(k, p, msg).0 == k1;
      }
    }
  }

  /** A change of a process that leaves its state alone. */
  lemma Again(k: Kernel, p: nat, pr: Proc)
    requires WellFormed(k) && p < NPROC && pr.state == k.procs[p].state && pr.sem == k.procs[p].sem
    ensures Standings(k)[p := StandingOf(pr)] == Standings(k)
    ensures Standings(k)[p] == Receiving <==> k.procs[p].state.Recv?
    ensures Standings(k)[p] == TimedReceiving <==> k.procs[p].state.RecTim?
  {
  }

  lemma WaiterStands(k: Kernel, p: nat)
    requires Inv(k) && p < NPROC && (k.procs[p].state.Recv? || k.procs[p].state.Susp?)
    ensures Standings(MakeReady(k, p)) == Standings(k)[p := Runnable]
  {
    PutReadyCore(k, p);
    hide Core, MakeReady, PutReady;
    MakeReadyStands(k, p);
  }

  lemma AwakenStands(k: Kernel, p: nat)
    requires Inv(k) && p < NPROC && k.procs[p].state.RecTim?
    ensures Standings(MakeReady(TakeAwake(k, p), p)) == Standings(k)[p := Runnable]
  {
    TakeAwakeCore(k, p);
    var k1 := TakeAwake(k, p);
    PutReadyCore(WithState(k1, p, Susp), p);
    ReadyFromAny(k1, p, Susp);
    hide TakeAwake, Core, MakeReady, PutReady;
    MakeReadyStands(k1, p);
    assert Standings(k1) == Standings(k);
  }

  /** A tick releases the sleepers at the front of the list whose time has come. */
  lemma TickStands(k: Kernel)
    requires Inv(k)
    ensures WellFormed(k) && Standings(ClockTick(k)) == StandingsAfter(k, Tick)
  {
    hide Inv, TickSleepers, CountDown, StandingsAfter;
    InvFormed(k);
    TickSleepersInv(k);
    TickSleepersStand(k);
    var k1 := TickSleepers(k);
    CountDownStands(k1);
    SliceStands(k1, k1.preempt, k1.owing + {k.curr});
  }

  lemma CountDownStands(k: Kernel)
    requires Inv(k)
    ensures WellFormed(k) && Standings(CountDown(k)) == Standings(k)
  {
    hide Inv, Resched, CountDown;
    CountDownIs(k);
    SliceStay(k, QUANTUM, k.owing);
    SliceStands(k, QUANTUM, k.owing);
    SliceStands(k, k.preempt - 1, k.owing);
    InvRuns(k.(preempt := QUANTUM));
    ReschedStands(k.(preempt := QUANTUM));
  }

  /** The time slice has no part in the states of processes. */
  lemma SliceStands(k: Kernel, n: int, owing: set<int>)
    requires WellFormed(k)
    ensures Standings(k.(preempt := n, owing := owing)) == Standings(k)
    ensures Standings(k.(preempt := n)) == Standings(k) && Standings(k.(owing := owing)) == Standings(k)
  {
  }

  lemma TickSleepersStand(k: Kernel)
    requires Inv(k)
    ensures WellFormed(k) && Standings(TickSleepers(k)) == StandingsAfter(k, Tick)
  {
    hide Inv, Wakeup, Expired, Released, UpTo;
    InvFormed(k);
    var l := k.lists[SLEEPQ];
    if l != [] {
      TickExpired(k);
      RekeyInv(k, 0, ToInt32(k.key[l[0]] - 1));
      var k0 := k.(key := k.key[l[0] := ToInt32(k.key[l[0]] - 1)]);
      assert Standings(k0) == Standings(k);
      if k0.key[l[0]] <= 0 { WakeupStands(k0); } else { ReleasedNone(Standings(k), l); }
    } else {
      ReleasedNone(Standings(k), l);
    }
  }

  lemma ReleasedNone(st: seq<Standing>, l: seq<int>)
    requires |st| == NPROC && Pids(l)
    ensures Released(st, UpTo(l, 0)) == st
  {
  }

  /** Whom a tick wakes, in terms of the list of relative delays. */
  lemma TickExpired(k: Kernel)
    requires Inv(k) && k.lists[SLEEPQ] != []
    ensures WellFormed(k)
    ensures var l := k.lists[SLEEPQ];
            var key := k.key[l[0] := ToInt32(k.key[l[0]] - 1)];
            |WordTick(Sleepers(k)).0| == if key[l[0]] <= 0 then Expired(l, key) else 0
  {
    var l := k.lists[SLEEPQ];
    var key := k.key[l[0] := ToInt32(k.key[l[0]] - 1)];
    StandsAt(k, l[0], SLEEPQ);
    hide Inv, Expired, ToInt32;
    PairsHead(l, k.key, key[l[0]]);
    PairsSplit(l, key);
    hide Pairs, Delays.Split;
  }

  lemma WakeupStands(k: Kernel)
    requires Inv(k)
    ensures WellFormed(k)
    ensures Standings(Wakeup(k)) == Released(Standings(k), UpTo(k.lists[SLEEPQ], Expired(k.lists[SLEEPQ], k.key)))
  {
    hide Core, Scheduled, ReadyTimes, DeferStop, Expired, UpTo, Released;
    CoreFormed(k);
    DeferStartInv(k);
    var k1, n := DeferStart(k), Expired(k.lists[SLEEPQ], k.key);
    assert Standings(k1) == Standings(k);
    ReadyTimesInv(k1, SLEEPQ, n);
    ReadyTimesStands(k1, SLEEPQ, n);
    DeferStopStands(ReadyTimes(k1, SLEEPQ, n));
  }

  /** Every call does to the states of the processes what `StandingsAfter` says, whatever the scheduler does. */
  lemma CallStandings(k: Kernel, c: Call)
    requires Inv(k) && May(k, c)
    ensures WellFormed(k) && Standings(Do(k, c).0) == StandingsAfter(k, c)
  {
    InvRuns(k);
    InvFormed(k);
    hide Inv, SignalNCall, SemResetCall, SemDeleteCall, SignalCall, WaitCall, Resched, ClockTick, DeferStop, MakeReady,
      Released, UpTo, SendCall, SuspendCall, ResumeCall;
    match c
    case WaitOn(s) => WaitStands(k, s);
    case SignalTo(s) => SemCallsStand(k, c);
    case SignalN(s, n) => SemCallsStand(k, c);
    case SemReset(s, n) => SemCallsStand(k, c);
    case SemDelete(s) => SemCallsStand(k, c);
    case SemCreate(n) => CreatedStands(k, n);
    case SleepMs(delay) => if delay == 0 { ReschedStands(k); } else { AsleepStands(k, ToInt32(delay), Sleep); }
    case Receive => if !k.procs[k.curr].hasMsg { ParkStands(k, Recv); }
    case RecvTime(maxwait) => if Works(k, c) && !k.procs[k.curr].hasMsg { AsleepStands(k, maxwait, RecTim); }
    case Take => TakeStands(k);
    case Send(p, msg) => SendStands(k, p, msg);
    case Suspend(p) => SuspendStands(k, p);
    case Resume(p) => ResumeStands(k, p);
    case Tick => TickStands(k);
    case StartDefer => StartStands(k);
    case StopDefer => DeferStopStands(k);
    case Create(p, prio) => CreateStands(k, p, prio);
  }

  /** A call answers an error exactly where it does not work, a receive that has waited in vain says so, and what the
      others answer depends on the state before alone. A semaphore is created in the first free place, going round from
      the one behind the last created. */
  ghost predicate Answered(k: Kernel, c: Call, k': Kernel, r: int)
    requires WellFormed(k) && WellFormed(k')
  {
    if !Works(k, c) then r == if c.Take? then TIMEOUT else SYSERR
    else match c
      case Take => r == k.procs[k.curr].msg && k' == k.(procs := k'.procs) && !k'.procs[k.curr].hasMsg
      case Suspend(p) => r == k.procs[p].prio
      case Resume(p) => r == k.procs[p].prio
      case Create(p, prio) => r == p && k'.procs[p].prio == prio && !k'.procs[p].hasMsg
      case SemCreate(n) =>
        && FirstFree(k.sems, k.nextsem, r)
        && k' == k.(sems := k.sems[r := Sem(true, n)], nextsem := (r + 1) % NSEM)
      case _ => r == OK
  }

  ghost predicate FirstFree(sems: seq<Sem>, from: nat, r: int)
    requires |sems| == NSEM
  {
    && 0 <= r < NSEM && !sems[r].used
    && forall s :: 0 <= s < NSEM && !sems[s].used ==> Distance(from, r, NSEM) <= Distance(from, s, NSEM)
  }

  lemma CallAnswers(k: Kernel, c: Call)
    requires Inv(k)
    ensures WellFormed(k) && Answered(k, c, Do(k, c).0, Do(k, c).1)
  {
    InvFormed(k);
    hide Answered, Do, Inv;
    match c
    case SemCreate(n) => SemCreateAnswers(k, n);
    case Send(_, _) => SendAnswered(k, c);
    case Suspend(p) => SuspendAnswers(k, p);
    case Resume(p) => ResumeAnswers(k, p);
    case StopDefer => StopAnswers(k);
    case Take => OtherAnswers(k, c);
    case Create(_, _) => OtherAnswers(k, c);
    case SleepMs(_) => OtherAnswers(k, c);
    case RecvTime(_) => OtherAnswers(k, c);
    case Tick => OtherAnswers(k, c);
    case StartDefer => OtherAnswers(k, c);
    case Receive => OtherAnswers(k, c);
    case _ => SemAnswers(k, c);
  }

  lemma SemAnswers(k: Kernel, c: Call)
    requires WellFormed(k) && (c.WaitOn? || c.SignalTo? || c.SignalN? || c.SemReset? || c.SemDelete?)
    ensures Answered(k, c, Do(k, c).0, Do(k, c).1)
  {
    hide Resched, DeferStop, SignalOnce, SignalTimes, ReadyTimes, Block, ToInt32;
  }

  lemma SemCreateAnswers(k: Kernel, n: int32)
    requires WellFormed(k)
    ensures Answered(k, SemCreate(n), Do(k, SemCreate(n)).0, Do(k, SemCreate(n)).1)
  {
    hide FreeSem, FirstFree;
    FreeSemFrom(k.sems, k.nextsem);
  }

  lemma FreeSemFrom(sems: seq<Sem>, from: nat)
    requires |sems| == NSEM && from < NSEM
    ensures var r := FreeSem(sems, from, NSEM);
            if exists s :: 0 <= s < NSEM && !sems[s].used
            then FirstFree(sems, from, r) && 0 <= r < NSEM && (r + 1) % NSEM == if r + 1 >= NSEM then 0 else r + 1
            else r == SYSERR
  {
    hide FreeSem;
    FreeSemIs(sems, from, 0);
  }

  lemma SendAnswered(k: Kernel, c: Call)
    requires WellFormed(k) && c.Send?
    ensures Answered(k, c, Do(k, c).0, Do(k, c).1)
  {
    SendIs(k, c);
    SendAnswers(k, c.p, c.msg);
    hide SendCall, Do;
  }

  lemma SuspendAnswers(k: Kernel, p: int)
    requires Inv(k)
    ensures WellFormed(k) && Answered(k, Suspend(p), Do(k, Suspend(p)).0, Do(k, Suspend(p)).1)
  {
    hide SuspendCall, Inv, Standings, StandingsAfter;
    SuspendStands(k, p);
  }

  lemma ResumeAnswers(k: Kernel, p: int)
    requires Inv(k)
    ensures WellFormed(k) && Answered(k, Resume(p), Do(k, Resume(p)).0, Do(k, Resume(p)).1)
  {
    hide ResumeCall, Inv, Standings, StandingsAfter;
    ResumeStands(k, p);
  }

  lemma OtherAnswers(k: Kernel, c: Call)
    requires WellFormed(k)
    requires c.SleepMs? || c.RecvTime? || c.Take? || c.Create? || c.Tick? || c.StartDefer? || c.Receive?
    ensures Answered(k, c, Do(k, c).0, Do(k, c).1)
  {
    hide Resched, PutAsleep, ToInt32, ClockTick;
  }

  lemma StopAnswers(k: Kernel)
    requires WellFormed(k)
    ensures Answered(k, StopDefer, Do(k, StopDefer).0, Do(k, StopDefer).1)
  {
    hide Resched;
  }

  /** The search for a free semaphore, having gone by `n` in use, finds the next one going round. */
  lemma {:induction false} FreeSemIs(sems: seq<Sem>, from: nat, n: nat)
    requires |sems| == NSEM && from < NSEM && n <= NSEM
    requires forall s :: 0 <= s < NSEM && Distance(from, s, NSEM) < n ==> sems[s].used
    ensures var r := FreeSem(sems, Wrapped(from + n, NSEM), NSEM - n);
            if exists s :: 0 <= s < NSEM && !sems[s].used then FirstFree(sems, from, r) else r == SYSERR
    decreases NSEM - n
  {
    if n < NSEM {
      if sems[Wrapped(from + n, NSEM)].used { FreeSemIs(sems, from, n + 1); }
    }
  }

  lemma CreatedStands(k: Kernel, n: int)
    requires WellFormed(k)
    ensures Standings(SemCreateCall(k, n).0) == Standings(k)
  {
  }

  lemma TakeStands(k: Kernel)
    requires WellFormed(k)
    ensures Standings(TakeMessage(k).0) == Standings(k)
  {
  }

  lemma StartStands(k: Kernel)
    requires WellFormed(k)
    ensures Standings(DeferStart(k)) == Standings(k)
  {
  }

  lemma CreateStands(k: Kernel, p: int, prio: int)
    requires WellFormed(k)
    ensures Standings(Do(k, Create(p, prio)).0) == StandingsAfter(k, Create(p, prio))
  {
    if Works(k, Create(p, prio)) {
      SetOne(k, Do(k, Create(p, prio)).0, p, Proc(Susp, prio, -1, 0, false));
    }
  }

  /** Suspending a process and resuming it leaves every process in the state it had. */
  lemma ResumeUndoesSuspend(k: Kernel, p: int)
    requires Inv(k) && Works(k, Suspend(p))
    ensures var (k', prio) := SuspendCall(k, p);
            WellFormed(k) && prio == k.procs[p].prio && Inv(k') && Standings(k')[p] == Suspended
            && Standings(ResumeCall(k', p).0) == Standings(k) && ResumeCall(k', p).1 == prio
  {
    hide Inv, SuspendCall, ResumeCall;
    InvFormed(k);
    var k' := SuspendCall(k, p).0;
    SuspendInv(k, p);
    SuspendStands(k, p);
    assert k'.procs[p].prio == k.procs[p].prio by {
      SuspendMail(k, p);
      assert SameBox(k.procs[p], k'.procs[p]);
    }
    assert Standings(k') == Standings(k)[p := Suspended];
    assert StandingOf(k'.procs[p]) == Suspended;
    ResumeStands(k', p);
    assert Standings(k)[p := Suspended][p := Runnable] == Standings(k);
  }

  /** A process that waits for a message is on no queue that a call releases. */
  lemma OnNoQueue(k: Kernel, p: nat, q: nat)
    requires Inv(k) && p < NPROC && q < NLISTS && k.procs[p].state.Recv?
    ensures WellFormed(k) && forall n: nat :: p !in UpTo(k.lists[q], n)
    ensures p !in k.lists[q]
  {
    StandsAt(k, p, q);
    hide Inv;
  }

  /** Only a message to it lets a process go on that waits for one. */
  lemma OnlySendWakes(k: Kernel, c: Call, p: nat)
    requires Inv(k) && May(k, c) && p < NPROC && k.procs[p].state.Recv?
    ensures WellFormed(k)
    ensures Do(k, c).0.procs[p].state.Recv? || (exists msg :: c == Send(p, msg) && SendCall(k, p, msg).1 == OK)
  {
    hide Inv, Do, Released, UpTo;
    InvFormed(k);
    CallStandings(k, c);
    assert Standings(k)[p] == Receiving;
    if c.Send? && c.p == p {
      if k.procs[p].hasMsg {
        assert !Works(k, c);
      } else {
        assert SendCall(k, p, c.msg).1 == OK;
        assert c == Send(p, c.msg);
      }
    } else {
      if (c.SignalTo? || c.SignalN? || c.SemReset? || c.SemDelete?) && Works(k, c) { OnNoQueue(k, p, c.s); }
      if c.Tick? { OnNoQueue(k, p, SLEEPQ); }
      hide SendCall;
      assert StandingsAfter(k, c)[p] == Receiving;
    }
  }

  /** A process that blocked to receive stays blocked until it has a message, and has it when it runs. */
  lemma {:induction false} RunsWithMessage(states: seq<Kernel>, calls: seq<Call>, i: nat, j: nat, p: nat)
    requires IsRun(states, calls) && i <= j <= |calls| && p < NPROC
    requires WellFormed(states[i]) && states[i].procs[p].state.Recv?
    requires forall n :: i <= n < j ==> !(calls[n].Take? && states[n].curr == p)
    ensures WellFormed(states[j]) && !states[j].procs[p].state.Free?
    ensures states[j].procs[p].state.Recv? || states[j].procs[p].hasMsg
    decreases j
  {
    hide Inv, Do, May, IsRun, SendCall;
    if i < j {
      StepAt(states, calls, j - 1);
      RunsWithMessage(states, calls, i, j - 1, p);
      var k, c := states[j - 1], calls[j - 1];
      if k.procs[p].hasMsg {
        MessageKept(k, c, p);
      } else {
        OnlySendWakes(k, c, p);
        if !Do(k, c).0.procs[p].state.Recv? {
          SendAnswers(k, p, c.msg);
          SendDelivers(k, p, c.msg);
          SendIs(k, c);
        }
      }
    }
  }

  lemma SendIs(k: Kernel, c: Call)
    requires WellFormed(k) && c.Send?
    ensures Do(k, c) == SendCall(k, c.p, c.msg)
  {
  }
}
