/** Messages: what is sent stays with its recipient, unchanged, until the recipient takes it. */
module KernelMessages {
  import opened Codes
  import opened QueueSpec
  import opened KernelSpec
  import opened KernelInv
  import opened KernelCalls

  /** No process has gained, lost or changed a message, come or gone. */
  ghost predicate SameMail(k: Kernel, k': Kernel)
  {
    && WellFormed(k) && WellFormed(k')
    && forall p :: 0 <= p < NPROC ==> SameBox(k.procs[p], k'.procs[p])
  }

  predicate SameBox(p: Proc, p': Proc)
  {
    p'.msg == p.msg && p'.hasMsg == p.hasMsg && p'.prio == p.prio && (p'.state.Free? <==> p.state.Free?)
  }

  lemma MailTrans(k: Kernel, k1: Kernel, k2: Kernel)
    requires SameMail(k, k1) && SameMail(k1, k2)
    ensures SameMail(k, k2)
  {
    forall p | 0 <= p < NPROC
      ensures SameBox(k.procs[p], k2.procs[p])
    {
      assert SameBox(k.procs[p], k1.procs[p]) && SameBox(k1.procs[p], k2.procs[p]);
    }
  }

  lemma PutReadyMail(k: Kernel, p: nat)
    requires WellFormed(k) && p < NPROC && !k.procs[p].state.Free?
    ensures SameMail(k, PutReady(k, p))
  {
  }

  lemma SwitchMail(k: Kernel)
    requires WellFormed(k) && forall p :: p in ReadyList(k) ==> 0 <= p < NPROC && !k.procs[p].state.Free?
    ensures SameMail(k, SwitchTo(k))
  {
  }

  lemma ReadyOnes(k: Kernel, p: int)
    requires Core(k) && p in ReadyList(k)
    ensures 0 <= p < NPROC && !k.procs[p].state.Free?
  {
    var i :| 0 <= i < |ReadyList(k)| && ReadyList(k)[i] == p;
    StandsAt(k, p, READYLIST);
  }

  lemma ReschedMail(k: Kernel)
    requires Core(k) && !k.procs[k.curr].state.Free?
    ensures SameMail(k, Resched(k))
  {
    hide Base, Sorted, Place, InsertAt;
    CoreFormed(k);
    forall p | p in ReadyList(k)
      ensures 0 <= p < NPROC && !k.procs[p].state.Free?
    {
      ReadyOnes(k, p);
    }
    if k.ndefers == 0 && k.procs[k.curr].state.Curr? {
      PutReadyMail(k, k.curr);
      var k1 := PutReady(k, k.curr);
      PutReadyCore(k, k.curr);
      forall p | p in ReadyList(k1)
        ensures 0 <= p < NPROC && !k1.procs[p].state.Free?
      {
        ReadyOnes(k1, p);
      }
      hide Core, PutReady, SwitchTo;
      SwitchMail(k1);
      MailTrans(k, k1, SwitchTo(k1));
    } else if k.ndefers == 0 {
      SwitchMail(k);
    }
  }

  lemma ReadyFirstMail(k: Kernel, q: nat)
    requires Core(k) && Running(k) && q < NLISTS && q != READYLIST && k.lists[q] != []
    ensures SameMail(k, ReadyFirst(k, q))
  {
    FirstPutReady(k, q);
    StandsAt(k, k.lists[q][0], q);
    hide Core, Resched, Place;
    var k0 := WithList(k, q, k.lists[q][1..]);
    PutReadyMail(k0, k.lists[q][0]);
    hide PutReady;
    ReschedMail(PutReady(k0, k.lists[q][0]));
    MailTrans(k, k0, PutReady(k0, k.lists[q][0]));
    MailTrans(k, PutReady(k0, k.lists[q][0]), ReadyFirst(k, q));
  }

  lemma SignalOnceMail(k: Kernel, s: nat)
    requires Core(k) && Scheduled(k) && s < NSEM
    ensures SameMail(k, SignalOnce(k, s))
  {
    var k1 := WithCount(k, s, ToInt32(k.sems[s].count + 1));
    SemStay(k, k1.sems);
    hide Core, Resched, PutReady, MakeReady, ToInt32;
    if k.sems[s].count < 0 && k.lists[s] != [] {
      ReadyFirstMail(k1, s);
    }
  }

  lemma {:induction false} SignalTimesMail(k: Kernel, s: nat, n: nat)
    requires Core(k) && Scheduled(k) && s < NSEM
    ensures SameMail(k, SignalTimes(k, s, n))
  {
    hide Core, Scheduled, SignalOnce, SameBox;
    CoreFormed(k);
    if n > 0 {
      SignalTimesMail(k, s, n - 1);
      SignalTimesCore(k, s, n - 1);
      SignalOnceMail(SignalTimes(k, s, n - 1), s);
      MailTrans(k, SignalTimes(k, s, n - 1), SignalTimes(k, s, n));
    } else {
      MailRefl(k);
    }
  }

  lemma MailRefl(k: Kernel)
    requires WellFormed(k)
    ensures SameMail(k, k)
  {
  }

  lemma {:induction false} ReadyTimesMail(k: Kernel, q: nat, n: nat)
    requires Core(k) && Scheduled(k) && q < NLISTS && q != READYLIST && n <= |k.lists[q]|
    ensures SameMail(k, ReadyTimes(k, q, n))
  {
    hide Core, Scheduled, ReadyFirst, SameBox;
    CoreFormed(k);
    if n > 0 {
      ReadyTimesMail(k, q, n - 1);
      ReadyTimesInv(k, q, n - 1);
      var k1 := ReadyTimes(k, q, n - 1);
      ScheduledRuns(k1);
      if k1.lists[q] != [] { ReadyFirstMail(k1, q); }
      MailTrans(k, k1, ReadyTimes(k, q, n));
    } else {
      MailRefl(k);
    }
  }

  lemma DeferStopMail(k: Kernel)
    requires Core(k) && Scheduled(k)
    ensures SameMail(k, DeferStop(k).0)
  {
    if k.ndefers > 0 {
      var k1 := k.(ndefers := k.ndefers - 1);
      Stay(k, k1);
      hide Base, Resched;
      if k1.ndefers == 0 && k1.attempt { ReschedMail(k1); }
    }
  }

  lemma SemCallsMail(k: Kernel, s: int, n: int)
    requires Inv(k)
    ensures SameMail(k, SignalCall(k, s).0) && SameMail(k, SignalNCall(k, s, n).0)
    ensures SameMail(k, SemResetCall(k, s, n).0) && SameMail(k, SemDeleteCall(k, s).0)
  {
    hide Core, Scheduled, SignalTimes, SignalOnce, ReadyTimes, DeferStop, SameMail;
    CoreFormed(k);
    MailRefl(k);
    if !BadSem(s) && k.sems[s].used {
      assert Counted(k, s);
      SignalOnceMail(k, s);
      var k1 := DeferStart(k);
      DeferStartInv(k);
      assert SameMail(k, k1) by { StartMail(k); }
      if n >= 0 {
        SignalTimesCore(k1, s, n);
        SignalTimesMail(k1, s, n);
        StopMail(k, k1, SignalTimes(k1, s, n));
        ReadyTimesInv(k1, s, |k1.lists[s]|);
        ReadyTimesMail(k1, s, |k1.lists[s]|);
        CountMail(k, k1, ReadyTimes(k1, s, |k1.lists[s]|), s, n);
      }
      DeleteMail(k, s);
    }
  }

  lemma StartMail(k: Kernel)
    requires WellFormed(k)
    ensures SameMail(k, DeferStart(k))
  {
  }

  lemma StopMail(k: Kernel, k1: Kernel, k2: Kernel)
    requires SameMail(k, k1) && SameMail(k1, k2) && Core(k2) && Scheduled(k2)
    ensures SameMail(k, DeferStop(k2).0)
  {
    hide Core, DeferStop, SameBox;
    DeferStopMail(k2);
    MailTrans(k, k1, k2);
    MailTrans(k, k2, DeferStop(k2).0);
  }

  lemma CountMail(k: Kernel, k1: Kernel, k2: Kernel, s: nat, n: int)
    requires SameMail(k, k1) && SameMail(k1, k2) && Core(k2) && Scheduled(k2) && s < NSEM
    ensures SameMail(k, DeferStop(WithCount(k2, s, n)).0)
  {
    SemStay(k2, k2.sems[s := k2.sems[s].(count := n)]);
    MailTrans(k, k1, k2);
    hide Core, Scheduled, DeferStop;
    StopMail(k, k2, WithCount(k2, s, n));
  }

  lemma DeleteMail(k: Kernel, s: nat)
    requires Inv(k) && s < NSEM && k.sems[s].used
    ensures SameMail(k, SemDeleteCall(k, s).0)
  {
    hide Core, Scheduled, SignalTimes, DeferStop, SameBox;
    CoreFormed(k);
    assert Counted(k, s);
    var k0 := k.(sems := k.sems[s := k.sems[s].(used := false)]);
    SemStay(k, k0.sems);
    DeferStartInv(k0);
    var n := if k.sems[s].count < 0 then -k.sems[s].count else 0;
    var k1 := DeferStart(k0);
    SignalTimesCore(k1, s, n);
    SignalTimesMail(k1, s, n);
    assert SameMail(k, k1) by { MailRefl(k); }
    CountMail(k, k1, SignalTimes(k1, s, n), s, ToInt32(SignalTimes(k1, s, n).sems[s].count + 1));
  }

  /** The running process leaves the processor with its message box as it was. */
  lemma GiveUpMail(k: Kernel, k1: Kernel)
    requires SameMail(k, k1) && Core(k1) && !k1.procs[k1.curr].state.Free?
    ensures SameMail(k, Resched(k1))
  {
    hide Core, Resched, SameBox;
    ReschedMail(k1);
    MailTrans(k, k1, Resched(k1));
  }

  lemma WaitMail(k: Kernel, s: int)
    requires Inv(k) && May(k, WaitOn(s))
    ensures SameMail(k, WaitCall(k, s).0)
  {
    if !BadSem(s) && k.sems[s].used && k.sems[s].count <= 0 {
      var k1 := WithCount(k, s, k.sems[s].count - 1);
      SemStay(k, k1.sems);
      var pr, l := k.procs[k.curr].(sem := s, state := Wait), k1.lists[s];
      assert InsertAt(l, |l|, k.curr) == l + [k.curr];
      LeaveRunning(k1, s, |l|, pr, k1.key);
      var k3 := WithList(k1, s, l + [k.curr]).(procs := k.procs[k.curr := pr], key := k1.key);
      var k4 := k1.(procs := k1.procs[k.curr := k1.procs[k.curr].(sem := s)]);
      assert WithState(WithList(k4, s, l + [k.curr]), k.curr, Wait) == k3;
      hide Core, Resched;
      GiveUpMail(k, k3);
    }
  }

  lemma AsleepMail(k: Kernel, delay: int, st: PState)
    requires Inv(k) && k.procs[k.curr].state.Curr? && k.curr != NULLPROC && (st == Sleep || st == RecTim)
    ensures SameMail(k, Resched(PutAsleep(k, k.curr, delay, st)))
  {
    var p, l := k.curr, k.lists[SLEEPQ];
    var (i, y) := DeltaPlace(l, k.key, delay);
    StandsAt(k, p, READYLIST);
    if i < |l| { SleeperKeys(k, i); }
    LeaveRunning(k, SLEEPQ, i, k.procs[p].(state := st), DeltaKeys(k.key, l, i, p, y));
    hide DeltaKeys, DeltaPlace, InsertAt, Core, Resched;
    GiveUpMail(k, PutAsleep(k, p, delay, st));
  }

  lemma ParkMail(k: Kernel, st: PState)
    requires Inv(k) && k.procs[k.curr].state.Curr? && k.curr != NULLPROC && (st == Recv || st == Susp)
    ensures SameMail(k, Resched(WithState(k, k.curr, st)))
  {
    var k1 := WithState(k, k.curr, st);
    Stay(k, k1);
    StandsAt(k, k.curr, READYLIST);
    hide Base, Resched;
    GiveUpMail(k, k1);
  }

  lemma MakeReadyMail(k: Kernel, p: nat)
    requires Core(k) && Running(k) && p < NPROC && Home(k.procs[p]) == -1 && !k.procs[p].state.Curr?
    requires !k.procs[p].state.Free?
    ensures SameMail(k, MakeReady(k, p))
  {
    PutReadyCore(k, p);
    PutReadyMail(k, p);
    PutReadyRuns(k, p);
    hide Core, PutReady, Resched;
    GiveUpMail(k, PutReady(k, p));
  }

  lemma AwakenMail(k: Kernel, p: nat)
    requires Inv(k) && p < NPROC && k.procs[p].state.RecTim?
    ensures SameMail(k, MakeReady(TakeAwake(k, p), p))
  {
    TakeAwakeCore(k, p);
    var k1 := TakeAwake(k, p);
    var k2 := WithState(k1, p, Susp);
    PutReadyCore(k2, p);
    ReadyFromAny(k1, p, Susp);
    assert k1.procs == k.procs && k1.curr == k.curr;
    hide TakeAwake, Core;
    PutReadyMail(k1, p);
    PutReadyRuns(k1, p);
    MailTrans(k, k1, PutReady(k1, p));
    hide PutReady, Resched;
    GiveUpMail(k, PutReady(k1, p));
  }

  lemma TickMail(k: Kernel)
    requires Inv(k)
    ensures SameMail(k, ClockTick(k))
  {
    hide Inv, TickSleepers, CountDown, SameBox;
    InvFormed(k);
    TickSleepersInv(k);
    TickSleepersMail(k);
    var k1 := TickSleepers(k);
    CountDownMail(k1);
    MailTrans(k, k1, CountDown(k1));
  }

  lemma CountDownMail(k: Kernel)
    requires Inv(k)
    ensures SameMail(k, CountDown(k))
  {
    hide Inv, Resched;
    CountDownIs(k);
    SliceStay(k, QUANTUM, k.owing);
    var k1 := k.(preempt := QUANTUM);
    assert SameMail(k, k1);
    hide SameMail;
    InvRuns(k1);
    GiveUpMail(k, k1);
    SliceMail(k);
  }

  lemma SliceMail(k: Kernel)
    requires WellFormed(k)
    ensures SameMail(k, k.(preempt := k.preempt - 1))
  {
  }

  lemma InvRuns(k: Kernel)
    requires Inv(k)
    ensures Core(k) && !k.procs[k.curr].state.Free?
  {
  }

  lemma TickSleepersMail(k: Kernel)
    requires Inv(k)
    ensures SameMail(k, TickSleepers(k))
  {
    var l := k.lists[SLEEPQ];
    if l != [] {
      RekeyInv(k, 0, ToInt32(k.key[l[0]] - 1));
      var k0 := k.(key := k.key[l[0] := ToInt32(k.key[l[0]] - 1)]);
      hide Inv, Wakeup;
      if k0.key[l[0]] <= 0 {
        WakeupMail(k0);
        MailTrans(k, k0, Wakeup(k0));
      }
    }
  }

  lemma WakeupMail(k: Kernel)
    requires Inv(k)
    ensures SameMail(k, Wakeup(k))
  {
    hide Core, Scheduled, ReadyTimes, DeferStop, Expired, SameBox;
    CoreFormed(k);
    DeferStartInv(k);
    var k1, n := DeferStart(k), Expired(k.lists[SLEEPQ], k.key);
    ReadyTimesInv(k1, SLEEPQ, n);
    ReadyTimesMail(k1, SLEEPQ, n);
    StartMail(k);
    StopMail(k, k1, ReadyTimes(k1, SLEEPQ, n));
  }

  /** Calls that neither deliver nor take a message, nor make a process, leave all mail alone. */
  lemma OtherMail(k: Kernel, c: Call)
    requires Inv(k) && May(k, c) && !c.Send? && !c.Take? && !c.Create?
    ensures SameMail(k, Do(k, c).0)
  {
    hide SameMail, SignalNCall, SemResetCall, SemDeleteCall, SignalCall, WaitCall, Resched, ClockTick, DeferStop,
      MakeReady, PutAsleep, SuspendCall, ResumeCall, SemCreateCall;
    InvRuns(k);
    InvFormed(k);
    MailRefl(k);
    hide Inv;
    match c
    case WaitOn(s) => WaitMail(k, s);
    case SignalTo(s) => SemCallsMail(k, s, 0);
    case SignalN(s, n) => SemCallsMail(k, s, n);
    case SemCreate(n) => CreatedMail(k, n);
    case SemDelete(s) => SemCallsMail(k, s, 0);
    case SemReset(s, n) => SemCallsMail(k, s, n);
    case SleepMs(delay) =>
      if delay == 0 { ReschedMail(k); } else { AsleepMail(k, ToInt32(delay), Sleep); }
    case Receive => if !k.procs[k.curr].hasMsg { ParkMail(k, Recv); }
    case RecvTime(maxwait) => if maxwait >= 0 && !k.procs[k.curr].hasMsg { AsleepMail(k, maxwait, RecTim); }
    case Suspend(p) => SuspendMail(k, p);
    case Resume(p) => ResumeMail(k, p);
    case Tick => TickMail(k);
    case StartDefer => StartMail(k);
    case StopDefer => EndMail(k);
  }

  lemma CreatedMail(k: Kernel, n: int)
    requires WellFormed(k)
    ensures SameMail(k, SemCreateCall(k, n).0)
  {
  }

  lemma EndMail(k: Kernel)
    requires Inv(k)
    ensures SameMail(k, DeferStop(k).0)
  {
    DeferStopMail(k);
  }

  lemma ResumeMail(k: Kernel, p: int)
    requires Inv(k)
    ensures SameMail(k, ResumeCall(k, p).0)
  {
    hide Core, MakeReady;
    CoreFormed(k);
    if !(BadPid(k, p) || !k.procs[p].state.Susp?) { MakeReadyMail(k, p); }
  }

  lemma SuspendMail(k: Kernel, p: int)
    requires Inv(k)
    ensures SameMail(k, SuspendCall(k, p).0)
  {
    if !BadPid(k, p) && p != NULLPROC && k.procs[p].state.Curr? {
      ParkMail(k, Susp);
      hide Core, Resched;
    }
  }

  /** A message that waits is neither lost nor overwritten; only its recipient takes it. */
  lemma MessageKept(k: Kernel, c: Call, p: nat)
    requires Inv(k) && May(k, c) && p < NPROC && !k.procs[p].state.Free? && k.procs[p].hasMsg
    requires !(c.Take? && k.curr == p)
    ensures var k' := Do(k, c).0;
            !k'.procs[p].state.Free? && k'.procs[p].hasMsg && k'.procs[p].msg == k.procs[p].msg
  {
    if c.Send? {
      SendKept(k, c.p, c.msg, p);
      hide SendCall, Inv;
    } else if !c.Take? && !c.Create? {
      OtherMail(k, c);
      hide Do, Inv;
      assert SameBox(k.procs[p], Do(k, c).0.procs[p]);
    }
  }

  /** A send works just when its recipient exists and has no message, and otherwise changes nothing. */
  lemma SendAnswers(k: Kernel, q: int, msg: int)
    requires WellFormed(k)
    ensures SendCall(k, q, msg).1 == if 0 <= q < NPROC && !k.procs[q].state.Free? && !k.procs[q].hasMsg then OK
                                     else SYSERR
    ensures SendCall(k, q, msg).1 == SYSERR ==> SendCall(k, q, msg).0 == k
  {
    hide MakeReady, TakeAwake;
  }

  /** Where it works, the message is left with the recipient, and all other mail stays. */
  lemma SendDelivers(k: Kernel, q: int, msg: int)
    requires Inv(k) && 0 <= q < NPROC && !k.procs[q].state.Free? && !k.procs[q].hasMsg
    ensures var k' := SendCall(k, q, msg).0;
            && k'.procs[q].hasMsg && k'.procs[q].msg == msg && !k'.procs[q].state.Free?
            && forall p :: 0 <= p < NPROC && p != q ==> SameBox(k.procs[p], k'.procs[p])
  {
    InvFormed(k);
    hide Inv, MakeReady, TakeAwake;
    MessageStay(k, q, msg);
    var k1 := k.(procs := k.procs[q := k.procs[q].(msg := msg, hasMsg := true)]);
    SentMail(k1, q);
    var k' := SendCall(k, q, msg).0;
    assert k' == Sent(k1, q);
    hide SendCall, Sent;
    forall p | 0 <= p < NPROC
      ensures SameBox(k1.procs[p], k'.procs[p])
    {
    }
  }

  /** What a send does once the message is in its place. */
  function Sent(k: Kernel, q: nat): (k': Kernel)
    requires WellFormed(k) && q < NPROC
    ensures WellFormed(k')
  {
    match k.procs[q].state
    case Recv => MakeReady(k, q)
    case RecTim => MakeReady(TakeAwake(k, q), q)
    case _ => k
  }

  lemma SentMail(k: Kernel, q: nat)
    requires Inv(k) && q < NPROC && !k.procs[q].state.Free?
    ensures SameMail(k, Sent(k, q))
  {
    if k.procs[q].state.Recv? {
      MakeReadyMail(k, q);
    } else if k.procs[q].state.RecTim? {
      AwakenMail(k, q);
    }
    hide Inv, MakeReady, TakeAwake;
  }

  lemma SendKept(k: Kernel, q: int, msg: int, p: nat)
    requires Inv(k) && p < NPROC && !k.procs[p].state.Free? && k.procs[p].hasMsg
    ensures var k' := SendCall(k, q, msg).0;
            !k'.procs[p].state.Free? && k'.procs[p].hasMsg && k'.procs[p].msg == k.procs[p].msg
  {
    if 0 <= q < NPROC && !k.procs[q].state.Free? && !k.procs[q].hasMsg {
      SendDelivers(k, q, msg);
      hide SendCall, Inv;
      assert p != q && SameBox(k.procs[p], SendCall(k, q, msg).0.procs[p]);
    }
  }

  lemma StepAt(states: seq<Kernel>, calls: seq<Call>, i: nat)
    requires IsRun(states, calls) && i < |calls|
    ensures |states| == |calls| + 1 && Inv(states[i]) && May(states[i], calls[i])
    ensures states[i + 1] == Do(states[i], calls[i]).0
  {
    RunInv(states, calls, i);
  }

  lemma {:induction false} StaysDelivered(states: seq<Kernel>, calls: seq<Call>, i: nat, j: nat, p: nat)
    requires IsRun(states, calls) && i <= j <= |calls| && p < NPROC
    requires WellFormed(states[i]) && !states[i].procs[p].state.Free? && states[i].procs[p].hasMsg
    requires forall n :: i <= n < j ==> !(calls[n].Take? && states[n].curr == p)
    ensures WellFormed(states[j]) && !states[j].procs[p].state.Free?
    ensures states[j].procs[p].hasMsg && states[j].procs[p].msg == states[i].procs[p].msg
    decreases j
  {
    hide Inv, Do, May, IsRun;
    if i < j {
      StepAt(states, calls, j - 1);
      StaysDelivered(states, calls, i, j - 1, p);
      MessageKept(states[j - 1], calls[j - 1], p);
    }
  }

  /** What is sent at step `i` is what the recipient takes next, however late; and until then nobody else can
      send to it. */
  lemma TakesWhatWasSent(states: seq<Kernel>, calls: seq<Call>, i: nat, j: nat, p: nat, msg: int)
    requires IsRun(states, calls) && i < j < |calls| && p < NPROC && WellFormed(states[i]) && WellFormed(states[j])
    requires calls[i] == Send(p, msg) && !states[i].procs[p].state.Free? && !states[i].procs[p].hasMsg
    requires forall n :: i < n < j ==> !(calls[n].Take? && states[n].curr == p)
    ensures Do(states[i], calls[i]).1 == OK
    ensures calls[j].Take? && states[j].curr == p ==> Do(states[j], calls[j]).1 == msg
    ensures forall other :: SendCall(states[j], p, other) == (states[j], SYSERR)
  {
    hide Inv, May, IsRun;
    StepAt(states, calls, i);
    SendAnswers(states[i], p, msg);
    SendDelivers(states[i], p, msg);
    StaysDelivered(states, calls, i + 1, j, p);
  }
}
