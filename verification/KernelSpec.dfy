/** Processes, semaphores and the scheduler as a value, and every kernel call as a function on it. A call is
    one step up to where the processor changes hands; `owing` tells who has more to do behind that in a clock
    interrupt. */
module KernelSpec {
  import opened Codes
  import opened QueueSpec

  const NULLPROC := 0
  const QUANTUM := 2
  const TIMEOUT := -3
  const READYLIST := NSEM                 // place of the ready list among the queues
  const SLEEPQ := NSEM + 1 + NLOCKS       // place of the list of sleepers
  const NLISTS := NSEM + 2 + NLOCKS

  datatype PState = Free | Curr | Ready | Recv | Sleep | Susp | Wait | RecTim

  datatype Proc = Proc(state: PState, prio: int, sem: int, msg: int, hasMsg: bool)

  datatype Sem = Sem(used: bool, count: int)

  /** `owing` are the processes that lost the processor in the middle of a clock interrupt, to those it woke: when they
      run again they count down their slice for it first. */
  datatype Kernel = Kernel(procs: seq<Proc>, sems: seq<Sem>, lists: seq<seq<int>>, key: seq<int>,
                           curr: nat, ndefers: nat, attempt: bool, preempt: int, owing: set<int>, nextsem: nat)

  predicate WellFormed(k: Kernel)
  {
    && |k.procs| == NPROC && |k.sems| == NSEM && |k.lists| == NLISTS && |k.key| == NPROC
    && k.curr < NPROC && k.nextsem < NSEM
    && (forall p :: 0 <= p < NPROC ==> -0x8000 <= k.procs[p].prio < 0x8000)
    && forall q :: 0 <= q < NLISTS ==> Pids(k.lists[q])
  }

  predicate BadPid(k: Kernel, p: int)
    requires WellFormed(k)
  {
    p < 0 || p >= NPROC || k.procs[p].state.Free?
  }

  predicate BadSem(s: int) { s < 0 || s >= NSEM }

  function WithState(k: Kernel, p: nat, st: PState): Kernel
    requires p < |k.procs|
  {
    k.(procs := k.procs[p := k.procs[p].(state := st)])
  }

  function WithList(k: Kernel, q: nat, l: seq<int>): Kernel
    requires q < |k.lists|
  {
    k.(lists := k.lists[q := l])
  }

  function ReadyList(k: Kernel): seq<int>
    requires |k.lists| == NLISTS
  {
    k.lists[READYLIST]
  }

  /** Semaphores, the deferral count and every queue but the ready list are the same. */
  ghost predicate OnlyReady(k: Kernel, k': Kernel)
  {
    && |k.lists| == |k'.lists| && k'.sems == k.sems && k'.ndefers == k.ndefers && k'.nextsem == k.nextsem
    && forall q :: 0 <= q < |k.lists| && q != READYLIST ==> k'.lists[q] == k.lists[q]
  }

  /** A process enters the ready list behind all of its priority or higher. */
  function PutReady(k: Kernel, p: nat): (k': Kernel)
    requires WellFormed(k) && p < NPROC
    ensures WellFormed(k') && OnlyReady(k, k')
  {
    var l := ReadyList(k);
    var prio := k.procs[p].prio;
    WithState(WithList(k, READYLIST, InsertAt(l, Place(l, k.key, prio), p)), p, Ready).(key := k.key[p := prio])
  }

  /** The slice with which a process gets the processor, the countdown it owes taken off. */
  function SliceOf(k: Kernel, p: int): int
  {
    if p in k.owing then QUANTUM - 1 else QUANTUM
  }

  /** The first ready process gets the processor, if there is one. */
  function SwitchTo(k: Kernel): (k': Kernel)
    requires WellFormed(k)
    ensures WellFormed(k') && OnlyReady(k, k')
  {
    var l := ReadyList(k);
    if l == [] then k
    else WithState(WithList(k, READYLIST, l[1..]), l[0], Curr).(
           curr := l[0], preempt := SliceOf(k, l[0]), owing := k.owing - {l[0]})
  }

  function Resched(k: Kernel): (k': Kernel)
    requires WellFormed(k)
    ensures WellFormed(k') && OnlyReady(k, k')
  {
    if k.ndefers > 0 then k.(attempt := true)
    else if k.procs[k.curr].state.Curr? then
      if ReadyList(k) == [] || k.procs[k.curr].prio > k.key[ReadyList(k)[0]] then k else SwitchTo(PutReady(k, k.curr))
    else SwitchTo(k)
  }

  function DeferStart(k: Kernel): Kernel
  {
    k.(ndefers := k.ndefers + 1, attempt := if k.ndefers == 0 then false else k.attempt)
  }

  function DeferStop(k: Kernel): (r: (Kernel, int))
    requires WellFormed(k)
    ensures WellFormed(r.0)
  {
    if k.ndefers == 0 then (k, SYSERR)
    else
      var k1 := k.(ndefers := k.ndefers - 1);
      (if k1.ndefers == 0 && k1.attempt then Resched(k1) else k1, OK)
  }

  function MakeReady(k: Kernel, p: nat): (k': Kernel)
    requires WellFormed(k) && p < NPROC
    ensures WellFormed(k') && OnlyReady(k, k')
  {
    Resched(PutReady(k, p))
  }

  /** The first process of queue `q` becomes ready. */
  function ReadyFirst(k: Kernel, q: nat): (k': Kernel)
    requires WellFormed(k) && q < NLISTS && k.lists[q] != []
    ensures WellFormed(k')
  {
    MakeReady(WithList(k, q, k.lists[q][1..]), k.lists[q][0])
  }

  /** The current process stops running in state `st`, at the end of queue `q`. */
  function Block(k: Kernel, st: PState, q: nat): (k': Kernel)
    requires WellFormed(k) && q < NLISTS
    ensures WellFormed(k')
  {
    Resched(WithState(WithList(k, q, k.lists[q] + [k.curr]), k.curr, st))
  }

  function WithCount(k: Kernel, s: nat, n: int): (k': Kernel)
    requires WellFormed(k) && s < NSEM
    ensures WellFormed(k')
  {
    k.(sems := k.sems[s := k.sems[s].(count := n)])
  }

  function WaitCall(k: Kernel, s: int): (r: (Kernel, int))
    requires WellFormed(k)
    ensures WellFormed(r.0)
  {
    if BadSem(s) || !k.sems[s].used then (k, SYSERR)
    else
      var k1 := WithCount(k, s, k.sems[s].count - 1);
      if k1.sems[s].count < 0 then
        (Block(k1.(procs := k1.procs[k.curr := k1.procs[k.curr].(sem := s)]), Wait, s), OK)
      else (k1, OK)
  }

  /** The count goes up by one; the longest waiter, if any, becomes ready. */
  function SignalOnce(k: Kernel, s: nat): (k': Kernel)
    requires WellFormed(k) && s < NSEM
    ensures WellFormed(k')
  {
    var k1 := WithCount(k, s, ToInt32(k.sems[s].count + 1));
    if k.sems[s].count < 0 && k.lists[s] != [] then ReadyFirst(k1, s) else k1
  }

  function SignalCall(k: Kernel, s: int): (r: (Kernel, int))
    requires WellFormed(k)
    ensures WellFormed(r.0)
  {
    if BadSem(s) || !k.sems[s].used then (k, SYSERR) else (SignalOnce(k, s), OK)
  }

  function SignalTimes(k: Kernel, s: nat, n: nat): (k': Kernel)
    requires WellFormed(k) && s < NSEM
    ensures WellFormed(k')
  {
    if n == 0 then k else SignalOnce(SignalTimes(k, s, n - 1), s)
  }

  function SignalNCall(k: Kernel, s: int, n: int): (r: (Kernel, int))
    requires WellFormed(k)
    ensures WellFormed(r.0)
  {
    if BadSem(s) || n < 0 || !k.sems[s].used then (k, SYSERR)
    else (DeferStop(SignalTimes(DeferStart(k), s, n)).0, OK)
  }

  /** The first `n` processes of queue `q` become ready, in order. */
  function ReadyTimes(k: Kernel, q: nat, n: nat): (k': Kernel)
    requires WellFormed(k) && q < NLISTS
    ensures WellFormed(k')
  {
    if n == 0 then k
    else
      var k1 := ReadyTimes(k, q, n - 1);
      if k1.lists[q] == [] then k1 else ReadyFirst(k1, q)
  }

  function SemResetCall(k: Kernel, s: int, n: int): (r: (Kernel, int))
    requires WellFormed(k)
    ensures WellFormed(r.0)
  {
    if n < 0 || BadSem(s) || !k.sems[s].used then (k, SYSERR)
    else
      var k1 := ReadyTimes(DeferStart(k), s, |k.lists[s]|);
      (DeferStop(WithCount(k1, s, n)).0, OK)
  }

  /** Waiters are released by counting up; the test that ends the loop counts once more. */
  function SemDeleteCall(k: Kernel, s: int): (r: (Kernel, int))
    requires WellFormed(k)
    ensures WellFormed(r.0)
  {
    if BadSem(s) || !k.sems[s].used then (k, SYSERR)
    else
      var k1 := DeferStart(k.(sems := k.sems[s := k.sems[s].(used := false)]));
      var k2 := SignalTimes(k1, s, if k.sems[s].count < 0 then -k.sems[s].count else 0);
      (DeferStop(WithCount(k2, s, ToInt32(k2.sems[s].count + 1))).0, OK)
  }

  /** The first free semaphore from `at` on, going round at most `n` places. */
  function FreeSem(sems: seq<Sem>, at: nat, n: nat): (s: int)
    requires |sems| == NSEM && at < NSEM
    ensures s == SYSERR || (0 <= s < NSEM && !sems[s].used)
    decreases n
  {
    if n == 0 then SYSERR
    else if !sems[at].used then at
    else FreeSem(sems, if at + 1 >= NSEM then 0 else at + 1, n - 1)
  }

  function SemCreateCall(k: Kernel, n: int): (r: (Kernel, int))
    requires WellFormed(k)
    ensures WellFormed(r.0)
  {
    if n < 0 then (k, SYSERR)
    else
      var s := FreeSem(k.sems, k.nextsem, NSEM);
      if s == SYSERR then (k, SYSERR)
      else (k.(sems := k.sems[s := Sem(true, n)], nextsem := if s + 1 >= NSEM then 0 else s + 1), s)
  }

  /** A sleeper joins the list of relative delays. */
  function PutAsleep(k: Kernel, p: nat, delay: int, st: PState): (k': Kernel)
    requires WellFormed(k) && p < NPROC
    ensures WellFormed(k')
  {
    var l := k.lists[SLEEPQ];
    var (i, y) := DeltaPlace(l, k.key, delay);
    WithState(WithList(k, SLEEPQ, InsertAt(l, i, p)), p, st).(key := DeltaKeys(k.key, l, i, p, y))
  }

  function SleepMsCall(k: Kernel, delay: nat): (r: (Kernel, int))
    requires WellFormed(k)
    ensures WellFormed(r.0)
  {
    if delay == 0 then (Resched(k), OK)
    else (Resched(PutAsleep(k, k.curr, ToInt32(delay), Sleep)), OK)
  }

  /** First half of a receive: the process blocks unless a message waits. */
  function ReceiveCall(k: Kernel): (k': Kernel)
    requires WellFormed(k)
    ensures WellFormed(k')
  {
    if k.procs[k.curr].hasMsg then k else Resched(WithState(k, k.curr, Recv))
  }

  function RecvTimeCall(k: Kernel, maxwait: int): (r: (Kernel, int))
    requires WellFormed(k)
    ensures WellFormed(r.0)
  {
    if maxwait < 0 then (k, SYSERR)
    else if k.procs[k.curr].hasMsg then (k, OK)
    else (Resched(PutAsleep(k, k.curr, maxwait, RecTim)), OK)
  }

  /** Second half of both receives, when the process runs again. */
  function TakeMessage(k: Kernel): (r: (Kernel, int))
    requires WellFormed(k)
    ensures WellFormed(r.0)
  {
    var p := k.procs[k.curr];
    if p.hasMsg then (k.(procs := k.procs[k.curr := p.(hasMsg := false)]), p.msg) else (k, TIMEOUT)
  }

  /** The place of `p` on a list that has it. */
  function IndexOf(l: seq<int>, p: int): (i: nat)
    ensures i <= |l|
    ensures i < |l| ==> l[i] == p
    ensures forall j :: 0 <= j < i ==> l[j] != p
    ensures p in l <==> i < |l|
  {
    if l == [] || l[0] == p then 0 else 1 + IndexOf(l[1..], p)
  }

  /** A sleeper leaves its list; the one behind it takes over its delay. */
  function TakeAwake(k: Kernel, p: nat): (k': Kernel)
    requires WellFormed(k) && p < NPROC
    ensures WellFormed(k')
  {
    var l := k.lists[SLEEPQ];
    var i := IndexOf(l, p);
    if i == |l| then k
    else WithList(k, SLEEPQ, RemoveAt(l, i)).(
           key := if i + 1 < |l| then k.key[l[i + 1] := ToInt32(k.key[l[i + 1]] + k.key[p])] else k.key)
  }

  function SendCall(k: Kernel, p: int, msg: int): (r: (Kernel, int))
    requires WellFormed(k)
    ensures WellFormed(r.0)
  {
    if BadPid(k, p) || k.procs[p].hasMsg then (k, SYSERR)
    else
      var k1 := k.(procs := k.procs[p := k.procs[p].(msg := msg, hasMsg := true)]);
      match k.procs[p].state
      case Recv => (MakeReady(k1, p), OK)
      case RecTim => (MakeReady(TakeAwake(k1, p), p), OK)
      case _ => (k1, OK)
  }

  function SuspendCall(k: Kernel, p: int): (r: (Kernel, int))
    requires WellFormed(k)
    ensures WellFormed(r.0)
  {
    if BadPid(k, p) || p == NULLPROC then (k, SYSERR)
    else match k.procs[p].state
      case Ready =>
        var i := IndexOf(ReadyList(k), p);
        if i == |ReadyList(k)| then (k, SYSERR)
        else (WithState(WithList(k, READYLIST, RemoveAt(ReadyList(k), i)), p, Susp), k.procs[p].prio)
      case Curr => (Resched(WithState(k, p, Susp)), k.procs[p].prio)
      case _ => (k, SYSERR)
  }

  function ResumeCall(k: Kernel, p: int): (r: (Kernel, int))
    requires WellFormed(k)
    ensures WellFormed(r.0)
  {
    if BadPid(k, p) || !k.procs[p].state.Susp? then (k, SYSERR)
    else (MakeReady(k, p), k.procs[p].prio)
  }

  /** How many sleepers at the front of the list have no time left. */
  function Expired(l: seq<int>, key: seq<int>): (n: nat)
    requires |key| == NPROC && Pids(l)
    ensures n <= |l|
    ensures n < |l| ==> key[l[n]] > 0
    ensures forall i :: 0 <= i < n ==> key[l[i]] <= 0
  {
    if l == [] || key[l[0]] > 0 then 0 else 1 + Expired(l[1..], key)
  }

  function Wakeup(k: Kernel): (k': Kernel)
    requires WellFormed(k)
    ensures WellFormed(k')
  {
    DeferStop(ReadyTimes(DeferStart(k), SLEEPQ, Expired(k.lists[SLEEPQ], k.key))).0
  }

  /** The clock's part in the list of sleepers. */
  function TickSleepers(k: Kernel): (k': Kernel)
    requires WellFormed(k)
    ensures WellFormed(k')
  {
    var l := k.lists[SLEEPQ];
    if l == [] then k
    else
      var k1 := k.(key := k.key[l[0] := ToInt32(k.key[l[0]] - 1)]);
      if k1.key[l[0]] <= 0 then Wakeup(k1) else k1
  }

  /** The clock's part in the slice of the current process. */
  function CountDown(k: Kernel): (k': Kernel)
    requires WellFormed(k)
    ensures WellFormed(k')
  {
    var k1 := k.(preempt := k.preempt - 1);
    if k1.preempt <= 0 then Resched(k1.(preempt := QUANTUM)) else k1
  }

  /** A clock interrupt, up to where the interrupted process is done with it or loses the processor. */
  function ClockTick(k: Kernel): (k': Kernel)
    requires WellFormed(k)
    ensures WellFormed(k')
  {
    var k1 := TickSleepers(k);
    if k1.curr != k.curr then k1.(owing := k1.owing + {k.curr}) else CountDown(k1)
  }

  datatype Call =
    | WaitOn(s: int) | SignalTo(s: int) | SignalN(s: int, n: int32)
    | SemCreate(n: int32) | SemDelete(s: int) | SemReset(s: int, n: int32)
    | SleepMs(delay: uint32) | Receive | RecvTime(maxwait: int32) | Take
    | Send(p: int, msg: int) | Suspend(p: int) | Resume(p: int)
    | Tick | StartDefer | StopDefer
    | Create(p: int, prio: int)

  /** One call by the current process, or one clock interrupt. */
  function Do(k: Kernel, c: Call): (r: (Kernel, int))
    requires WellFormed(k)
    ensures WellFormed(r.0)
  {
    match c
    case WaitOn(s) => WaitCall(k, s)
    case SignalTo(s) => SignalCall(k, s)
    case SignalN(s, n) => SignalNCall(k, s, n)
    case SemCreate(n) => SemCreateCall(k, n)
    case SemDelete(s) => SemDeleteCall(k, s)
    case SemReset(s, n) => SemResetCall(k, s, n)
    case SleepMs(delay) => SleepMsCall(k, delay)
    case Receive => (ReceiveCall(k), OK)
    case RecvTime(maxwait) => RecvTimeCall(k, maxwait)
    case Take => TakeMessage(k)
    case Send(p, msg) => SendCall(k, p, msg)
    case Suspend(p) => SuspendCall(k, p)
    case Resume(p) => ResumeCall(k, p)
    case Tick => (ClockTick(k), OK)
    case StartDefer => (DeferStart(k), OK)
    case StopDefer => DeferStop(k)
    case Create(p, prio) =>
      if 0 <= p < NPROC && k.procs[p].state.Free? && 1 <= prio < 0x8000
      then (k.(procs := k.procs[p := Proc(Susp, prio, -1, 0, false)]), p) else (k, SYSERR)
  }

  /** Calls that may give up the processor are made by a running process other than the null process. */
  predicate Calling(k: Kernel, c: Call)
    requires WellFormed(k)
  {
    c.WaitOn? || c.SleepMs? || c.Receive? || c.RecvTime? ==> k.procs[k.curr].state.Curr? && k.curr != NULLPROC
  }

  /** A call that signals a semaphore more often than its count of 32 bits can go up. */
  predicate Overflows(k: Kernel, c: Call)
    requires WellFormed(k)
  {
    match c
    case SignalTo(s) => !BadSem(s) && k.sems[s].used && k.sems[s].count + 1 > MAXINT
    case SignalN(s, n) => !BadSem(s) && k.sems[s].used && k.sems[s].count + n > MAXINT && n > 0
    case _ => false
  }

  predicate May(k: Kernel, c: Call)
    requires WellFormed(k)
  {
    Calling(k, c) && !Overflows(k, c)
  }
}
