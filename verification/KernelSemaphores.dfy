/** The semaphores: what each call does to their counts and to those who wait on them, and what that means over runs. */
module KernelSemaphores {
  import opened Codes
  import opened QueueSpec
  import opened KernelSpec
  import opened KernelInv
  import opened KernelCalls
  import opened PortSems
  import PortSpec

  predicate OnSem(c: Call) { c.WaitOn? || c.SignalTo? || c.SignalN? || c.SemDelete? || c.SemReset? }

  lemma {:induction false} QueueTimesSems(k: Kernel, n: nat)
    requires Core(k) && Scheduled(k) && n <= |k.lists[SLEEPQ]|
    ensures var k' := ReadyTimes(k, SLEEPQ, n); WellFormed(k) && SemsSame(k, k')
  {
    ReadyTimesInv(k, SLEEPQ, n);
    CoreFormed(k);
    hide Core, Scheduled, ReadyTimes;
  }

  ghost predicate SemsSame(k: Kernel, k': Kernel)
  {
    WellFormed(k) && WellFormed(k') && k'.sems == k.sems && forall t :: 0 <= t < NSEM ==> k'.lists[t] == k.lists[t]
  }

  lemma TickSems(k: Kernel)
    requires Inv(k)
    ensures SemsSame(k, ClockTick(k))
  {
    hide Core, Scheduled, ReadyTimes, Expired, Resched;
    CoreFormed(k);
    var l := k.lists[SLEEPQ];
    var k1 := TickSleepers(k);
    assert SemsSame(k, k1) by {
      if l != [] {
        var k0 := k.(key := k.key[l[0] := ToInt32(k.key[l[0]] - 1)]);
        RekeyInv(k, 0, k0.key[l[0]]);
        var n := Expired(k0.lists[SLEEPQ], k0.key);
        DeferStartInv(k0);
        QueueTimesSems(DeferStart(k0), n);
        ReadyTimesInv(DeferStart(k0), SLEEPQ, n);
        DeferStopInv(ReadyTimes(DeferStart(k0), SLEEPQ, n));
      }
    }
    hide TickSleepers;
  }

  /** Calls that do not name a semaphore, or create one, leave all semaphores alone. */
  lemma PlainSems(k: Kernel, c: Call)
    requires Inv(k) && May(k, c) && !OnSem(c) && !c.SemCreate?
    ensures SemsSame(k, Do(k, c).0)
  {
    match c
    case Tick => TickSems(k); hide ClockTick;
    case StopDefer => EndSems(k); hide DeferStop;
    case _ => OtherSems(k, c);
  }

  lemma EndSems(k: Kernel)
    requires Inv(k)
    ensures SemsSame(k, DeferStop(k).0)
  {
    DeferStopInv(k);
    CoreFormed(k);
    hide Core, Scheduled, DeferStop;
  }

  lemma OtherSems(k: Kernel, c: Call)
    requires Inv(k) && May(k, c) && !OnSem(c) && !c.SemCreate? && !c.Tick? && !c.StopDefer?
    ensures SemsSame(k, Do(k, c).0)
  {
    hide Core, Scheduled, Place, InsertAt, DeltaPlace, DeltaKeys, RemoveAt, IndexOf, PutReady, Resched;
    CoreFormed(k);
    match c
    case SleepMs(delay) =>
    case RecvTime(maxwait) =>
    case Receive =>
    case Take =>
    case Send(p, msg) =>
    case Suspend(p) =>
    case Resume(p) =>
    case StartDefer =>
    case Create(p, prio) =>
  }

  /** A call on a semaphore leaves all others alone. */
  lemma OneSem(k: Kernel, c: Call)
    requires Inv(k) && May(k, c) && OnSem(c)
    ensures var k' := Do(k, c).0;
            && WellFormed(k) && WellFormed(k')
            && forall t :: 0 <= t < NSEM && t != c.s ==>
                 View(k', t) == View(k, t) && k'.sems[t].used == k.sems[t].used
  {
    CoreFormed(k);
    hide Core, Scheduled, WaitCall, SignalCall, SignalNCall, SemDeleteCall, SemResetCall, View;
    if !BadSem(c.s) && k.sems[c.s].used {
      match c
      case WaitOn(t) => WaitIsDown(k, t);
      case SignalTo(t) => SignalIsUp(k, t);
      case SignalN(t, n) => if n >= 0 { SignalNReleases(k, t, n); }
      case SemDelete(t) => DeleteReleasesAll(k, t);
      case SemReset(t, n) => if n >= 0 { ResetReleasesAll(k, t, n); }
    }
    BadSemCalls(k, c);
  }

  lemma BadSemCalls(k: Kernel, c: Call)
    requires WellFormed(k) && OnSem(c)
    ensures BadSem(c.s) || !k.sems[c.s].used ==> Do(k, c).0 == k
    ensures (c.SignalN? || c.SemReset?) && c.n < 0 ==> Do(k, c).0 == k
  {
  }

  /** Those who wait on semaphore `t` after a call: whoever blocks joins at the end, signals let the longest waiters
      go, and a reset or a deletion lets all go. */
  ghost predicate WaitersAfter(k: Kernel, c: Call, t: nat, l: seq<int>)
    requires WellFormed(k) && t < NSEM
  {
    var was := k.lists[t];
    l == if !OnSem(c) || c.s != t || !k.sems[t].used then was
         else match c
           case WaitOn(_) => if k.sems[t].count <= 0 then was + [k.curr] else was
           case SignalTo(_) => if was == [] then [] else was[1..]
           case SignalN(_, n) => if n < 0 then was else if n <= |was| then was[n..] else []
           case SemReset(_, n) => if n < 0 then was else []
           case _ => []
  }

  /** The semaphore after a call: a wait takes one off its count and signals add to it, whoever waits. A deletion
      counts its waiters off and then once more. */
  ghost predicate CountAfter(k: Kernel, c: Call, t: nat, sem: Sem)
    requires WellFormed(k) && t < NSEM
  {
    if !OnSem(c) || c.s != t || !k.sems[t].used then c.SemCreate? || sem == k.sems[t]
    else match c
      case WaitOn(_) => sem == Sem(true, k.sems[t].count - 1)
      case SignalTo(_) => sem == Sem(true, k.sems[t].count + 1)
      case SignalN(_, n) => sem == Sem(true, if n < 0 then k.sems[t].count else k.sems[t].count + n)
      case SemReset(_, n) => sem == Sem(true, if n < 0 then k.sems[t].count else n)
      case _ => sem == Sem(false, ToInt32((if k.sems[t].count < 0 then 0 else k.sems[t].count) + 1))
  }

  /** A call on a semaphore that is in use. */
  lemma OneQueue(k: Kernel, c: Call)
    requires Inv(k) && May(k, c) && OnSem(c) && WellFormed(k) && 0 <= c.s < NSEM && k.sems[c.s].used
    ensures var k' := Do(k, c).0; WaitersAfter(k, c, c.s, k'.lists[c.s]) && CountAfter(k, c, c.s, k'.sems[c.s])
  {
    hide Inv, WaitCall, SignalCall, SignalNCall, SemDeleteCall, SemResetCall, PortSpec.Down, PortSpec.Up;
    BadSemCalls(k, c);
    match c
    case WaitOn(t) => WaitIsDown(k, t);
    case SignalTo(t) => SignalIsUp(k, t);
    case SignalN(t, n) => if n >= 0 { SignalNReleases(k, t, n); }
    case SemDelete(t) => DeleteReleasesAll(k, t);
    case SemReset(t, n) => if n >= 0 { ResetReleasesAll(k, t, n); }
  }

  lemma PlainQueue(k: Kernel, c: Call, t: nat)
    requires Inv(k) && May(k, c) && WellFormed(k) && t < NSEM && !OnSem(c) && !c.SemCreate?
    ensures var k' := Do(k, c).0; WaitersAfter(k, c, t, k'.lists[t]) && CountAfter(k, c, t, k'.sems[t])
  {
    PlainSems(k, c);
    hide Inv, Do;
  }

  lemma OtherQueue(k: Kernel, c: Call, t: nat)
    requires Inv(k) && May(k, c) && WellFormed(k) && t < NSEM && OnSem(c) && (c.s != t || !k.sems[t].used)
    ensures var k' := Do(k, c).0; WaitersAfter(k, c, t, k'.lists[t]) && CountAfter(k, c, t, k'.sems[t])
  {
    hide Inv, Do, May;
    if c.s == t {
      BadSemCalls(k, c);
    } else {
      OneSem(k, c);
      SameView(k, Do(k, c).0, t);
    }
  }

  lemma SameView(k: Kernel, k': Kernel, t: nat)
    requires WellFormed(k) && WellFormed(k') && t < NSEM && View(k', t) == View(k, t)
    ensures k'.lists[t] == k.lists[t] && k'.sems[t].count == k.sems[t].count
  {
  }

  lemma CreateQueue(k: Kernel, c: Call, t: nat)
    requires WellFormed(k) && c.SemCreate? && t < NSEM
    ensures var k' := Do(k, c).0; WaitersAfter(k, c, t, k'.lists[t]) && CountAfter(k, c, t, k'.sems[t])
  {
    hide FreeSem;
  }

  /** What every call does to every semaphore. */
  lemma CallQueues(k: Kernel, c: Call, t: nat)
    requires Inv(k) && May(k, c) && t < NSEM
    ensures var k' := Do(k, c).0;
            WellFormed(k) && WaitersAfter(k, c, t, k'.lists[t]) && CountAfter(k, c, t, k'.sems[t])
  {
    hide Inv, Do, May, WaitersAfter, CountAfter;
    InvFormed(k);
    if c.SemCreate? {
      CreateQueue(k, c, t);
    } else if !OnSem(c) {
      PlainQueue(k, c, t);
    } else if c.s == t && k.sems[t].used {
      OneQueue(k, c);
    } else {
      OtherQueue(k, c, t);
    }
  }

  /** Process `p` is before process `q` on a list. */
  ghost predicate Ahead(l: seq<int>, p: int, q: int)
  {
    exists a, b :: 0 <= a < b < |l| && l[a] == p && l[b] == q
  }

  lemma AheadDropped(l: seq<int>, d: nat, p: int, q: int)
    requires NoDup(l) && Ahead(l, p, q) && d <= |l| && p in l[d..]
    ensures Ahead(l[d..], p, q)
  {
    var a, b :| 0 <= a < b < |l| && l[a] == p && l[b] == q;
    var i :| 0 <= i < |l[d..]| && l[d..][i] == p;
    assert l[d + i] == l[a];
    assert l[d..][a - d] == p && l[d..][b - d] == q;
  }

  lemma AheadAppended(l: seq<int>, x: int, p: int, q: int)
    requires Ahead(l, p, q)
    ensures Ahead(l + [x], p, q)
  {
    var a, b :| 0 <= a < b < |l| && l[a] == p && l[b] == q;
    assert (l + [x])[a] == p && (l + [x])[b] == q;
  }

  lemma StaysAhead(k: Kernel, c: Call, t: nat, p: int, q: int)
    requires Inv(k) && May(k, c) && t < NSEM && Ahead(k.lists[t], p, q) && p in Do(k, c).0.lists[t]
    ensures WellFormed(k) && Ahead(Do(k, c).0.lists[t], p, q)
  {
    InvFormed(k);
    CallQueues(k, c, t);
    StandsAt(k, 0, t);
    hide Inv, Do, Ahead;
    var l := k.lists[t];
    if OnSem(c) && c.s == t && k.sems[t].used {
      match c
      case WaitOn(_) => AheadAppended(l, k.curr, p, q);
      case SignalTo(_) => if l != [] { AheadDropped(l, 1, p, q); }
      case SignalN(_, n) => if 0 <= n <= |l| { AheadDropped(l, n, p, q); }
      case _ =>
    }
  }

  /** Nobody overtakes on a semaphore: for as long as a process waits, all that came to wait after it do. */
  lemma {:induction false} NobodyOvertakes(states: seq<Kernel>, calls: seq<Call>, i: nat, j: nat,
                                           t: nat, p: int, q: int)
    requires IsRun(states, calls) && |states| == |calls| + 1 && i <= j <= |calls| && t < NSEM
    requires WellFormed(states[i]) && Ahead(states[i].lists[t], p, q)
    requires forall n :: i <= n <= j ==> WellFormed(states[n]) && p in states[n].lists[t]
    ensures WellFormed(states[j]) && Ahead(states[j].lists[t], p, q)
    decreases j
  {
    hide Inv, Do, May, Ahead;
    if i < j {
      NobodyOvertakes(states, calls, i, j - 1, t, p, q);
      RunInv(states, calls, j - 1);
      assert WellFormed(states[j]) && p in states[j].lists[t];
      StaysAhead(states[j - 1], calls[j - 1], t, p, q);
    }
  }
}
