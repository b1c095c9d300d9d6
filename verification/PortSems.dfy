/** The semaphores of the ports are the kernel's: what the ports take a semaphore to do, the kernel's calls do. */
module PortSems {
  import opened Codes
  import opened KernelSpec
  import opened KernelInv
  import opened KernelCalls
  import PortSpec
  import QueueSpec

  /** A kernel semaphore as its callers see it. */
  function View(k: Kernel, s: nat): PortSpec.PSem
    requires WellFormed(k) && s < QueueSpec.NSEM
  {
    PortSpec.PSem(k.sems[s].count, k.lists[s])
  }

  ghost predicate OthersSame(k: Kernel, k': Kernel, s: nat)
    requires WellFormed(k) && WellFormed(k')
  {
    forall t :: 0 <= t < QueueSpec.NSEM && t != s ==> View(k', t) == View(k, t) && k'.sems[t].used == k.sems[t].used
  }

  lemma WaitIsDown(k: Kernel, s: nat)
    requires Inv(k) && May(k, WaitOn(s)) && s < QueueSpec.NSEM && k.sems[s].used
    ensures var (k', r) := WaitCall(k, s);
            && r == OK && View(k', s) == PortSpec.Down(View(k, s), k.curr) && OthersSame(k, k', s)
            && k'.sems[s] == Sem(true, k.sems[s].count - 1)
            && k'.lists[s] == if k.sems[s].count <= 0 then k.lists[s] + [k.curr] else k.lists[s]
  {
    hide Core, Scheduled, Resched;
    CoreFormed(k);
    assert Counted(k, s);
  }

  lemma SignalIsUp(k: Kernel, s: nat)
    requires Inv(k) && s < QueueSpec.NSEM && k.sems[s].used && !Overflows(k, SignalTo(s))
    ensures var (k', r) := SignalCall(k, s);
            && r == OK && View(k', s) == PortSpec.Up(View(k, s)) && OthersSame(k, k', s)
            && k'.sems[s] == Sem(true, k.sems[s].count + 1)
            && k'.lists[s] == if k.lists[s] == [] then [] else k.lists[s][1..]
  {
    hide Core, Scheduled, SignalOnce, ToInt32;
    CoreFormed(k);
    assert Counted(k, s);
    SignalOnceInv(k, s);
  }

  /** `n` signals at once release the `n` longest waiters. */
  lemma SignalNReleases(k: Kernel, s: nat, n: int32)
    requires Inv(k) && s < QueueSpec.NSEM && k.sems[s].used && n >= 0 && !Overflows(k, SignalN(s, n))
    ensures var (k', r) := SignalNCall(k, s, n);
            && r == OK && OthersSame(k, k', s) && k'.sems[s].used
            && View(k', s) == PortSpec.PSem(k.sems[s].count + n, if n <= |k.lists[s]| then k.lists[s][n..] else [])
  {
    hide Core, Scheduled, SignalTimes, Resched, DeferStop;
    CoreFormed(k);
    assert Counted(k, s);
    DeferStartInv(k);
    SignalTimesInv(DeferStart(k), s, n);
    DeferStopInv(SignalTimes(DeferStart(k), s, n));
  }

  lemma ResetReleasesAll(k: Kernel, s: nat, n: nat)
    requires Inv(k) && s < QueueSpec.NSEM && k.sems[s].used
    ensures var (k', r) := SemResetCall(k, s, n);
            r == OK && View(k', s) == PortSpec.PSem(n, []) && OthersSame(k, k', s) && k'.sems[s].used
  {
    hide Core, Scheduled, ReadyTimes, Resched, DeferStop;
    CoreFormed(k);
    DeferStartInv(k);
    ReadyTimesInv(DeferStart(k), s, |k.lists[s]|);
    var k1 := ReadyTimes(DeferStart(k), s, |k.lists[s]|);
    SemStay(k1, k1.sems[s := k1.sems[s].(count := n)]);
    DeferStopInv(WithCount(k1, s, n));
  }

  lemma DeleteReleasesAll(k: Kernel, s: nat)
    requires Inv(k) && s < QueueSpec.NSEM && k.sems[s].used
    ensures var (k', r) := SemDeleteCall(k, s);
            && r == OK && !k'.sems[s].used && k'.lists[s] == [] && OthersSame(k, k', s)
            && k'.sems[s].count == ToInt32((if k.sems[s].count < 0 then 0 else k.sems[s].count) + 1)
  {
    hide Core, Scheduled, SignalTimes, Resched, DeferStop, ToInt32;
    CoreFormed(k);
    assert Counted(k, s);
    var k0 := k.(sems := k.sems[s := k.sems[s].(used := false)]);
    SemStay(k, k0.sems);
    DeferStartInv(k0);
    var n := if k.sems[s].count < 0 then -k.sems[s].count else 0;
    SignalTimesInv(DeferStart(k0), s, n);
    var k2 := SignalTimes(DeferStart(k0), s, n);
    var c := ToInt32(k2.sems[s].count + 1);
    SemStay(k2, k2.sems[s := k2.sems[s].(count := c)]);
    DeferStopInv(WithCount(k2, s, c));
  }

  /** A created semaphore has its count and nobody waiting. */
  lemma CreateIsNew(k: Kernel, n: nat)
    requires Inv(k)
    ensures var (k', s) := SemCreateCall(k, n);
            s != SYSERR ==> 0 <= s < QueueSpec.NSEM && !k.sems[s].used && k'.sems[s].used
                            && View(k', s) == PortSpec.PSem(n, []) && OthersSame(k, k', s)
  {
    hide Core, Scheduled, FreeSem;
    CoreFormed(k);
    var s := FreeSem(k.sems, k.nextsem, QueueSpec.NSEM);
    if s != SYSERR { assert Counted(k, s); }
  }

  /** Where the search for a free semaphore fails, all it went by are in use. */
  lemma {:induction false} SearchedSems(sems: seq<Sem>, at: nat, n: nat)
    requires |sems| == QueueSpec.NSEM && at < QueueSpec.NSEM && n <= QueueSpec.NSEM && FreeSem(sems, at, n) == SYSERR
    ensures forall s :: 0 <= s < QueueSpec.NSEM && (at <= s < at + n || s + QueueSpec.NSEM < at + n) ==> sems[s].used
    decreases n
  {
    if n > 0 {
      SearchedSems(sems, if at + 1 >= QueueSpec.NSEM then 0 else at + 1, n - 1);
    }
  }

  /** A semaphore can be created as long as one is free. */
  lemma CreateFails(k: Kernel, n: int)
    requires WellFormed(k)
    ensures SemCreateCall(k, n).1 == SYSERR <==> n < 0 || forall s :: 0 <= s < QueueSpec.NSEM ==> k.sems[s].used
  {
    if n >= 0 && FreeSem(k.sems, k.nextsem, QueueSpec.NSEM) == SYSERR {
      SearchedSems(k.sems, k.nextsem, QueueSpec.NSEM);
    }
    hide FreeSem;
  }
}
