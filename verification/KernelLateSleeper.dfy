/** A run in which a process sleeps longer than it asked: a timed receive with no time to wait stands at the head of
    the list for a tick. */
module KernelLateSleeper {
  import opened QueueSpec
  import opened KernelSpec
  import opened KernelInv
  import opened KernelCalls
  import opened KernelSleep
  import opened KernelOnTime
  import Delays

  /** What matters of a state: who runs, who is ready, and what the first three processes are. */
  predicate Looks(k: Kernel, curr: nat, ready: seq<int>, st1: PState, st2: PState)
  {
    && WellFormed(k) && k.curr == curr && k.ndefers == 0 && ReadyList(k) == ready
    && k.procs[0].prio == 0 && k.key[0] == 0 && k.procs[curr].state == Curr
    && k.procs[1].state == st1 && k.procs[2].state == st2 && (st1 != PState.Free ==> k.procs[1].prio == 20)
    && (st2 != PState.Free ==> k.procs[2].prio == 10) && !k.procs[1].hasMsg && !k.procs[2].hasMsg
    && (forall i :: 0 <= i < |ready| ==> 0 <= ready[i] < NPROC && k.key[ready[i]] == k.procs[ready[i]].prio)
  }

  lemma Creates()
    ensures Looks(Initial(), 0, [], PState.Free, PState.Free)
    ensures Looks(Do(Initial(), Create(1, 20)).0, 0, [], Susp, PState.Free)
    ensures Looks(Do(Do(Initial(), Create(1, 20)).0, Create(2, 10)).0, 0, [], Susp, Susp)
  {
  }

  lemma FirstRuns(k: Kernel)
    requires Looks(k, 0, [], Susp, Susp)
    ensures Looks(Do(k, Resume(1)).0, 1, [0], Curr, Susp)
  {
    assert Looks(PutReady(k, 1), 0, [1], Ready, Susp);
    hide PutReady;
    NullYields(PutReady(k, 1));
    hide Looks;
  }

  lemma NullYields(k: Kernel)
    requires Looks(k, 0, [1], Ready, Susp)
    ensures Looks(KernelSpec.Resched(k), 1, [0], Curr, Susp)
  {
    var k2 := PutReady(k, 0);
    assert Place([1], k.key, 0) == 1;
    assert ReadyList(k2) == [1, 0];
    assert KernelSpec.Resched(k) == SwitchTo(k2);
    hide PutReady;
  }

  lemma SecondReady(k: Kernel)
    requires Looks(k, 1, [0], Curr, Susp)
    ensures Looks(Do(k, Resume(2)).0, 1, [2, 0], Curr, Ready)
  {
    var k1 := PutReady(k, 2);
    assert ReadyList(k1) == [2, 0];
    assert Do(k, Resume(2)).0 == k1;
  }

  lemma FirstSleeps(k: Kernel)
    requires Looks(k, 1, [2, 0], Curr, Ready) && Inv(k)
    ensures Looks(Do(k, SleepMs(2)).0, 2, [0], Sleep, Curr)
  {
    SleepKeys(k);
    hide Inv, PutAsleep;
    SecondRuns(k, PutAsleep(k, 1, 2, Sleep));
    hide Looks;
  }

  lemma SecondRuns(k: Kernel, k1: Kernel)
    requires Looks(k, 1, [2, 0], Curr, Ready) && WellFormed(k1)
    requires ReadyList(k1) == [2, 0] && k1.procs == k.procs[1 := k.procs[1].(state := Sleep)]
    requires k1.key[0] == k.key[0] && k1.key[2] == k.key[2] && k1.curr == k.curr && k1.ndefers == k.ndefers
    ensures Looks(KernelSpec.Resched(k1), 2, [0], Sleep, Curr)
  {
  }

  lemma SleepKeys(k: Kernel)
    requires Looks(k, 1, [2, 0], Curr, Ready) && Inv(k)
    ensures var k1 := PutAsleep(k, 1, 2, Sleep);
            && ReadyList(k1) == [2, 0] && k1.procs == k.procs[1 := k.procs[1].(state := Sleep)]
            && k1.key[0] == k.key[0] && k1.key[2] == k.key[2] && k1.curr == k.curr && k1.ndefers == k.ndefers
  {
    StandsAt(k, 2, SLEEPQ);
    StandsAt(k, 0, SLEEPQ);
    hide Inv;
    var l := k.lists[SLEEPQ];
    var (i, y) := DeltaPlace(l, k.key, 2);
    if i < |l| { assert l[i] in l; }
  }

  /** Who runs, and that the call is allowed. */
  lemma LooksAllowed(k: Kernel, curr: nat, ready: seq<int>, st1: PState, st2: PState)
    requires Looks(k, curr, ready, st1, st2)
    ensures WellFormed(k) && k.curr == curr && (curr in {1, 2} ==> !k.procs[curr].hasMsg)
    ensures curr > 0 ==> May(k, SleepMs(2)) && Short(SleepMs(2)) && May(k, RecvTime(0)) && Short(RecvTime(0))
  {
  }

  /** A state after a call, and what the call did to the sleepers. */
  lemma Next(k: Kernel, c: Call) returns (k': Kernel)
    requires Inv(k) && WellFormed(k) && May(k, c) && Short(c) && Delays.Fits(Sleepers(k))
    ensures k' == Do(k, c).0 && Inv(k') && WellFormed(k')
    ensures Sleepers(k') == SleepersAfter(k, c) && Delays.Fits(Sleepers(k'))
  {
    hide Inv;
    InvFormed(k);
    k' := Do(k, c).0;
    DoInv(k, c);
    CallSleepers(k, c);
  }

  /** Calls that anybody may make; two of them leave the sleepers alone. */
  lemma Free(k: Kernel, c: Call)
    requires WellFormed(k) && (c.Tick? || c.Create? || c.Resume?)
    ensures May(k, c) && Short(c) && (!c.Tick? ==> SleepersAfter(k, c) == Sleepers(k))
  {
  }

  lemma NoCalls()
    ensures IsRun([Initial()], []) && WellFormed(Initial()) && Sleepers(Initial()) == []
    ensures Delays.Fits(Sleepers(Initial()))
  {
  }

  /** A run and one call more. */
  lemma Go(states: seq<Kernel>, calls: seq<Call>, c: Call) returns (states': seq<Kernel>)
    requires IsRun(states, calls) && |states| == |calls| + 1 && WellFormed(states[|calls|]) && May(states[|calls|], c)
    ensures IsRun(states', calls + [c]) && states' == states + [Do(states[|calls|], c).0]
  {
    hide Do, WellFormed, May, Initial;
    states' := states + [Do(states[|calls|], c).0];
  }

  /** A run up to where two processes can run, the first of them running. */
  lemma TwoProcesses() returns (states: seq<Kernel>, k4: Kernel)
    ensures IsRun(states, [Create(1, 20), Create(2, 10), Resume(1), Resume(2)]) && |states| == 5 && states[4] == k4
    ensures Inv(k4) && Looks(k4, 1, [2, 0], Curr, Ready) && Sleepers(k4) == []
  {
    Creates();
    InitialInv();
    NoCalls();
    hide *;
    Free(Initial(), Create(1, 20));
    assert [] + [Create(1, 20)] == [Create(1, 20)];
    assert [Create(1, 20)] + [Create(2, 10)] == [Create(1, 20), Create(2, 10)];
    assert [Create(1, 20), Create(2, 10)] + [Resume(1)] == [Create(1, 20), Create(2, 10), Resume(1)];
    assert [Create(1, 20), Create(2, 10), Resume(1)] + [Resume(2)]
        == [Create(1, 20), Create(2, 10), Resume(1), Resume(2)];
    var k1 := Next(Initial(), Create(1, 20));
    states := Go([Initial()], [], Create(1, 20));
    Free(k1, Create(2, 10));
    var k2 := Next(k1, Create(2, 10));
    states := Go(states, [Create(1, 20)], Create(2, 10));
    FirstRuns(k2);
    Free(k2, Resume(1));
    var k3 := Next(k2, Resume(1));
    states := Go(states, [Create(1, 20), Create(2, 10)], Resume(1));
    SecondReady(k3);
    Free(k3, Resume(2));
    k4 := Next(k3, Resume(2));
    states := Go(states, [Create(1, 20), Create(2, 10), Resume(1)], Resume(2));
  }

  /** What two ticks do to the sleepers. */
  lemma TwoTicks()
    ensures Delays.Insert([], 1, 2) == [Delays.Sleeper(1, 2)]
    ensures Delays.Insert([Delays.Sleeper(1, 2)], 2, 0) == [Delays.Sleeper(2, 0), Delays.Sleeper(1, 2)]
    ensures Delays.Tick([Delays.Sleeper(2, 0), Delays.Sleeper(1, 2)]).1 == [Delays.Sleeper(1, 2)]
    ensures Delays.Tick([Delays.Sleeper(1, 2)]).1 == [Delays.Sleeper(1, 1)]
  {
    var s := [Delays.Sleeper(2, -1), Delays.Sleeper(1, 2)];
    assert s[1..] == [Delays.Sleeper(1, 2)];
    assert Delays.Split(s).1 == s[1..];
  }

  lemma Afterwards(k: Kernel)
    requires WellFormed(k)
    ensures SleepersAfter(k, SleepMs(2)) == Delays.Insert(Sleepers(k), k.curr, 2)
    ensures !k.procs[k.curr].hasMsg ==> SleepersAfter(k, RecvTime(0)) == Delays.Insert(Sleepers(k), k.curr, 0)
    ensures SleepersAfter(k, Tick) == Delays.Tick(Sleepers(k)).1
  {
  }

  /** The first sleeps for 2 ms, the second receives with no time to wait, and two ticks pass. */
  lemma TheySleep(k4: Kernel) returns (k5: Kernel, k6: Kernel, k7: Kernel, k8: Kernel)
    requires Inv(k4) && Looks(k4, 1, [2, 0], Curr, Ready) && Sleepers(k4) == []
    ensures May(k4, SleepMs(2)) && k4.curr == 1
    ensures k5 == Do(k4, SleepMs(2)).0 && WellFormed(k5) && May(k5, RecvTime(0)) && k6 == Do(k5, RecvTime(0)).0
    ensures WellFormed(k6) && May(k6, Tick) && k7 == Do(k6, Tick).0 && WellFormed(k7) && May(k7, Tick)
    ensures k8 == Do(k7, Tick).0 && WellFormed(k8)
    ensures Sleepers(k6) == [Delays.Sleeper(2, 0), Delays.Sleeper(1, 2)] && 1 in k8.lists[SLEEPQ]
  {
    hide Do, Inv, Sleepers, SleepersAfter, WellFormed, May, Looks, Delays.Insert, Delays.Tick;
    TwoTicks();
    FirstSleeps(k4);
    LooksAllowed(k4, 1, [2, 0], Curr, Ready);
    k5 := Next(k4, SleepMs(2));
    LooksAllowed(k5, 2, [0], Sleep, Curr);
    Afterwards(k4);
    Afterwards(k5);
    k6 := Next(k5, RecvTime(0));
    Afterwards(k6);
    Free(k6, Tick);
    k7 := Next(k6, Tick);
    Free(k7, Tick);
    Afterwards(k7);
    k8 := Next(k7, Tick);
    NeverAsleep(k8, 1);
    assert Delays.Time([Delays.Sleeper(1, 1)], 1) == Delays.In(1);
  }

  /** Process 1 asks to sleep for 2 ms at step 4, nobody wakes it, and after two ticks it still sleeps. */
  lemma SleepsLonger() returns (states: seq<Kernel>)
    ensures IsRun(states, [Create(1, 20), Create(2, 10), Resume(1), Resume(2), SleepMs(2), RecvTime(0), Tick, Tick])
    ensures |states| == 9 && states[4].curr == 1
    ensures WellFormed(states[6]) && Sleepers(states[6]) == [Delays.Sleeper(2, 0), Delays.Sleeper(1, 2)]
    ensures WellFormed(states[8]) && 1 in states[8].lists[SLEEPQ]
  {
    var k4;
    states, k4 := TwoProcesses();
    var k5, k6, k7, k8 := TheySleep(k4);
    LooksAllowed(k4, 1, [2, 0], Curr, Ready);
    hide *;
    var calls := [Create(1, 20), Create(2, 10), Resume(1), Resume(2)];
    states := Go(states, calls, SleepMs(2));
    states := Go(states, calls + [SleepMs(2)], RecvTime(0));
    states := Go(states, calls + [SleepMs(2)] + [RecvTime(0)], Tick);
    states := Go(states, calls + [SleepMs(2)] + [RecvTime(0)] + [Tick], Tick);
    assert calls + [SleepMs(2)] + [RecvTime(0)] + [Tick] + [Tick]
        == [Create(1, 20), Create(2, 10), Resume(1), Resume(2), SleepMs(2), RecvTime(0), Tick, Tick];
  }
}
