/** Over whole runs: how many ticks a process sleeps that asks to sleep n milliseconds, and when these are n. */
module KernelOnTime {
  import opened Codes
  import opened QueueSpec
  import opened KernelSpec
  import opened KernelInv
  import opened KernelCalls
  import opened KernelSleep
  import Delays

  predicate Eligible(k: Kernel, p: nat)
    requires WellFormed(k) && p < NPROC
  {
    k.procs[p].state.Ready? || k.procs[p].state.Curr?
  }

  lemma ReschedEligible(k: Kernel, p: nat)
    requires WellFormed(k) && p < NPROC && Eligible(k, p)
    ensures Eligible(Resched(k), p)
  {
  }

  lemma ReadyFirstReady(k: Kernel, q: nat)
    requires WellFormed(k) && q < NLISTS && k.lists[q] != [] && k.ndefers > 0
    ensures var p := k.lists[q][0];
            ReadyFirst(k, q).procs == k.procs[p := k.procs[p].(state := Ready)]
  {
  }

  lemma {:induction false} ReadyTimesReady(k: Kernel, q: nat, n: nat, i: nat)
    requires Core(k) && Scheduled(k) && q < NLISTS && q != READYLIST && i < n <= |k.lists[q]| && k.ndefers > 0
    ensures Eligible(ReadyTimes(k, q, n), k.lists[q][i])
  {
    hide Core, Scheduled, ReadyFirst;
    CoreFormed(k);
    var k1 := ReadyTimes(k, q, n - 1);
    ReadyTimesInv(k, q, n - 1);
    ReadyFirstReady(k1, q);
    if i < n - 1 {
      ReadyTimesReady(k, q, n - 1, i);
    } else {
      assert k1.lists[q][0] == k.lists[q][n - 1];
    }
  }

  lemma DeferStopEligible(k: Kernel, p: nat)
    requires WellFormed(k) && p < NPROC && Eligible(k, p)
    ensures Eligible(DeferStop(k).0, p)
  {
    if k.ndefers > 0 {
      ReschedEligible(k.(ndefers := k.ndefers - 1), p);
      hide Resched;
    }
  }

  lemma InTail(l: seq<int>, n: nat, i: nat)
    requires n <= |l| && i < |l|
    ensures n <= i ==> l[i] in l[n..]
  {
    if n <= i {
      assert l[n..][i - n] == l[i];
    }
  }

  lemma WakeupWakes(k: Kernel, p: nat)
    requires Inv(k) && p in k.lists[SLEEPQ] && p !in Wakeup(k).lists[SLEEPQ]
    ensures p < NPROC && Eligible(Wakeup(k), p)
  {
    hide Core, Scheduled, ReadyTimes, DeferStop, Eligible, Expired;
    CoreFormed(k);
    var k1, l := DeferStart(k), k.lists[SLEEPQ];
    var n := Expired(l, k.key);
    DeferStartInv(k);
    ReadyTimesInv(k1, SLEEPQ, n);
    var k2 := ReadyTimes(k1, SLEEPQ, n);
    DeferStopSleep(k2);
    var i :| 0 <= i < |l| && l[i] == p;
    InTail(l, n, i);
    ReadyTimesReady(k1, SLEEPQ, n, i);
    DeferStopEligible(k2, p);
  }

  /** Whom a tick takes off the list of sleepers may run. */
  lemma TickSleepersWakes(k: Kernel, p: nat)
    requires Inv(k) && p in k.lists[SLEEPQ] && p !in TickSleepers(k).lists[SLEEPQ]
    ensures p < NPROC && Eligible(TickSleepers(k), p)
  {
    hide Inv, Wakeup, TickSleepers, Eligible, Lowered;
    TickSleepersIs(k);
    if Lowered(k).key[k.lists[SLEEPQ][0]] <= 0 {
      WakeupWakes(Lowered(k), p);
    }
  }

  lemma TickTakes(k: Kernel, p: nat)
    requires Inv(k) && p in k.lists[SLEEPQ] && p !in ClockTick(k).lists[SLEEPQ]
    ensures p < NPROC && Eligible(ClockTick(k), p)
  {
    hide Inv, TickSleepers, CountDown, Resched;
    InvFormed(k);
    TickSleepersInv(k);
    PreemptSleep(k);
    TickSleepersWakes(k, p);
    CountDownEligible(TickSleepers(k), p);
  }

  lemma CountDownEligible(k: Kernel, p: nat)
    requires Inv(k) && p < NPROC && WellFormed(k) && Eligible(k, p)
    ensures Eligible(CountDown(k), p)
  {
    CountDownIs(k);
    ReschedEligible(k.(preempt := QUANTUM), p);
    hide Resched, Inv, CountDown;
  }

  function EventOf(k: Kernel, c: Call): seq<Delays.Event>
    requires WellFormed(k)
  {
    if Sleeps(k, c) then [Delays.Sleep(k.curr, Delay(c))]
    else if Wakes(k, c) then [Delays.Wake(c.p)]
    else if c.Tick? then [Delays.Passing]
    else []
  }

  /** What happens to the sleepers from call `i` up to call `j`. */
  ghost function Events(states: seq<Kernel>, calls: seq<Call>, i: nat, j: nat): seq<Delays.Event>
    requires IsRun(states, calls) && i <= j <= |calls|
    decreases j - i
  {
    if i == j then [] else Events(states, calls, i, j - 1) + EventOf(states[j - 1], calls[j - 1])
  }

  lemma NeverAsleep(k: Kernel, p: nat)
    requires Inv(k) && p < NPROC
    ensures Delays.Time(Sleepers(k), p) == Delays.Never <==> p !in k.lists[SLEEPQ]
    ensures Delays.Distinct(Sleepers(k))
  {
    StandsAt(k, p, SLEEPQ);
    PairsAt(k.lists[SLEEPQ], k.key);
    Delays.TimeNever(Sleepers(k), p);
  }

  lemma {:induction false} PairsAt(l: seq<int>, key: seq<int>)
    requires |key| == NPROC && Pids(l)
    ensures forall i :: 0 <= i < |l| ==> Pairs(l, key)[i] == Delays.Sleeper(l[i], key[l[i]])
  {
    if l != [] {
      PairsAt(l[1..], key);
      assert forall i :: 0 < i < |l| ==> l[i] == l[1..][i - 1];
    }
  }

  lemma RunStep(states: seq<Kernel>, calls: seq<Call>, i: nat)
    requires IsRun(states, calls) && i <= |calls|
    ensures |states| == |calls| + 1 && Inv(states[i])
    ensures i < |calls| ==> May(states[i], calls[i]) && states[i + 1] == Do(states[i], calls[i]).0
  {
    RunInv(states, calls, i);
  }

  lemma OneMoreEvent(s: seq<Delays.Sleeper>, es: seq<Delays.Event>, e: Delays.Event)
    requires Delays.Allowed(s, es)
    requires e.Sleep? ==> Delays.Time(Delays.AfterAll(s, es), e.p) == Delays.Never && 0 <= e.ms <= MAXINT
    ensures Delays.AfterAll(s, es + [e]) == Delays.After(Delays.AfterAll(s, es), e) && Delays.Allowed(s, es + [e])
  {
    assert (es + [e])[..|es|] == es;
  }

  lemma DelayFits(k: Kernel, c: Call)
    requires WellFormed(k) && Sleeps(k, c) && Short(c)
    ensures 0 <= Delay(c) <= MAXINT
  {
  }

  /** One call is at most one event. */
  lemma EventFollows(k: Kernel, c: Call, s: seq<Delays.Sleeper>, es: seq<Delays.Event>)
    requires Inv(k) && May(k, c) && WellFormed(Do(k, c).0) && Delays.Fits(Sleepers(k)) && Short(c)
    requires Sleepers(k) == Delays.AfterAll(s, es) && Delays.Allowed(s, es)
    ensures Sleepers(Do(k, c).0) == Delays.AfterAll(s, es + EventOf(k, c)) && Delays.Allowed(s, es + EventOf(k, c))
  {
    hide Inv, Do, Sleepers, Delays.Insert, Delays.Remove, Delays.Tick, Delays.AfterAll, Delays.Allowed, Delays.Time,
      Sleeps, Wakes;
    InvFormed(k);
    CallSleepers(k, c);
    if Sleeps(k, c) {
      SleeperAwake(k, c);
      DelayFits(k, c);
    }
    if EventOf(k, c) == [] {
      assert es + [] == es;
    } else {
      assert EventOf(k, c) == [EventOf(k, c)[0]];
      OneMoreEvent(s, es, EventOf(k, c)[0]);
    }
  }

  /** No call of the run asks to sleep for 2^31 ms or more. */
  predicate ShortSleeps(calls: seq<Call>)
  {
    forall i :: 0 <= i < |calls| ==> Short(calls[i])
  }

  /** Then the delays on the list, and their sum, never leave the range of a signed word. */
  lemma {:induction false} KeysFit(states: seq<Kernel>, calls: seq<Call>, i: nat)
    requires IsRun(states, calls) && ShortSleeps(calls) && i <= |calls|
    ensures |states| == |calls| + 1 && Inv(states[i])
    ensures Delays.Fits(Sleepers(states[i])) && Delays.Distinct(Sleepers(states[i]))
  {
    hide Inv, Do, IsRun, May, Delays.Fits, Delays.Distinct;
    RunStep(states, calls, i);
    NeverAsleep(states[i], 0);
    if i == 0 {
      NoSleepers(states, calls);
    } else {
      KeysFit(states, calls, i - 1);
      RunStep(states, calls, i - 1);
      InvFormed(states[i - 1]);
      CallSleepers(states[i - 1], calls[i - 1]);
    }
  }

  lemma NoSleepers(states: seq<Kernel>, calls: seq<Call>)
    requires IsRun(states, calls)
    ensures WellFormed(states[0]) && Sleepers(states[0]) == [] && Delays.Fits(Sleepers(states[0]))
  {
  }

  lemma {:induction false} EventsFollow(states: seq<Kernel>, calls: seq<Call>, i: nat, j: nat)
    requires IsRun(states, calls) && ShortSleeps(calls) && i <= j <= |calls|
    ensures |states| == |calls| + 1 && Inv(states[i]) && Inv(states[j])
    ensures Sleepers(states[j]) == Delays.AfterAll(Sleepers(states[i]), Events(states, calls, i, j))
    ensures Delays.Allowed(Sleepers(states[i]), Events(states, calls, i, j))
    decreases j - i
  {
    hide Inv, Do, IsRun, May, Sleepers, EventOf, Sleeps, Delays.Fits;
    RunStep(states, calls, i);
    RunStep(states, calls, j);
    InvFormed(states[i]);
    if i < j {
      EventsFollow(states, calls, i, j - 1);
      RunStep(states, calls, j - 1);
      KeysFit(states, calls, j - 1);
      EventFollows(states[j - 1], calls[j - 1], Sleepers(states[i]), Events(states, calls, i, j - 1));
    }
  }

  lemma SleeperAwake(k: Kernel, c: Call)
    requires Inv(k) && May(k, c) && Sleeps(k, c)
    ensures Delays.Time(Sleepers(k), k.curr) == Delays.Never
  {
    NotAsleep(k, k.curr);
    NeverAsleep(k, k.curr);
  }

  lemma TickIs(k: Kernel)
    requires WellFormed(k)
    ensures Do(k, Tick).0 == ClockTick(k)
  {
  }

  /** A tick seen by a sleeper with `left` ms to go. */
  lemma TickedAt(states: seq<Kernel>, calls: seq<Call>, j: nat, p: nat, left: int)
    requires IsRun(states, calls) && ShortSleeps(calls) && j < |calls| && calls[j].Tick? && p < NPROC
    requires WellFormed(states[j]) && Delays.Time(Sleepers(states[j]), p) == Delays.In(left)
    ensures WellFormed(states[j + 1])
    ensures left > Delays.Cost(Sleepers(states[j])) ==> p in states[j + 1].lists[SLEEPQ]
    ensures left <= Delays.Cost(Sleepers(states[j])) ==> p !in states[j + 1].lists[SLEEPQ] && Eligible(states[j + 1], p)
  {
    hide Inv, Do, Eligible, IsRun, Sleepers, Delays.Cost;
    RunStep(states, calls, j);
    RunStep(states, calls, j + 1);
    InvFormed(states[j + 1]);
    KeysFit(states, calls, j);
    CallSleepers(states[j], calls[j]);
    Delays.TickTime(Sleepers(states[j]), p);
    NeverAsleep(states[j], p);
    NeverAsleep(states[j + 1], p);
    if left <= Delays.Cost(Sleepers(states[j])) {
      assert states[j + 1] == ClockTick(states[j]) by { TickIs(states[j]); }
      TickTakes(states[j], p);
    }
  }

  lemma FallsAsleep(k: Kernel, c: Call)
    requires Inv(k) && WellFormed(k) && May(k, c) && Sleeps(k, c) && Delays.Fits(Sleepers(k)) && Short(c)
    ensures Delays.Time(Sleepers(Do(k, c).0), k.curr) == Delays.In(Delay(c))
  {
    hide Inv, Do, Sleepers, Delays.Insert, Delays.Time;
    InvFormed(k);
    SleeperAwake(k, c);
    CallSleepers(k, c);
    Delays.InsertTime(Sleepers(k), k.curr, Delay(c), k.curr);
  }

  /** A delay of 2^31 is the least signed word, and one less the greatest. */
  lemma HalfWay(s: seq<Delays.Sleeper>, p: int)
    ensures Delays.Time(AfterTick(LongList(s, p, MAXINT + 1)), p) == Delays.In(MAXINT)
  {
  }

  lemma LongHeads(k: Kernel, k1: Kernel, n: uint32)
    requires WellFormed(k) && WellFormed(k1) && Sleepers(k1) == LongList(Sleepers(k), k.curr, n)
    ensures k1.lists[SLEEPQ] != [] && Delays.Time(Sleepers(k1), k.curr) == Delays.In(n - TWO32)
    ensures k.lists[SLEEPQ] != [] ==> 0 <= k.lists[SLEEPQ][0] < NPROC
    ensures k.lists[SLEEPQ] != [] <==> Sleepers(k) != []
    ensures k.lists[SLEEPQ] != [] ==> Sleepers(k)[0] == Delays.Sleeper(k.lists[SLEEPQ][0], k.key[k.lists[SLEEPQ][0]])
  {
  }

  lemma TickIsTick(k: Kernel)
    requires Inv(k) && k.lists[SLEEPQ] != []
    ensures WellFormed(k) && Sleepers(Do(k, Tick).0) == AfterTick(Sleepers(k)) && May(k, Tick)
  {
    hide Inv, TickSleepers, Sleepers, AfterTick, ClockTick, Undisturbed;
    InvFormed(k);
    TickSleepersWords(k);
    PreemptSleep(k);
    TickIs(k);
    UndisturbedSame(TickSleepers(k), ClockTick(k));
  }

  /** A sleep of more than 2^31 ms ends at the next tick, and it wakes the first of the other sleepers too if that had
      so many to go that its delay left the range of a signed word. A sleep of just 2^31 ms is not ended by that
      tick. */
  lemma SleepsTooLong(k: Kernel, n: uint32)
    requires Inv(k) && WellFormed(k) && May(k, SleepMs(n)) && n > MAXINT && Delays.Fits(Sleepers(k))
    ensures var k1 := Do(k, SleepMs(n)).0;
            var k2 := Do(k1, Tick).0;
            && Inv(k2) && k.curr in k1.lists[SLEEPQ]
            && (k.curr in k2.lists[SLEEPQ] <==> n == MAXINT + 1)
            && (n > MAXINT + 1 && k.lists[SLEEPQ] != [] ==>
                  (k.lists[SLEEPQ][0] in k2.lists[SLEEPQ] <==> k.key[k.lists[SLEEPQ][0]] < n - MAXINT - 1))
  {
    hide Inv, Do, May, Sleepers, AfterTick, LongList, Delays.Time, Delays.Fits, Delays.Distinct;
    var k1 := Do(k, SleepMs(n)).0;
    var p, s := k.curr, Sleepers(k);
    LongSleepers(k, n);
    DoInv(k, SleepMs(n));
    SleeperAwake(k, SleepMs(n)) by { assert Sleeps(k, SleepMs(n)); }
    NeverAsleep(k1, p);
    LongHeads(k, k1, n);
    TickIsTick(k1);
    var k2 := Do(k1, Tick).0;
    DoInv(k1, Tick);
    NeverAsleep(k, p);
    NeverAsleep(k2, p);
    if n > MAXINT + 1 {
      LongTick(s, p, n);
      if k.lists[SLEEPQ] != [] {
        NeverAsleep(k2, k.lists[SLEEPQ][0]);
        PairsAt(k.lists[SLEEPQ], k.key);
      }
    } else {
      HalfWay(s, p);
    }
  }

  /** The sleepers that the process finds when it falls asleep at call `i`, itself among them. */
  ghost function Beside(states: seq<Kernel>, calls: seq<Call>, i: nat): seq<Delays.Sleeper>
    requires IsRun(states, calls) && i < |calls| && WellFormed(states[i + 1])
  {
    Sleepers(states[i + 1])
  }

  /** A call at `i` puts a process to sleep; with nobody waking it, it counts down. */
  lemma CountsDown(states: seq<Kernel>, calls: seq<Call>, i: nat, j: nat)
    requires IsRun(states, calls) && ShortSleeps(calls) && i < j <= |calls|
    requires Sleeps(states[i], calls[i]) && WellFormed(states[i + 1])
    requires Delays.Wake(states[i].curr) !in Events(states, calls, i + 1, j)
    requires Delays.Outlasts(Beside(states, calls, i), Events(states, calls, i + 1, j), Delay(calls[i]))
    ensures Inv(states[j])
    ensures Sleepers(states[j]) == Delays.AfterAll(Beside(states, calls, i), Events(states, calls, i + 1, j))
    ensures Delays.Time(Sleepers(states[j]), states[i].curr)
            == Delays.In(Delay(calls[i]) - Delays.Spent(Beside(states, calls, i), Events(states, calls, i + 1, j)))
  {
    hide Inv, Do, Eligible, IsRun, Sleepers, Delays.Fits, Delays.AfterAll, Delays.Allowed, Delays.Outlasts,
      Delays.Time, Events, Delays.Spent, Sleeps;
    RunStep(states, calls, i);
    RunStep(states, calls, i + 1);
    RunStep(states, calls, j);
    InvFormed(states[i]);
    InvFormed(states[j]);
    var p, n, es := states[i].curr, Delay(calls[i]), Events(states, calls, i + 1, j);
    KeysFit(states, calls, i);
    FallsAsleep(states[i], calls[i]);
    KeysFit(states, calls, i + 1);
    EventsFollow(states, calls, i + 1, j);
    Delays.SleepsOn(Sleepers(states[i + 1]), es, p, n);
  }

  /** A call at `i` puts process `p` to sleep for `n` ms and nobody wakes it before call `j`. Until a tick after which
      `n` are spent it sleeps on, and that tick makes it able to run. It is the n-th tick since then if and only if
      no tick found the list headed by a process with no time left; otherwise it is a later one. */
  lemma SleepsExactly(states: seq<Kernel>, calls: seq<Call>, i: nat, j: nat)
    requires IsRun(states, calls) && ShortSleeps(calls) && i < j < |calls|
    requires Sleeps(states[i], calls[i]) && WellFormed(states[i + 1])
    requires Delays.Wake(states[i].curr) !in Events(states, calls, i + 1, j)
    requires Delays.Outlasts(Beside(states, calls, i), Events(states, calls, i + 1, j), Delay(calls[i]))
    ensures Inv(states[j]) && Inv(states[j + 1])
    ensures var p, n, s := states[i].curr, Delay(calls[i]), Beside(states, calls, i);
            var es := Events(states, calls, i + 1, j);
            var es' := es + [Delays.Passing];
            && p in states[j].lists[SLEEPQ]
            && Delays.Time(Sleepers(states[j]), p) == Delays.In(n - Delays.Spent(s, es))
            && (calls[j].Tick? && Delays.Spent(s, es') < n ==> p in states[j + 1].lists[SLEEPQ])
            && (calls[j].Tick? && Delays.Spent(s, es') >= n ==>
                  && p !in states[j + 1].lists[SLEEPQ] && Eligible(states[j + 1], p)
                  && (n > 0 ==> Delays.Ticks(es') >= n && (Delays.Ticks(es') == n <==> Delays.Full(s, es'))))
  {
    hide Inv, Do, Eligible, IsRun, May, Sleepers, Delays.Time, Events, Delays.Ticks, Sleeps, Delays.Spent, Delays.Full,
      Delays.Outlasts, Delays.AfterAll, Delays.Allowed, Delays.Tick, Delays.Cost;
    RunStep(states, calls, i);
    RunStep(states, calls, j);
    RunStep(states, calls, j + 1);
    InvFormed(states[i]);
    InvFormed(states[j]);
    var p, n, s, es := states[i].curr, Delay(calls[i]), Beside(states, calls, i), Events(states, calls, i + 1, j);
    CountsDown(states, calls, i, j);
    NeverAsleep(states[j], p);
    if calls[j].Tick? {
      TickedAt(states, calls, j, p, n - Delays.Spent(s, es));
      Delays.OneMoreTick(s, es);
      KeysFit(states, calls, i);
      KeysFit(states, calls, j);
      FallsAsleep(states[i], calls[i]);
      KeysFit(states, calls, i + 1);
      EventsFollow(states, calls, i + 1, j);
      Delays.WakesOnTime(s, es, p, n);
      CallSleepers(states[j], calls[j]);
      Delays.TickTime(Sleepers(states[j]), p);
    }
  }

  /** Every sleep of the run is for at least a millisecond, as 32-bit signed delays go. */
  ghost predicate PositiveSleeps(states: seq<Kernel>, calls: seq<Call>)
    requires IsRun(states, calls)
  {
    forall i :: 0 <= i < |calls| && Sleeps(states[i], calls[i]) ==> Delay(calls[i]) > 0
  }

  lemma {:induction false} EventsPositive(states: seq<Kernel>, calls: seq<Call>, i: nat, j: nat)
    requires IsRun(states, calls) && PositiveSleeps(states, calls) && i <= j <= |calls|
    ensures Delays.Positive(Events(states, calls, i, j))
    decreases j - i
  {
    hide Sleeps, Wakes;
    if i < j { EventsPositive(states, calls, i, j - 1); }
  }

  /** Where every sleep is for at least a millisecond, the n-th tick, and no other, makes a process able to run that
      asked to sleep for `n` and that nobody wakes. */
  lemma SleepsOnTime(states: seq<Kernel>, calls: seq<Call>, i: nat, j: nat)
    requires IsRun(states, calls) && ShortSleeps(calls) && PositiveSleeps(states, calls) && i < j < |calls|
    requires Sleeps(states[i], calls[i])
    requires Delays.Wake(states[i].curr) !in Events(states, calls, i + 1, j)
    requires Delays.Ticks(Events(states, calls, i + 1, j)) < Delay(calls[i])
    ensures Inv(states[j]) && Inv(states[j + 1])
    ensures var p, n, m := states[i].curr, Delay(calls[i]), Delays.Ticks(Events(states, calls, i + 1, j));
            && p in states[j].lists[SLEEPQ] && Delays.Time(Sleepers(states[j]), p) == Delays.In(n - m)
            && (calls[j].Tick? && m + 1 < n ==> p in states[j + 1].lists[SLEEPQ])
            && (calls[j].Tick? && m + 1 == n ==> p !in states[j + 1].lists[SLEEPQ] && Eligible(states[j + 1], p))
  {
    hide Inv, Do, Eligible, IsRun, May, Sleepers, Delays.Time, Events, Delays.Ticks, Sleeps, Delays.Spent, Delays.Full,
      Delays.Outlasts, Delays.AfterAll, Delays.Allowed, Delays.Tick, Delays.Cost, Delays.Positive, Delays.Ticking,
      PositiveSleeps;
    RunStep(states, calls, i);
    RunStep(states, calls, i + 1);
    InvFormed(states[i]);
    InvFormed(states[i + 1]);
    var p, n, s, es := states[i].curr, Delay(calls[i]), Beside(states, calls, i), Events(states, calls, i + 1, j);
    KeysFit(states, calls, i);
    KeysFit(states, calls, i + 1);
    FallsAsleep(states[i], calls[i]);
    EventsFollow(states, calls, i + 1, j);
    EventsPositive(states, calls, i + 1, j);
    TickingThen(states, calls, i + 1);
    Delays.PositiveFull(s, es, p, n);
    Delays.SpentAtMost(s, es + [Delays.Passing]);
    Delays.OneMoreTick(s, es);
    SleepsExactly(states, calls, i, j);
  }

  lemma TickingThen(states: seq<Kernel>, calls: seq<Call>, i: nat)
    requires IsRun(states, calls) && ShortSleeps(calls) && PositiveSleeps(states, calls) && i <= |calls|
    ensures Inv(states[i]) && Delays.Ticking(Sleepers(states[i])) && Delays.Distinct(Sleepers(states[i]))
  {
    hide Inv, Do;
    EventsFollow(states, calls, 0, i);
    EventsPositive(states, calls, 0, i);
    assert Sleepers(states[0]) == [];
    Delays.PositiveTicking(Sleepers(states[0]), Events(states, calls, 0, i));
  }
}
