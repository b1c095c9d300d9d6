/** Processes of equal priority take turns. */
module KernelRoundRobin {
  import opened Codes
  import opened QueueSpec
  import opened KernelSpec
  import opened KernelInv
  import opened KernelCalls

  /** The current process, and behind it the ready processes that may have the processor next. */
  function Ring(k: Kernel): (r: seq<int>)
    requires WellFormed(k)
    ensures |r| > 0 && r[0] == k.curr
  {
    [k.curr] + ReadyList(k)[..Place(ReadyList(k), k.key, k.procs[k.curr].prio)]
  }

  function Rotate(l: seq<int>): (r: seq<int>)
    requires l != []
    ensures |r| == |l|
  {
    l[1..] + [l[0]]
  }

  ghost predicate Plain(k: Kernel)
  {
    Inv(k) && k.ndefers == 0
  }

  lemma PlainFormed(k: Kernel)
    requires Plain(k)
    ensures WellFormed(k)
  {
  }

  /** The ring holds exactly the processes of the current priority that can run. */
  lemma RingMembers(k: Kernel, p: nat)
    requires Plain(k) && p < NPROC
    ensures p in Ring(k) <==> (p == k.curr || k.procs[p].state.Ready?) && k.procs[p].prio == k.procs[k.curr].prio
  {
    hide Base, Running, AllCounted;
    StandsAt(k, p, READYLIST);
    var l, x := ReadyList(k), k.procs[k.curr].prio;
    var n := Place(l, k.key, x);
    StandsAt(k, k.curr, READYLIST);
    if p in l {
      var i :| 0 <= i < |l| && l[i] == p;
      assert k.key[l[i]] == k.procs[p].prio;
      if i < n {
        assert Ring(k)[i + 1] == p;
      } else {
        assert k.key[l[n]] >= k.key[l[i]];
      }
    }
    if p in l[..n] {
      assert p in l;
    }
  }

  lemma RingPlace(l: seq<int>, key: seq<int>, p: int, x: int)
    requires |key| == NPROC && Pids(l) && 0 <= p < NPROC && p !in l
    requires l != [] && key[l[0]] >= x
    ensures var m, r := Place(l, key, x), InsertAt(l, Place(l, key, x), p)[1..];
            && m > 0 && Pids(r) && Place(r, key[p := x], x) == m && r[..m] == l[1..m] + [p]
  {
    var m := Place(l, key, x);
    var r := InsertAt(l, m, p)[1..];
    assert r == l[1..m] + [p] + l[m..];
    assert forall j :: 0 <= j < |r| ==> r[j] == if j < m - 1 then l[j + 1] else if j == m - 1 then p else l[j];
    PlaceIs(r, key[p := x], x, m);
  }

  lemma Switches(k: Kernel)
    requires WellFormed(k) && k.ndefers == 0 && k.procs[k.curr].state.Curr?
    ensures var l, p, x, k' := ReadyList(k), k.curr, k.procs[k.curr].prio, Resched(k);
            if l != [] && x <= k.key[l[0]] then
              && ReadyList(k') == InsertAt(l, Place(l, k.key, x), p)[1..]
              && k'.curr == l[0] && k'.key == k.key[p := x] && k'.procs[l[0]].prio == k.procs[l[0]].prio
            else k' == k
  {
  }

  /** Rescheduling passes the processor to the next process of the ring, and the current one goes to its end. */
  lemma ReschedRotates(k: Kernel)
    requires Plain(k)
    ensures Plain(Resched(k)) && Ring(Resched(k)) == Rotate(Ring(k))
  {
    hide Inv, Plain, Resched, InsertAt, NoDup;
    PlainFacts(k);
    ReschedPlain(k);
    Switches(k);
    var l, p, x := ReadyList(k), k.curr, k.procs[k.curr].prio;
    if l != [] && x <= k.key[l[0]] {
      RingPlace(l, k.key, p, x);
    }
  }

  lemma PlainFacts(k: Kernel)
    requires Plain(k)
    ensures WellFormed(k) && k.ndefers == 0 && k.procs[k.curr].state.Curr? && k.curr !in ReadyList(k)
    ensures ReadyList(k) != [] ==> k.key[ReadyList(k)[0]] == k.procs[ReadyList(k)[0]].prio <= k.procs[k.curr].prio
  {
    StandsAt(k, k.curr, READYLIST);
    hide Base;
  }

  lemma ReschedPlain(k: Kernel)
    requires Plain(k)
    ensures WellFormed(k) && Plain(Resched(k))
  {
    ReschedInv(k);
  }

  function ReschedTimes(k: Kernel, n: nat): (k': Kernel)
    requires WellFormed(k)
    ensures WellFormed(k')
  {
    if n == 0 then k else Resched(ReschedTimes(k, n - 1))
  }

  function RotateBy(r: seq<int>, n: nat): seq<int>
    requires r != []
  {
    r[n % |r|..] + r[..n % |r|]
  }

  /** After n reschedulings the n-th process of the ring, going round, has the processor. */
  lemma {:induction false} TakesTurns(k: Kernel, n: nat)
    requires Plain(k)
    ensures Plain(ReschedTimes(k, n))
    ensures Ring(ReschedTimes(k, n)) == RotateBy(Ring(k), n)
    ensures ReschedTimes(k, n).curr == Ring(k)[n % |Ring(k)|]
  {
    hide Inv, Plain, Resched, Ring, RotateBy;
    PlainFormed(k);
    FirstTurn(Ring(k), n);
    if n > 0 {
      TakesTurns(k, n - 1);
      ReschedRotates(ReschedTimes(k, n - 1));
      NextTurn(Ring(k), n);
    }
  }

  lemma FirstTurn(r: seq<int>, n: nat)
    requires r != []
    ensures RotateBy(r, 0) == r && |RotateBy(r, n)| == |r| && RotateBy(r, n)[0] == r[n % |r|]
  {
  }

  lemma NextTurn(r: seq<int>, n: nat)
    requires r != [] && n > 0
    ensures RotateBy(r, n - 1) != [] && Rotate(RotateBy(r, n - 1)) == RotateBy(r, n)
  {
    var i, j := (n - 1) % |r|, n % |r|;
    ModStep(n, |r|);
    if i + 1 < |r| {
      assert Rotate(r[i..] + r[..i]) == r[i + 1..] + (r[..i] + [r[i]]);
    } else {
      assert Rotate(r[i..] + r[..i]) == r[..i] + [r[i]];
    }
  }

  lemma ModStep(n: nat, d: nat)
    requires n > 0 && d > 0
    ensures n % d == if (n - 1) % d + 1 < d then (n - 1) % d + 1 else 0
  {
    var q, i := (n - 1) / d, (n - 1) % d;
    if i + 1 < d {
      ModIs(n, d, q, i + 1);
    } else {
      ModIs(n, d, q + 1, 0);
    }
  }

  lemma ModIs(n: nat, d: nat, q: nat, r: nat)
    requires n == q * d + r && r < d
    ensures n % d == r
  {
    assert n == n / d * d + n % d;
    OneRemainder(n / d, n % d, q, r, d);
  }

  lemma OneRemainder(q: nat, r: nat, q': nat, r': nat, d: nat)
    requires q * d + r == q' * d + r' && r < d && r' < d
    ensures r == r'
  {
    if q < q' {
      MulGap(q, q', d);
    } else if q' < q {
      MulGap(q', q, d);
    }
  }

  lemma MulGap(a: nat, b: nat, d: nat)
    requires a < b
    ensures b * d >= a * d + d
  {
    assert b * d == a * d + (b - a) * d;
    assert (b - a) * d == d + (b - a - 1) * d;
  }

  // --- ticks while others sleep ---

  /** Whom the next tick wakes. */
  function Woken(k: Kernel): (r: seq<int>)
    requires WellFormed(k)
    ensures Pids(r)
  {
    var l := k.lists[SLEEPQ];
    if l == [] then []
    else
      var key := k.key[l[0] := ToInt32(k.key[l[0]] - 1)];
      if key[l[0]] <= 0 then l[..Expired(l, key)] else []
  }

  /** Nobody of the priority of the current process, or a higher one, wakes at the next tick. */
  ghost predicate Quiet(k: Kernel)
    requires WellFormed(k)
  {
    forall i :: 0 <= i < |Woken(k)| ==> k.procs[Woken(k)[i]].prio < k.procs[k.curr].prio
  }

  /** The next tick passes the processor on: it wakes somebody, or it ends the slice. */
  predicate Passes(k: Kernel)
    requires WellFormed(k)
  {
    Woken(k) != [] || k.preempt <= 1
  }

  /** A process of lower priority that enters the ready list stands behind all of the ring. */
  lemma PrefixInsert(l: seq<int>, key: seq<int>, p: int, x: int, y: int)
    requires |key| == NPROC && Pids(l) && 0 <= p < NPROC && p !in l && y < x
    ensures var r, n := InsertAt(l, Place(l, key, y), p), Place(l, key, x);
            && Pids(r) && Place(r, key[p := y], x) == n && r[..n] == l[..n]
            && forall i :: 0 <= i < |r| ==> r[i] == p || r[i] in l
  {
    var m, n := Place(l, key, y), Place(l, key, x);
    hide Place;
    var r := InsertAt(l, m, p);
    assert n <= m;
    InsertMembers(l, m, p);
    forall i | 0 <= i <= n && i < |r|
      ensures if i < n then r[i] == l[i] && key[p := y][r[i]] >= x else key[p := y][r[i]] < x
    {
      InsertedPlace(l, m, p, i);
    }
    hide InsertAt;
    PlaceIs(r, key[p := y], x, n);
    assert forall i :: 0 <= i < |r| ==> r[i] in r;
  }

  /** The same process runs, the same wait behind it for their turn, and nothing ready has a higher priority. */
  ghost predicate SameRing(k: Kernel, k': Kernel)
    requires WellFormed(k) && WellFormed(k')
  {
    k'.curr == k.curr && k'.procs[k.curr] == k.procs[k.curr] && Ring(k') == Ring(k) && (Highest(k) ==> Highest(k'))
  }

  /** Readying a sleeper of lower priority under deferral. */
  lemma LowerReadied(k: Kernel, q: nat)
    requires Core(k) && Scheduled(k) && q < NLISTS && q != READYLIST && k.ndefers > 0 && k.lists[q] != []
    requires WellFormed(k) && k.procs[k.lists[q][0]].prio < k.procs[k.curr].prio && k.lists[q][0] != k.curr
    ensures var k' := ReadyFirst(k, q);
            && SameRing(k, k') && k'.attempt && k'.preempt == k.preempt
            && forall p :: 0 <= p < NPROC ==> k'.procs[p].prio == k.procs[p].prio
  {
    StandsAt(k, k.lists[q][0], q);
    StandsAt(k, k.lists[q][0], READYLIST);
    var p := k.lists[q][0];
    PrefixInsert(ReadyList(k), k.key, p, k.procs[k.curr].prio, k.procs[p].prio);
    hide Core, Scheduled, Place;
  }

  /** Readying some of them. */
  lemma {:induction false} AllLowerReadied(k: Kernel, q: nat, n: nat)
    requires Core(k) && Scheduled(k) && q < NLISTS && q != READYLIST && k.ndefers > 0 && WellFormed(k)
    requires n <= |k.lists[q]|
    requires forall i :: 0 <= i < n ==> k.procs[k.lists[q][i]].prio < k.procs[k.curr].prio
    ensures var k' := ReadyTimes(k, q, n);
            && SameRing(k, k') && (n > 0 ==> k'.attempt) && k'.preempt == k.preempt
            && forall p :: 0 <= p < NPROC ==> k'.procs[p].prio == k.procs[p].prio
  {
    hide Core, Scheduled, ReadyFirst, Ring, Highest;
    if n > 0 {
      AllLowerReadied(k, q, n - 1);
      ReadyTimesInv(k, q, n - 1);
      var k1 := ReadyTimes(k, q, n - 1);
      assert k1.lists[q][0] == k.lists[q][n - 1];
      LowerReadied(k1, q);
    }
  }

  /** Changing the key of a sleeper leaves the ring alone. */
  lemma {:induction false} PlaceSame(l: seq<int>, key: seq<int>, key': seq<int>, x: int)
    requires |key| == |key'| == NPROC && Pids(l) && forall i :: 0 <= i < |l| ==> key'[l[i]] == key[l[i]]
    ensures Place(l, key', x) == Place(l, key, x)
  {
    PlaceIs(l, key', x, Place(l, key, x));
  }

  lemma RekeyRing(k: Kernel, x: int)
    requires Inv(k) && k.lists[SLEEPQ] != []
    ensures WellFormed(k) && SameRing(k, k.(key := k.key[k.lists[SLEEPQ][0] := x]))
  {
    SleeperKeys(k, 0);
    InvFormed(k);
    hide Inv;
    var key' := k.key[k.lists[SLEEPQ][0] := x];
    PlaceSame(ReadyList(k), k.key, key', k.procs[k.curr].prio);
    assert forall i :: 0 <= i < |ReadyList(k)| ==> ReadyList(k)[i] in ReadyList(k);
  }

  /** With only processes of lower priority woken, the clock's part in the list of sleepers passes the processor on if
      it wakes any. */
  lemma SleepersTurn(k: Kernel)
    requires Plain(k) && WellFormed(k) && Quiet(k)
    ensures var k' := TickSleepers(k);
            Plain(k') && Ring(k') == if Woken(k) == [] then Ring(k) else Rotate(Ring(k))
  {
    hide Core, Scheduled, ReadyTimes, Expired, Resched, Ring, Highest;
    var l := k.lists[SLEEPQ];
    if l != [] {
      var key := k.key[l[0] := ToInt32(k.key[l[0]] - 1)];
      var k0 := k.(key := key);
      RekeyInv(k, 0, key[l[0]]);
      RekeyRing(k, key[l[0]]);
      if key[l[0]] <= 0 {
        var n := Expired(l, key);
        assert n > 0;
        assert forall i :: 0 <= i < n ==> l[i] == Woken(k)[i];
        WakeupTurn(k0, n);
      }
    }
  }

  lemma WakeupTurn(k: Kernel, n: nat)
    requires Plain(k) && WellFormed(k) && n == Expired(k.lists[SLEEPQ], k.key) && n > 0
    requires forall i :: 0 <= i < n ==> k.procs[k.lists[SLEEPQ][i]].prio < k.procs[k.curr].prio
    ensures Plain(Wakeup(k)) && Ring(Wakeup(k)) == Rotate(Ring(k))
  {
    hide ReadyTimes, Expired, Resched, Ring, Core, Place;
    DeferStartInv(k);
    var k1 := DeferStart(k);
    SameDeferred(k, k1);
    AllLowerReadied(k1, SLEEPQ, n);
    ReadyTimesInv(k1, SLEEPQ, n);
    var k2 := ReadyTimes(k1, SLEEPQ, n);
    var k3 := k2.(ndefers := 0);
    SameDeferred(k2, k3);
    assert Core(k3) by { Undeferred(k2); }
    CountedBut(k, k3, SLEEPQ);
    assert Plain(k3);
    ReschedRotates(k3);
  }

  /** Deferral and its record are no part of the ring. */
  lemma SameDeferred(k: Kernel, k': Kernel)
    requires WellFormed(k) && k' == k.(ndefers := k'.ndefers, attempt := k'.attempt)
    ensures WellFormed(k') && SameRing(k, k')
  {
  }

  lemma Undeferred(k: Kernel)
    requires Core(k)
    ensures Core(k.(ndefers := 0))
  {
    Stay(k, k.(ndefers := 0));
  }

  /** The slice after a clock interrupt. */
  lemma CountDownTurns(k: Kernel)
    requires Plain(k) && WellFormed(k)
    ensures Plain(CountDown(k)) && Ring(CountDown(k)) == if k.preempt <= 1 then Rotate(Ring(k)) else Ring(k)
  {
    CountDownIs(k);
    SliceStay(k, QUANTUM, k.owing);
    SliceStay(k, k.preempt - 1, k.owing);
    SameRingSlice(k, k.(preempt := QUANTUM));
    SameRingSlice(k, k.(preempt := k.preempt - 1));
    hide Inv, Ring, Rotate, CountDown, Resched;
    ReschedRotates(k.(preempt := QUANTUM));
  }

  lemma SameRingSlice(k: Kernel, k': Kernel)
    requires WellFormed(k) && k' == k.(preempt := k'.preempt, owing := k'.owing)
    ensures WellFormed(k') && Ring(k') == Ring(k)
  {
  }

  /** A process stands in its ring once. */
  lemma RingAlone(k: Kernel)
    requires Plain(k)
    ensures WellFormed(k) && |Ring(k)| == |Rotate(Ring(k))|
    ensures |Ring(k)| > 1 ==> Rotate(Ring(k))[0] == Ring(k)[1] != k.curr
    ensures |Ring(k)| == 1 ==> Rotate(Ring(k)) == Ring(k)
  {
    PlainFacts(k);
    hide Inv;
    assert |Ring(k)| > 1 ==> Ring(k)[1] == ReadyList(k)[0];
  }

  /** A quiet tick passes the processor on within the ring, at most once, and just when it wakes anybody or ends the
      slice. */
  lemma TickTurns(k: Kernel)
    requires Plain(k) && WellFormed(k) && Quiet(k)
    ensures Plain(ClockTick(k)) && Ring(ClockTick(k)) == if Passes(k) then Rotate(Ring(k)) else Ring(k)
  {
    var k1 := TickSleepers(k);
    SleepersTurn(k);
    RingAlone(k);
    if Woken(k) == [] { SleepersSlice(k); }
    hide Plain, TickSleepers, CountDown, Ring, Rotate, Woken, Quiet;
    PlainOwes(k1, k1.owing + {k.curr});
    SameRingSlice(k1, k1.(owing := k1.owing + {k.curr}));
    CountDownTurns(k1);
  }

  lemma PlainOwes(k: Kernel, owing: set<int>)
    requires Plain(k)
    ensures Plain(k.(owing := owing))
  {
    SliceStay(k, k.preempt, owing);
    hide Inv;
  }

  lemma SleepersSlice(k: Kernel)
    requires WellFormed(k) && Woken(k) == []
    ensures TickSleepers(k).preempt == k.preempt && TickSleepers(k).curr == k.curr && TickSleepers(k).owing == k.owing
  {
    hide Wakeup;
  }

  function Ticked(k: Kernel, n: nat): (k': Kernel)
    requires WellFormed(k)
    ensures WellFormed(k')
  {
    if n == 0 then k else ClockTick(Ticked(k, n - 1))
  }

  /** The next `n` ticks are quiet. */
  ghost predicate QuietFor(k: Kernel, n: nat)
    requires WellFormed(k)
  {
    forall i :: 0 <= i < n ==> Quiet(Ticked(k, i))
  }

  /** How many of the next `n` ticks pass the processor on. */
  function TurnsIn(k: Kernel, n: nat): nat
    requires WellFormed(k)
  {
    if n == 0 then 0 else TurnsIn(k, n - 1) + if Passes(Ticked(k, n - 1)) then 1 else 0
  }

  /** While nobody of its priority or a higher one wakes, the processes of the ring take turns, whoever else wakes:
      after `n` ticks the processor has been passed on just `TurnsIn(k, n)` times. */
  lemma {:induction false} TakeTurnsWhileQuiet(k: Kernel, n: nat)
    requires Plain(k) && WellFormed(k) && QuietFor(k, n)
    ensures Plain(Ticked(k, n)) && Ring(Ticked(k, n)) == RotateBy(Ring(k), TurnsIn(k, n))
    ensures Ticked(k, n).curr == Ring(k)[TurnsIn(k, n) % |Ring(k)|]
  {
    hide Plain, Ring, Quiet, Passes, ClockTick, RotateBy;
    FirstTurn(Ring(k), TurnsIn(k, n));
    if n > 0 {
      TakeTurnsWhileQuiet(k, n - 1);
      TickTurns(Ticked(k, n - 1));
      NextTurn(Ring(k), TurnsIn(k, n - 1) + 1);
    }
  }

  // --- the length of a turn ---

  /** The slice has begun and is not over, and the current process owes nothing. */
  predicate Slice(k: Kernel) { 0 < k.preempt <= QUANTUM && k.curr !in k.owing }

  /** The processor has not been passed on. */
  predicate Held(k: Kernel, k': Kernel)
  {
    k'.curr == k.curr && k'.preempt == k.preempt && k'.owing == k.owing
  }

  /** The processor may have been passed on, to a process that then has its slice and owes nothing more. */
  predicate Handed(k: Kernel, k': Kernel)
  {
    && k'.owing == k.owing - {k'.curr}
    && (k'.preempt == SliceOf(k, k'.curr) || (k'.curr == k.curr && k'.preempt == k.preempt))
  }

  lemma ReschedHands(k: Kernel)
    requires WellFormed(k) && k.curr !in k.owing
    ensures Handed(k, Resched(k)) && (k.ndefers > 0 ==> Held(k, Resched(k)))
  {
    hide Place, InsertAt;
  }

  lemma ReadyFirstHands(k: Kernel, q: nat)
    requires WellFormed(k) && q < NLISTS && k.lists[q] != [] && k.curr !in k.owing
    ensures Handed(k, ReadyFirst(k, q))
    ensures k.ndefers > 0 ==> Held(k, ReadyFirst(k, q)) && ReadyFirst(k, q).ndefers == k.ndefers
  {
    ReschedHands(PutReady(WithList(k, q, k.lists[q][1..]), k.lists[q][0]));
    hide Resched, Place, InsertAt;
  }

  lemma {:induction false} SignalTimesHold(k: Kernel, s: nat, n: nat)
    requires WellFormed(k) && s < NSEM && k.curr !in k.owing && k.ndefers > 0
    ensures Held(k, SignalTimes(k, s, n)) && SignalTimes(k, s, n).ndefers == k.ndefers
  {
    hide ReadyFirst, ToInt32;
    if n > 0 {
      SignalTimesHold(k, s, n - 1);
      var k1 := SignalTimes(k, s, n - 1);
      if k1.lists[s] != [] { ReadyFirstHands(WithCount(k1, s, ToInt32(k1.sems[s].count + 1)), s); }
    }
  }

  lemma {:induction false} ReadyTimesHold(k: Kernel, q: nat, n: nat)
    requires WellFormed(k) && q < NLISTS && k.curr !in k.owing && k.ndefers > 0
    ensures Held(k, ReadyTimes(k, q, n)) && ReadyTimes(k, q, n).ndefers == k.ndefers
  {
    hide ReadyFirst;
    if n > 0 {
      ReadyTimesHold(k, q, n - 1);
      if ReadyTimes(k, q, n - 1).lists[q] != [] { ReadyFirstHands(ReadyTimes(k, q, n - 1), q); }
    }
  }

  lemma DeferStopHands(k: Kernel)
    requires WellFormed(k) && k.curr !in k.owing
    ensures Handed(k, DeferStop(k).0)
  {
    if k.ndefers > 0 { ReschedHands(k.(ndefers := k.ndefers - 1)); }
    hide Resched;
  }

  lemma SemCallsHand(k: Kernel, c: Call)
    requires WellFormed(k) && k.curr !in k.owing && (c.SignalTo? || c.SignalN? || c.SemReset? || c.SemDelete?)
    ensures Handed(k, Do(k, c).0)
  {
    hide ReadyTimes, SignalTimes, DeferStop, ReadyFirst, ToInt32;
    if !BadSem(c.s) && k.sems[c.s].used {
      match c
      case SignalTo(s) =>
        if k.lists[s] != [] { ReadyFirstHands(WithCount(k, s, ToInt32(k.sems[s].count + 1)), s); }
      case SignalN(s, n) =>
        if n >= 0 {
          SignalTimesHold(DeferStart(k), s, n);
          DeferStopHands(SignalTimes(DeferStart(k), s, n));
        }
      case SemReset(s, n) =>
        if n >= 0 {
          ReadyTimesHold(DeferStart(k), s, |k.lists[s]|);
          DeferStopHands(WithCount(ReadyTimes(DeferStart(k), s, |k.lists[s]|), s, n));
        }
      case SemDelete(s) =>
        var k1 := DeferStart(k.(sems := k.sems[s := k.sems[s].(used := false)]));
        var m := if k.sems[s].count < 0 then -k.sems[s].count else 0;
        SignalTimesHold(k1, s, m);
        var k2 := SignalTimes(k1, s, m);
        DeferStopHands(WithCount(k2, s, ToInt32(k2.sems[s].count + 1)));
    }
  }

  lemma BlockingHands(k: Kernel, c: Call)
    requires WellFormed(k) && k.curr !in k.owing && (c.WaitOn? || c.SleepMs? || c.Receive? || c.RecvTime?)
    ensures Handed(k, Do(k, c).0)
  {
    hide Resched, InsertAt, DeltaPlace, DeltaKeys, ToInt32;
    match c
    case WaitOn(s) => WaitHands(k, s);
    case SleepMs(delay) =>
      ReschedHands(k);
      ReschedHands(PutAsleep(k, k.curr, ToInt32(delay), Sleep));
    case Receive => ReschedHands(WithState(k, k.curr, Recv));
    case RecvTime(maxwait) => ReschedHands(PutAsleep(k, k.curr, maxwait, RecTim));
  }

  lemma WaitHands(k: Kernel, s: int)
    requires WellFormed(k) && k.curr !in k.owing
    ensures Handed(k, WaitCall(k, s).0)
  {
    hide Resched;
    if !BadSem(s) && k.sems[s].used {
      var k1 := WithCount(k, s, k.sems[s].count - 1);
      var k2 := k1.(procs := k1.procs[k.curr := k1.procs[k.curr].(sem := s)]);
      ReschedHands(WithState(WithList(k2, s, k2.lists[s] + [k2.curr]), k2.curr, Wait));
    }
  }

  lemma MakeReadyHands(k: Kernel, p: nat)
    requires WellFormed(k) && p < NPROC && k.curr !in k.owing
    ensures Handed(k, MakeReady(k, p)) && Handed(k, MakeReady(TakeAwake(k, p), p))
  {
    hide Resched, InsertAt, Place, RemoveAt, IndexOf, ToInt32;
    ReschedHands(PutReady(k, p));
    ReschedHands(PutReady(TakeAwake(k, p), p));
  }

  lemma ReadyingHands(k: Kernel, c: Call)
    requires WellFormed(k) && k.curr !in k.owing && (c.Send? || c.Suspend? || c.Resume?)
    ensures Handed(k, Do(k, c).0)
  {
    hide TakeAwake, MakeReady, Resched, RemoveAt, IndexOf, SuspendCall;
    match c
    case Send(p, msg) =>
      if !BadPid(k, p) { MakeReadyHands(k.(procs := k.procs[p := k.procs[p].(msg := msg, hasMsg := true)]), p); }
    case Suspend(p) => SuspendHands(k, p);
    case Resume(p) => if !BadPid(k, p) { MakeReadyHands(k, p); }
  }

  lemma SuspendHands(k: Kernel, p: int)
    requires WellFormed(k) && k.curr !in k.owing
    ensures Handed(k, SuspendCall(k, p).0)
  {
    hide Resched, RemoveAt, IndexOf;
    if !BadPid(k, p) { ReschedHands(WithState(k, p, Susp)); }
  }

  lemma CallHands(k: Kernel, c: Call)
    requires WellFormed(k) && k.curr !in k.owing && !c.Tick?
    ensures Handed(k, Do(k, c).0)
  {
    hide SignalCall, SignalNCall, SemResetCall, SemDeleteCall, DeferStop, WaitCall, SleepMsCall, ReceiveCall,
      RecvTimeCall, SendCall, SuspendCall, ResumeCall, FreeSem;
    match c
    case StopDefer => DeferStopHands(k);
    case SemCreate(n) =>
    case Take =>
    case StartDefer =>
    case Create(p, prio) =>
    case _ =>
      if c.Send? || c.Suspend? || c.Resume? { ReadyingHands(k, c); }
      else if c.SignalTo? || c.SignalN? || c.SemReset? || c.SemDelete? { SemCallsHand(k, c); }
      else { BlockingHands(k, c); }
  }

  lemma TickSleepersHand(k: Kernel)
    requires WellFormed(k) && k.curr !in k.owing
    ensures Handed(k, TickSleepers(k))
  {
    hide ReadyTimes, DeferStop, Expired, ToInt32;
    var l := k.lists[SLEEPQ];
    if l != [] {
      var k1 := k.(key := k.key[l[0] := ToInt32(k.key[l[0]] - 1)]);
      var n := Expired(k1.lists[SLEEPQ], k1.key);
      ReadyTimesHold(DeferStart(k1), SLEEPQ, n);
      DeferStopHands(ReadyTimes(DeferStart(k1), SLEEPQ, n));
    }
  }

  lemma CountDownHands(k: Kernel)
    requires WellFormed(k) && Slice(k)
    ensures var k' := CountDown(k);
            && Slice(k') && k'.owing == k.owing - {k'.curr}
            && if k'.curr != k.curr then k'.preempt == SliceOf(k, k'.curr) && k.preempt == 1
               else k'.preempt == if k.preempt == 1 then QUANTUM else k.preempt - 1
  {
    var k1 := k.(preempt := QUANTUM);
    assert k.(preempt := k.preempt - 1).(preempt := QUANTUM) == k1;
    ReschedHands(k1);
    hide Resched;
  }

  /** The clock interrupt takes the processor away from the current process in favour of those it wakes. */
  predicate LosesInTick(k: Kernel)
    requires WellFormed(k)
  {
    TickSleepers(k).curr != k.curr
  }

  lemma TickHands(k: Kernel)
    requires WellFormed(k) && Slice(k)
    ensures var k' := ClockTick(k);
            && Slice(k') && k'.owing == (if LosesInTick(k) then k.owing + {k.curr} else k.owing) - {k'.curr}
            && (k'.curr != k.curr ==> k'.preempt == SliceOf(k, k'.curr))
  {
    hide TickSleepers, CountDown;
    TickSleepersHand(k);
    if !LosesInTick(k) { CountDownHands(TickSleepers(k)); }
  }

  /** A process that gets the processor has a whole slice if it owes nothing, and a tick less otherwise; it owes a
      countdown, until then, if a clock interrupt took the processor away from it for those that woke. */
  lemma DoHands(k: Kernel, c: Call)
    requires WellFormed(k) && Slice(k)
    ensures var k' := Do(k, c).0;
            && Slice(k')
            && k'.owing == (if c.Tick? && LosesInTick(k) then k.owing + {k.curr} else k.owing) - {k'.curr}
            && (k'.curr != k.curr ==> k'.preempt == SliceOf(k, k'.curr))
  {
    hide ClockTick, TickSleepers;
    if c.Tick? {
      TickHands(k);
    } else {
      CallHands(k, c);
      hide Do;
    }
  }

  // --- over runs ---

  lemma InitialSlice()
    ensures Slice(Initial()) && Initial().owing == {}
  {
  }

  /** In every state of a run the slice counter is at least 1, so that it may be unsigned, and at most a quantum. */
  lemma {:induction false} SliceAlways(states: seq<Kernel>, calls: seq<Call>, i: nat)
    requires IsRun(states, calls) && i <= |calls|
    ensures |states| == |calls| + 1 && WellFormed(states[i]) && Slice(states[i])
    ensures i < |calls| ==> WellFormed(states[i + 1]) && states[i + 1] == Do(states[i], calls[i]).0
  {
    hide Do, May, Initial, Slice;
    InitialSlice();
    if i > 0 {
      SliceAlways(states, calls, i - 1);
      DoHands(states[i - 1], calls[i - 1]);
    }
  }

  /** Step `j` was a clock interrupt that took the processor away from `p` for those that woke. */
  ghost predicate LostAt(states: seq<Kernel>, calls: seq<Call>, j: nat, p: int)
    requires j < |calls| <= |states|
  {
    calls[j].Tick? && states[j].curr == p && WellFormed(states[j]) && LosesInTick(states[j])
  }

  /** The last time that `p` lost the processor, before state `i`, it lost it so. */
  ghost predicate LostInTick(states: seq<Kernel>, calls: seq<Call>, i: nat, p: int)
    requires i <= |calls| < |states|
  {
    exists j :: 0 <= j < i && LostAt(states, calls, j, p) && forall l :: j < l <= i ==> states[l].curr != p
  }

  lemma LostNext(states: seq<Kernel>, calls: seq<Call>, i: nat, p: int)
    requires 0 < i <= |calls| < |states|
    ensures LostInTick(states, calls, i, p) <==>
            states[i].curr != p && (LostAt(states, calls, i - 1, p) || LostInTick(states, calls, i - 1, p))
  {
    hide LostAt;
    if states[i].curr != p && LostInTick(states, calls, i - 1, p) {
      var j :| 0 <= j < i - 1 && LostAt(states, calls, j, p) && forall l :: j < l <= i - 1 ==> states[l].curr != p;
      assert LostAt(states, calls, j, p) && forall l :: j < l <= i ==> states[l].curr != p;
    }
  }

  /** Just those processes owe a countdown that lost the processor so and have not had it since. */
  lemma {:induction false} OwesExactly(states: seq<Kernel>, calls: seq<Call>, i: nat, p: int)
    requires IsRun(states, calls) && i <= |calls|
    ensures |states| == |calls| + 1
    ensures p in states[i].owing <==> LostInTick(states, calls, i, p)
  {
    hide Do, May, Initial, Slice, LostInTick, LosesInTick;
    SliceAlways(states, calls, i);
    if i == 0 {
      InitialSlice();
      assert !LostInTick(states, calls, 0, p) by { NeverLost(states, calls, p); }
    } else {
      SliceAlways(states, calls, i - 1);
      OwesExactly(states, calls, i - 1, p);
      DoHands(states[i - 1], calls[i - 1]);
      LostNext(states, calls, i, p);
    }
  }

  lemma NeverLost(states: seq<Kernel>, calls: seq<Call>, p: int)
    requires |calls| < |states|
    ensures !LostInTick(states, calls, 0, p)
  {
  }

  /** Whenever the processor passes to another process, that has a whole quantum if and only if it did not lose the
      processor to those that a clock interrupt woke when it had it last; otherwise it has a tick less. */
  lemma TurnBegins(states: seq<Kernel>, calls: seq<Call>, i: nat)
    requires IsRun(states, calls) && i < |calls| < |states| && states[i + 1].curr != states[i].curr
    ensures states[i + 1].preempt ==
            if LostInTick(states, calls, i, states[i + 1].curr) then QUANTUM - 1 else QUANTUM
  {
    hide Do, May, IsRun, LostInTick, LosesInTick;
    SliceAlways(states, calls, i);
    OwesExactly(states, calls, i, states[i + 1].curr);
    DoHands(states[i], calls[i]);
  }

  // --- turns while nobody wakes ---

  /** How many ticks the `i`-th turn from now lasts while nobody wakes: the first what is left of the slice, then a
      quantum each, less one for whoever still owes it when its turn comes first. */
  function TurnTicks(k: Kernel, i: nat): int
    requires WellFormed(k)
  {
    if i == 0 then k.preempt else if i < |Ring(k)| then SliceOf(k, Ring(k)[i]) else QUANTUM
  }

  /** The ticks of the first `n` turns. */
  function TicksOf(k: Kernel, n: nat): int
    requires WellFormed(k)
  {
    if n == 0 then 0 else TicksOf(k, n - 1) + TurnTicks(k, n - 1)
  }

  /** State `k'` is in the `n`-th turn from `k`, with `left` ticks to go. */
  ghost predicate InTurn(k: Kernel, k': Kernel, n: nat, left: int)
    requires WellFormed(k)
  {
    && Plain(k') && WellFormed(k') && Ring(k') == RotateBy(Ring(k), n) && Slice(k') && k'.preempt == left
    && forall i :: 0 <= i < |Ring(k)| ==> (Ring(k)[i] in k'.owing <==> i > n && Ring(k)[i] in k.owing)
  }

  /** No process stands in its ring twice. */
  lemma RingOnce(k: Kernel)
    requires Plain(k)
    ensures WellFormed(k) && forall i, j :: 0 <= i < j < |Ring(k)| ==> Ring(k)[i] != Ring(k)[j]
  {
    PlainFacts(k);
    StandsAt(k, 0, READYLIST);
    hide Inv;
    var l := ReadyList(k);
    forall i, j | 0 <= i < j < |Ring(k)|
      ensures Ring(k)[i] != Ring(k)[j]
    {
      assert Ring(k)[j] == l[j - 1];
      if i > 0 { assert Ring(k)[i] == l[i - 1]; }
    }
  }

  /** Whose turn comes next. */
  lemma NextInTurn(r: seq<int>, n: nat)
    requires r != []
    ensures RotateBy(r, n) != [] && |RotateBy(r, n)| == |r| && RotateBy(r, n + 1) == Rotate(RotateBy(r, n))
    ensures RotateBy(r, n)[0] == r[n % |r|] && RotateBy(r, n + 1)[0] == r[(n + 1) % |r|]
    ensures n + 1 < |r| ==> (n + 1) % |r| == n + 1
  {
    hide RotateBy, Rotate;
    FirstTurn(r, n);
    FirstTurn(r, n + 1);
    NextTurn(r, n + 1);
    if n + 1 < |r| { ModIs(n + 1, |r|, 0, n + 1); }
  }

  /** A tick that wakes nobody counts the slice down, and at its end passes the processor on. */
  lemma SleepyTick(k: Kernel)
    requires Plain(k) && WellFormed(k) && Slice(k) && Woken(k) == []
    ensures var t := ClockTick(k);
            && Plain(t) && Slice(t) && Ring(t) == (if k.preempt == 1 then Rotate(Ring(k)) else Ring(k))
            && t.owing == k.owing - {t.curr}
            && if k.preempt == 1 && |Ring(k)| > 1 then t.curr != k.curr && t.preempt == SliceOf(k, t.curr)
               else t.curr == k.curr && t.preempt == if k.preempt == 1 then QUANTUM else k.preempt - 1
  {
    SleepersSlice(k);
    RingAlone(k);
    hide Inv, TickSleepers, CountDown, Ring, Rotate;
    TickTurns(k);
    CountDownHands(TickSleepers(k));
    assert ClockTick(k) == CountDown(TickSleepers(k));
  }

  /** A tick that wakes nobody, within a turn or at its end. */
  lemma TickInTurn(k: Kernel, k': Kernel, n: nat, left: int)
    requires WellFormed(k) && Plain(k) && InTurn(k, k', n, left) && Woken(k') == []
    ensures left > 1 ==> InTurn(k, ClockTick(k'), n, left - 1)
    ensures left == 1 ==> InTurn(k, ClockTick(k'), n + 1, TurnTicks(k, n + 1))
  {
    hide Plain, Ring, RotateBy, Rotate, Woken, ClockTick, Slice;
    var r, t := Ring(k), ClockTick(k');
    RingOnce(k);
    NextInTurn(r, n);
    SleepyTick(k');
    assert |Ring(k')| == |r| && t.curr == Ring(t)[0] && k'.curr == Ring(k')[0] && k'.curr == r[n % |r|];
    if left == 1 {
      var j := (n + 1) % |r|;
      assert t.curr == r[j];
      forall i | 0 <= i < |r|
        ensures r[i] in t.owing <==> i > n + 1 && r[i] in k.owing
      {
        assert r[i] == r[j] <==> i == j;
      }
    }
  }

  /** As long as nobody wakes, the processes of the ring that do not block take turns of a quantum each, one less for
      whoever still owes a countdown: after `m` ticks the turn is the one that they fall into. */
  lemma {:induction false} ShareProcessor(k: Kernel, n: nat, m: nat)
    requires Plain(k) && WellFormed(k) && Slice(k) && TicksOf(k, n) <= m < TicksOf(k, n + 1)
    requires forall i :: 0 <= i < m ==> Woken(Ticked(k, i)) == []
    ensures InTurn(k, Ticked(k, m), n, TicksOf(k, n + 1) - m)
    ensures Ticked(k, m).curr == Ring(k)[n % |Ring(k)|]
    decreases m
  {
    hide Plain, Ring, Woken, ClockTick, RotateBy, InTurn, TurnTicks, Slice;
    TurnsBegin(k, n);
    if m > 0 {
      var n0 := if m - 1 >= TicksOf(k, n) then n else n - 1;
      ShareProcessor(k, n0, m - 1);
      TickInTurn(k, Ticked(k, m - 1), n0, TicksOf(k, n0 + 1) - (m - 1));
    } else {
      StartsTurn(k);
      TurnsBegin(k, 0);
    }
    HasTurn(k, Ticked(k, m), n, TicksOf(k, n + 1) - m);
  }

  lemma StartsTurn(k: Kernel)
    requires Plain(k) && WellFormed(k) && Slice(k)
    ensures InTurn(k, k, 0, k.preempt) && TurnTicks(k, 0) == k.preempt
  {
    FirstTurn(Ring(k), 0);
    RingOnce(k);
    hide Plain, RotateBy, Ring;
    assert forall i :: 0 <= i < |Ring(k)| && Ring(k)[i] in k.owing ==> i > 0;
  }

  lemma HasTurn(k: Kernel, k': Kernel, n: nat, left: int)
    requires WellFormed(k) && InTurn(k, k', n, left)
    ensures k'.curr == Ring(k)[n % |Ring(k)|]
  {
    FirstTurn(Ring(k), n);
    hide RotateBy;
  }

  /** Every turn lasts at least a tick. */
  lemma {:induction false} TurnsBegin(k: Kernel, n: nat)
    requires WellFormed(k) && Slice(k)
    ensures TicksOf(k, n) >= n && TicksOf(k, n + 1) == TicksOf(k, n) + TurnTicks(k, n) > TicksOf(k, n)
    ensures n > 0 ==> TicksOf(k, n) == TicksOf(k, n - 1) + TurnTicks(k, n - 1) > TicksOf(k, n - 1)
  {
    hide Ring;
    if n > 0 {
      TurnsBegin(k, n - 1);
    }
  }
}
