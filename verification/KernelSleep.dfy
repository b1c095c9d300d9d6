/** What each kernel call does to the list of sleepers. */
module KernelSleep {
  import opened Codes
  import opened QueueSpec
  import opened KernelSpec
  import opened KernelInv
  import opened KernelCalls
  import Delays

  function Pairs(l: seq<int>, key: seq<int>): (s: seq<Delays.Sleeper>)
    requires |key| == NPROC && Pids(l)
    ensures |s| == |l|
  {
    if l == [] then [] else [Delays.Sleeper(l[0], key[l[0]])] + Pairs(l[1..], key)
  }

  function Sleepers(k: Kernel): seq<Delays.Sleeper>
    requires WellFormed(k)
  {
    Pairs(k.lists[SLEEPQ], k.key)
  }

  /** The list of sleepers is the queue, in order. */
  lemma {:induction false} PairsNames(l: seq<int>, key: seq<int>)
    requires |key| == NPROC && Pids(l)
    ensures Delays.Names(Pairs(l, key)) == l
  {
    if l != [] { PairsNames(l[1..], key); }
  }

  lemma {:induction false} PairsSame(l: seq<int>, key: seq<int>, key': seq<int>)
    requires |key| == |key'| == NPROC && Pids(l)
    requires forall i :: 0 <= i < |l| ==> key'[l[i]] == key[l[i]]
    ensures Pairs(l, key') == Pairs(l, key)
  {
    if l != [] {
      PairsSame(l[1..], key, key');
    }
  }

  lemma PairsCons(x: int, l: seq<int>, key: seq<int>)
    requires |key| == NPROC && Pids(l) && 0 <= x < NPROC
    ensures Pids([x] + l) && Pairs([x] + l, key) == [Delays.Sleeper(x, key[x])] + Pairs(l, key)
  {
    assert ([x] + l)[1..] == l;
  }

  lemma Uncons(l: seq<int>, i: nat, p: int)
    requires l != [] && 0 < i <= |l|
    ensures InsertAt(l, i, p) == [l[0]] + InsertAt(l[1..], i - 1, p)
    ensures i < |l| ==> RemoveAt(l, i) == [l[0]] + RemoveAt(l[1..], i - 1)
  {
  }

  /** A process put first, with any key; the one behind it counts from there. */
  lemma PairsFront(l: seq<int>, key: seq<int>, p: int, x: int)
    requires |key| == NPROC && Pids(l) && NoDup(l) && 0 <= p < NPROC && p !in l
    ensures Pids(InsertAt(l, 0, p))
    ensures Pairs(InsertAt(l, 0, p), DeltaKeys(key, l, 0, p, x))
            == [Delays.Sleeper(p, x)]
               + if l == [] then [] else [Delays.Sleeper(l[0], ToInt32(key[l[0]] - x))] + Pairs(l, key)[1..]
  {
    var key' := DeltaKeys(key, l, 0, p, x);
    FrontKeys(l, key, p, x);
    assert InsertAt(l, 0, p) == [p] + l;
    hide NoDup, InsertAt, ToInt32, DeltaKeys, Pairs;
    if l != [] {
      assert l == [l[0]] + l[1..];
      PairsSame(l[1..], key, key');
      PairsCons(l[0], l[1..], key');
      PairsUncons(l, key);
    }
    PairsCons(p, l, key');
  }

  lemma FrontKeys(l: seq<int>, key: seq<int>, p: int, x: int)
    requires |key| == NPROC && Pids(l) && NoDup(l) && 0 <= p < NPROC && p !in l
    ensures var key' := DeltaKeys(key, l, 0, p, x);
            && |key'| == NPROC && key'[p] == x && (l != [] ==> key'[l[0]] == ToInt32(key[l[0]] - x))
            && forall i :: 0 < i < |l| ==> key'[l[i]] == key[l[i]]
  {
    hide ToInt32;
    assert l != [] ==> l[0] != p;
    assert forall i :: 0 < i < |l| ==> l[i] != l[0] && l[i] != p;
  }

  lemma PairsInsertFront(l: seq<int>, key: seq<int>, p: int, x: int)
    requires |key| == NPROC && Pids(l) && NoDup(l) && 0 <= p < NPROC && p !in l && l != []
    requires 0 <= x < key[l[0]] <= MAXINT
    ensures Pids(InsertAt(l, 0, p))
    ensures Pairs(InsertAt(l, 0, p), DeltaKeys(key, l, 0, p, x)) == Delays.Insert(Pairs(l, key), p, x)
  {
    PairsFront(l, key, p, x);
    PairsUncons(l, key);
    hide Pairs, DeltaKeys, InsertAt, ToInt32;
  }

  lemma {:induction false} PairsInsert(l: seq<int>, key: seq<int>, p: int, x: int)
    requires |key| == NPROC && Pids(l) && NoDup(l) && 0 <= p < NPROC && p !in l
    requires Delays.Fits(Pairs(l, key)) && 0 <= x <= MAXINT
    ensures var (i, y) := DeltaPlace(l, key, x);
            && Pids(InsertAt(l, i, p))
            && Pairs(InsertAt(l, i, p), DeltaKeys(key, l, i, p, y)) == Delays.Insert(Pairs(l, key), p, x)
  {
    hide InsertAt, DeltaKeys, ToInt32;
    var (i, y) := DeltaPlace(l, key, x);
    if l == [] {
      PairsFront(l, key, p, x);
    } else {
      hide Pairs, Delays.Insert;
      InsertMembers(l, i, p);
      PairsUncons(l, key);
      Delays.TotalTail(Pairs(l, key));
      if key[l[0]] > x {
        PairsInsertFront(l, key, p, x);
      } else {
        PairsInsert(l[1..], key, p, x - key[l[0]]);
        PairsInsertStep(l, key, p, x, i - 1, y);
      }
    }
  }

  lemma PairsUncons(l: seq<int>, key: seq<int>)
    requires |key| == NPROC && Pids(l) && l != []
    ensures Pairs(l, key) == [Delays.Sleeper(l[0], key[l[0]])] + Pairs(l[1..], key)
    ensures Pairs(l, key)[1..] == Pairs(l[1..], key)
  {
  }

  lemma DeltaKeysStep(l: seq<int>, key: seq<int>, p: int, i: nat, y: int)
    requires |key| == NPROC && Pids(l) && NoDup(l) && 0 <= p < NPROC && p !in l && i < |l|
    ensures DeltaKeys(key, l, i + 1, p, y) == DeltaKeys(key, l[1..], i, p, y)
    ensures DeltaKeys(key, l, i + 1, p, y)[l[0]] == key[l[0]]
  {
    if i + 1 < |l| { Apart(l, i + 1); }
  }

  lemma InsertFurther(s: seq<Delays.Sleeper>, p: int, x: int)
    requires s != [] && s[0].delay <= x
    ensures Delays.Insert(s, p, x) == [s[0]] + Delays.Insert(s[1..], p, x - s[0].delay)
  {
  }

  lemma PairsInsertStep(l: seq<int>, key: seq<int>, p: int, x: int, i: nat, y: int)
    requires |key| == NPROC && Pids(l) && NoDup(l) && 0 <= p < NPROC && p !in l && l != [] && key[l[0]] <= x
    requires i < |l| && Pids(InsertAt(l[1..], i, p))
    requires Pairs(InsertAt(l[1..], i, p), DeltaKeys(key, l[1..], i, p, y))
             == Delays.Insert(Pairs(l[1..], key), p, x - key[l[0]])
    ensures Pids(InsertAt(l, i + 1, p))
    ensures Pairs(InsertAt(l, i + 1, p), DeltaKeys(key, l, i + 1, p, y)) == Delays.Insert(Pairs(l, key), p, x)
  {
    var key' := DeltaKeys(key, l, i + 1, p, y);
    DeltaKeysStep(l, key, p, i, y);
    Uncons(l, i + 1, p);
    hide InsertAt, NoDup, DeltaKeys, Pairs, Delays.Insert;
    PairsUncons(l, key);
    PairsCons(l[0], InsertAt(l[1..], i, p), key');
    InsertFurther(Pairs(l, key), p, x);
  }

  lemma Apart(l: seq<int>, i: nat)
    requires NoDup(l) && 0 < i < |l|
    ensures l[0] != l[i]
  {
  }

  /** The keys after place `i` of the list is taken out. */
  function RemoveKeys(key: seq<int>, l: seq<int>, i: nat): (r: seq<int>)
    requires |key| == NPROC && Pids(l) && i < |l|
    ensures |r| == NPROC
  {
    if i + 1 < |l| then key[l[i + 1] := ToInt32(key[l[i + 1]] + key[l[i]])] else key
  }

  lemma RemoveFurther(s: seq<Delays.Sleeper>, p: int)
    requires s != [] && s[0].pid != p
    ensures Delays.Remove(s, p) == [s[0]] + Delays.Remove(s[1..], p)
  {
  }

  lemma RemoveKeysStep(l: seq<int>, key: seq<int>, i: nat)
    requires |key| == NPROC && Pids(l) && NoDup(l) && 0 < i < |l|
    ensures RemoveKeys(key, l[1..], i - 1) == RemoveKeys(key, l, i)
    ensures RemoveKeys(key, l, i)[l[0]] == key[l[0]] && l[0] != l[i]
  {
    Apart(l, i);
    if i + 1 < |l| { Apart(l, i + 1); }
  }

  lemma RemoveFront(s: seq<Delays.Sleeper>)
    requires s != []
    ensures Delays.Remove(s, s[0].pid) ==
            if |s| == 1 then [] else [Delays.Sleeper(s[1].pid, s[1].delay + s[0].delay)] + s[1..][1..]
  {
  }

  lemma RemoveKeysFirst(l: seq<int>, key: seq<int>)
    requires |key| == NPROC && Pids(l) && NoDup(l) && |l| > 1 && 0 <= key[l[1]] + key[l[0]] <= MAXINT
    ensures RemoveKeys(key, l, 0)[l[1]] == key[l[1]] + key[l[0]]
    ensures Pairs(l[1..][1..], RemoveKeys(key, l, 0)) == Pairs(l[1..][1..], key)
  {
    assert l[1..][1..] == l[2..];
    hide Pairs;
    PairsSame(l[2..], key, RemoveKeys(key, l, 0));
  }

  lemma PairsRemoveFirst(l: seq<int>, key: seq<int>)
    requires |key| == NPROC && Pids(l) && NoDup(l) && l != [] && Delays.Fits(Pairs(l, key))
    ensures Pids(RemoveAt(l, 0))
    ensures Pairs(RemoveAt(l, 0), RemoveKeys(key, l, 0)) == Delays.Remove(Pairs(l, key), l[0])
  {
    hide RemoveKeys, Pairs, Delays.Remove, NoDup;
    assert RemoveAt(l, 0) == l[1..];
    if |l| > 1 {
      PairsUncons(l, key);
      PairsUncons(l[1..], key);
      Delays.TotalTail(Pairs(l, key));
      RemoveKeysFirst(l, key);
    }
    hide RemoveAt;
    PairsUncons(l, key);
    RemoveFront(Pairs(l, key));
    if |l| > 1 {
      PairsUncons(l[1..], key);
      PairsUncons(l[1..], RemoveKeys(key, l, 0));
    }
  }

  lemma {:induction false} PairsRemove(l: seq<int>, key: seq<int>, i: nat)
    requires |key| == NPROC && Pids(l) && NoDup(l) && i < |l| && Delays.Fits(Pairs(l, key))
    ensures Pids(RemoveAt(l, i))
    ensures Pairs(RemoveAt(l, i), RemoveKeys(key, l, i)) == Delays.Remove(Pairs(l, key), l[i])
  {
    if i == 0 {
      PairsRemoveFirst(l, key);
    } else {
      PairsUncons(l, key);
      Delays.TotalTail(Pairs(l, key));
      PairsRemove(l[1..], key, i - 1);
      RemoveMembers(l, i);
      Uncons(l, i, 0);
      RemoveKeysStep(l, key, i);
      hide RemoveAt, NoDup, RemoveKeys, Pairs, Delays.Remove;
      PairsUncons(l, key);
      PairsCons(l[0], RemoveAt(l[1..], i - 1), RemoveKeys(key, l, i));
      RemoveFurther(Pairs(l, key), l[i]);
    }
  }

  lemma {:induction false} PairsSplit(l: seq<int>, key: seq<int>)
    requires |key| == NPROC && Pids(l)
    ensures var n := Expired(l, key);
            Delays.Split(Pairs(l, key)) == (l[..n], Pairs(l[n..], key))
  {
    if l != [] && key[l[0]] <= 0 {
      PairsSplit(l[1..], key);
      var n := Expired(l[1..], key);
      assert Pairs(l, key) == [Delays.Sleeper(l[0], key[l[0]])] + Pairs(l[1..], key);
      assert l[1..][n..] == l[n + 1..];
      assert [l[0]] + l[1..][..n] == l[..n + 1];
    }
  }

  /** The sleepers and their delays are the same. */
  ghost predicate Undisturbed(k: Kernel, k': Kernel)
  {
    && WellFormed(k) && WellFormed(k')
    && k'.lists[SLEEPQ] == k.lists[SLEEPQ]
    && forall i :: 0 <= i < |k.lists[SLEEPQ]| ==> k'.key[k.lists[SLEEPQ][i]] == k.key[k.lists[SLEEPQ][i]]
  }

  lemma UndisturbedSame(k: Kernel, k': Kernel)
    requires Undisturbed(k, k')
    ensures Sleepers(k') == Sleepers(k)
  {
    PairsSame(k.lists[SLEEPQ], k.key, k'.key);
  }

  lemma UndisturbedRefl(k: Kernel)
    requires WellFormed(k)
    ensures Undisturbed(k, k)
  {
  }

  lemma UndisturbedTrans(k: Kernel, k1: Kernel, k2: Kernel)
    requires Undisturbed(k, k1) && Undisturbed(k1, k2)
    ensures Undisturbed(k, k2)
  {
  }

  lemma PutReadySleep(k: Kernel, p: nat)
    requires WellFormed(k) && p < NPROC && p !in k.lists[SLEEPQ]
    ensures Undisturbed(k, PutReady(k, p))
  {
  }

  lemma NotAsleep(k: Kernel, p: nat)
    requires Core(k) && p < NPROC && Home(k.procs[p]) != SLEEPQ
    ensures p !in k.lists[SLEEPQ]
  {
    assert AtHome(k, p, SLEEPQ);
  }

  lemma ReschedSleep(k: Kernel)
    requires Core(k)
    ensures Undisturbed(k, Resched(k))
  {
    if k.procs[k.curr].state.Curr? {
      NotAsleep(k, k.curr);
      hide Core;
      PutReadySleep(k, k.curr);
    }
  }

  lemma MakeReadySleep(k: Kernel, p: nat)
    requires Core(k) && p < NPROC && Home(k.procs[p]) == -1 && !k.procs[p].state.Curr?
    ensures Undisturbed(k, MakeReady(k, p))
  {
    NotAsleep(k, p);
    PutReadySleep(k, p);
    PutReadyCore(k, p);
    ReschedSleep(PutReady(k, p));
    hide Core, PutReady, Resched;
    UndisturbedTrans(k, PutReady(k, p), Resched(PutReady(k, p)));
  }

  /** Making the first of a queue ready touches the sleepers only by taking that one away. */
  lemma ReadyFirstSleep(k: Kernel, q: nat)
    requires Core(k) && Running(k) && q < NLISTS && q != READYLIST && k.lists[q] != []
    ensures Undisturbed(WithList(k, q, k.lists[q][1..]), ReadyFirst(k, q))
  {
    hide Resched, PutReady, Core;
    CoreFormed(k);
    OutOfQueue(k, q);
    var p, l := k.lists[q][0], k.lists[q];
    var k0 := WithList(k, q, l[1..]);
    var k1 := WithState(k0, p, Susp);
    NotAsleep(k1, p);
    PutReadySleep(k0, p);
    PutReadyCore(k1, p);
    ReadyFromAny(k0, p, Susp);
    ReschedSleep(PutReady(k1, p));
    UndisturbedTrans(k0, PutReady(k0, p), Resched(PutReady(k0, p)));
  }

  lemma {:induction false} SignalTimesSleep(k: Kernel, s: nat, n: nat)
    requires Core(k) && Scheduled(k) && s < NSEM
    ensures Undisturbed(k, SignalTimes(k, s, n))
  {
    hide Core, Scheduled, SignalOnce, Undisturbed;
    CoreFormed(k);
    UndisturbedRefl(k);
    if n > 0 {
      var k1 := SignalTimes(k, s, n - 1);
      SignalTimesSleep(k, s, n - 1);
      SignalTimesCore(k, s, n - 1);
      SignalOnceSleep(k1, s);
      UndisturbedTrans(k, k1, SignalOnce(k1, s));
    }
  }

  lemma SignalOnceSleep(k: Kernel, s: nat)
    requires Core(k) && Scheduled(k) && s < NSEM
    ensures Undisturbed(k, SignalOnce(k, s))
  {
    var k1 := WithCount(k, s, ToInt32(k.sems[s].count + 1));
    SemStay(k, k1.sems);
    hide Core, ReadyFirst, ToInt32;
    if k.sems[s].count < 0 && k.lists[s] != [] {
      ScheduledRuns(k1);
      ReadyFirstSleep(k1, s);
      hide Scheduled;
    }
  }

  lemma {:induction false} ReadyTimesSleep(k: Kernel, q: nat, n: nat)
    requires Core(k) && Scheduled(k) && q < NLISTS && q != READYLIST && n <= |k.lists[q]|
    ensures Undisturbed(WithList(k, q, k.lists[q][n..]), ReadyTimes(k, q, n))
  {
    hide Core, Scheduled, ReadyFirst;
    CoreFormed(k);
    if n > 0 {
      var k1 := ReadyTimes(k, q, n - 1);
      ReadyTimesSleep(k, q, n - 1);
      ReadyTimesInv(k, q, n - 1);
      ScheduledRuns(k1);
      ReadyFirstSleep(k1, q);
      assert k.lists[q][n - 1..][1..] == k.lists[q][n..];
    }
  }

  lemma DeferStopSleep(k: Kernel)
    requires Core(k)
    ensures Undisturbed(k, DeferStop(k).0)
  {
    if k.ndefers > 0 {
      var k1 := k.(ndefers := k.ndefers - 1);
      Stay(k, k1);
      ReschedSleep(k1);
    }
  }

  /** Does the call put the current process to sleep? */
  predicate Sleeps(k: Kernel, c: Call)
    requires WellFormed(k)
  {
    (c.SleepMs? && c.delay > 0) || (c.RecvTime? && c.maxwait >= 0 && !k.procs[k.curr].hasMsg)
  }

  /** Does the call wake a timed receiver before its time? */
  predicate Wakes(k: Kernel, c: Call)
    requires WellFormed(k)
  {
    c.Send? && !BadPid(k, c.p) && !k.procs[c.p].hasMsg && k.procs[c.p].state.RecTim?
  }

  function Delay(c: Call): int
  {
    match c
    case SleepMs(delay) => delay
    case RecvTime(maxwait) => maxwait
    case _ => 0
  }

  /** What a call does to the list of sleepers: one insertion, one removal, one tick, or nothing. */
  function SleepersAfter(k: Kernel, c: Call): seq<Delays.Sleeper>
    requires WellFormed(k)
  {
    if Sleeps(k, c) then Delays.Insert(Sleepers(k), k.curr, Delay(c))
    else if Wakes(k, c) then Delays.Remove(Sleepers(k), c.p)
    else if c.Tick? then Delays.Tick(Sleepers(k)).1
    else Sleepers(k)
  }

  /** Giving up the processor leaves the list of sleepers as it then is. */
  lemma PutAsleepUndisturbed(k: Kernel, delay: int, st: PState)
    requires Inv(k) && k.procs[k.curr].state.Curr? && k.curr != NULLPROC && (st == Sleep || st == RecTim)
    ensures var k1 := PutAsleep(k, k.curr, delay, st); Undisturbed(k1, Resched(k1))
  {
    var p, l := k.curr, k.lists[SLEEPQ];
    StandsAt(k, p, READYLIST);
    var (i, y) := DeltaPlace(l, k.key, delay);
    if i < |l| { SleeperKeys(k, i); }
    LeaveRunning(k, SLEEPQ, i, k.procs[p].(state := st), DeltaKeys(k.key, l, i, p, y));
    hide DeltaKeys, DeltaPlace, InsertAt, Base, Resched;
    ReschedSleep(PutAsleep(k, p, delay, st));
  }

  lemma PutAsleepSleepers(k: Kernel, delay: int, st: PState)
    requires Inv(k) && k.procs[k.curr].state.Curr? && k.curr != NULLPROC && (st == Sleep || st == RecTim)
    requires Delays.Fits(Sleepers(k)) && 0 <= delay <= MAXINT
    ensures Sleepers(Resched(PutAsleep(k, k.curr, delay, st))) == Delays.Insert(Sleepers(k), k.curr, delay)
  {
    var p, l := k.curr, k.lists[SLEEPQ];
    NotAsleep(k, p);
    StandsAt(k, p, SLEEPQ);
    PairsInsert(l, k.key, p, delay);
    hide DeltaKeys, DeltaPlace, InsertAt, Inv, Resched, Pairs;
    PutAsleepUndisturbed(k, delay, st);
    var k1 := PutAsleep(k, p, delay, st);
    UndisturbedSame(k1, Resched(k1));
  }

  lemma AwakenSleepers(k: Kernel, p: nat)
    requires Inv(k) && p < NPROC && k.procs[p].state.RecTim? && Delays.Fits(Sleepers(k))
    ensures Sleepers(MakeReady(TakeAwake(k, p), p)) == Delays.Remove(Sleepers(k), p)
  {
    TakeAwakeCore(k, p);
    StandsAt(k, p, SLEEPQ);
    hide Base, Pairs, Resched, PutReady, AllCounted;
    var k1, l := TakeAwake(k, p), k.lists[SLEEPQ];
    var k2 := WithState(k1, p, Susp);
    var i := IndexOf(l, p);
    PairsRemove(l, k.key, i);
    assert k1.key == RemoveKeys(k.key, l, i) && k1.lists[SLEEPQ] == RemoveAt(l, i);
    hide TakeAwake, RemoveKeys, RemoveAt, IndexOf, Core;
    NotAsleep(k2, p);
    PutReadySleep(k1, p);
    PutReadyCore(k2, p);
    ReadyFromAny(k1, p, Susp);
    ReschedSleep(PutReady(k1, p));
    UndisturbedTrans(k1, PutReady(k1, p), MakeReady(k1, p));
    UndisturbedSame(k1, MakeReady(k1, p));
  }

  lemma WakeupSleepers(k: Kernel)
    requires Inv(k)
    ensures Sleepers(Wakeup(k)) == Delays.Split(Sleepers(k)).1
  {
    hide Core, Scheduled, ReadyTimes, Resched, Pairs;
    CoreFormed(k);
    DeferStartInv(k);
    var k0, l := DeferStart(k), k.lists[SLEEPQ];
    var n := Expired(l, k.key);
    ReadyTimesInv(k0, SLEEPQ, n);
    ReadyTimesSleep(k0, SLEEPQ, n);
    var k1 := ReadyTimes(k0, SLEEPQ, n);
    DeferStopSleep(k1);
    PairsSplit(l, k.key);
    UndisturbedSame(WithList(k0, SLEEPQ, l[n..]), k1);
    UndisturbedSame(k1, DeferStop(k1).0);
  }

  /** A tick with delays that are words: whom it wakes, and what it leaves. */
  function WordTick(s: seq<Delays.Sleeper>): (seq<int>, seq<Delays.Sleeper>)
  {
    if s == [] then ([], [])
    else
      var s1 := [s[0].(delay := ToInt32(s[0].delay - 1))] + s[1..];
      if s1[0].delay <= 0 then Delays.Split(s1) else ([], s1)
  }

  function AfterTick(s: seq<Delays.Sleeper>): seq<Delays.Sleeper>
  {
    WordTick(s).1
  }

  /** The keys after a tick has taken a millisecond off the first sleeper. */
  function Lowered(k: Kernel): (k': Kernel)
    requires WellFormed(k) && k.lists[SLEEPQ] != []
    ensures WellFormed(k') && k'.lists == k.lists
  {
    k.(key := k.key[k.lists[SLEEPQ][0] := ToInt32(k.key[k.lists[SLEEPQ][0]] - 1)])
  }

  lemma TickSleepersIs(k: Kernel)
    requires Inv(k) && k.lists[SLEEPQ] != []
    ensures WellFormed(k) && Inv(Lowered(k))
    ensures TickSleepers(k) == if Lowered(k).key[k.lists[SLEEPQ][0]] <= 0 then Wakeup(Lowered(k)) else Lowered(k)
  {
    hide Wakeup;
    RekeyInv(k, 0, ToInt32(k.key[k.lists[SLEEPQ][0]] - 1));
  }

  lemma LoweredSleepers(k: Kernel)
    requires Inv(k) && k.lists[SLEEPQ] != []
    ensures WellFormed(k) && Sleepers(k) != []
    ensures var s := Sleepers(k);
            && Sleepers(Lowered(k)) == [s[0].(delay := ToInt32(s[0].delay - 1))] + s[1..]
            && Lowered(k).key[k.lists[SLEEPQ][0]] == ToInt32(s[0].delay - 1)
  {
    var l := k.lists[SLEEPQ];
    StandsAt(k, l[0], SLEEPQ);
    hide Inv, Pairs, ToInt32;
    PairsHead(l, k.key, ToInt32(k.key[l[0]] - 1));
  }

  lemma TickSleepersWords(k: Kernel)
    requires Inv(k) && k.lists[SLEEPQ] != []
    ensures WellFormed(k) && Sleepers(TickSleepers(k)) == AfterTick(Sleepers(k))
  {
    hide Inv, Sleepers, TickSleepers, Lowered, Wakeup, ToInt32;
    TickSleepersIs(k);
    LoweredSleepers(k);
    if Lowered(k).key[k.lists[SLEEPQ][0]] <= 0 { WakeupSleepers(Lowered(k)); }
  }


  lemma TickSleepersSleepers(k: Kernel)
    requires Inv(k) && Delays.Fits(Sleepers(k))
    ensures Sleepers(TickSleepers(k)) == Delays.Tick(Sleepers(k)).1
  {
    if k.lists[SLEEPQ] != [] {
      TickSleepersWords(k);
      Delays.TotalTail(Sleepers(k));
      hide ToInt32, Inv, TickSleepers, Pairs;
    }
  }

  lemma PairsHead(l: seq<int>, key: seq<int>, x: int)
    requires |key| == NPROC && Pids(l) && NoDup(l) && l != []
    ensures Pairs(l, key[l[0] := x]) == [Delays.Sleeper(l[0], x)] + Pairs(l, key)[1..]
    ensures Pairs(l, key)[0] == Delays.Sleeper(l[0], key[l[0]])
  {
    assert forall i :: 0 < i < |l| ==> l[i] != l[0];
    PairsSame(l[1..], key, key[l[0] := x]);
    assert Pairs(l, key)[1..] == Pairs(l[1..], key);
  }

  lemma SemCallsSleep(k: Kernel, c: Call)
    requires Inv(k) && (c.SignalTo? || c.SignalN? || c.SemReset? || c.SemDelete?)
    ensures Undisturbed(k, Do(k, c).0)
  {
    hide Core, Scheduled, SignalTimes, ReadyTimes, SignalOnce, Undisturbed, Resched, ToInt32;
    CoreFormed(k);
    UndisturbedRefl(k);
    var s := c.s;
    if !BadSem(s) && k.sems[s].used {
      assert Counted(k, s);
      if c.SignalTo? {
        SignalOnceSleep(k, s);
      } else if c.SignalN? && c.n >= 0 {
        DeferStartInv(k);
        SignalsSleep(k, DeferStart(k), s, c.n);
      } else if c.SemDelete? {
        var k0 := k.(sems := k.sems[s := k.sems[s].(used := false)]);
        SemStay(k, k0.sems);
        DeferStartInv(k0);
        SignalsSleep(k, DeferStart(k0), s, if k.sems[s].count < 0 then -k.sems[s].count else 0);
      } else if c.SemReset? && c.n >= 0 {
        DeferStartInv(k);
        ResetSleep(k, s, c.n);
      }
    }
  }

  /** Signals under deferral, a last change of the count, and the end of the deferral. */
  lemma SignalsSleep(k: Kernel, k0: Kernel, s: nat, n: nat)
    requires WellFormed(k) && Core(k0) && Scheduled(k0) && s < NSEM
    requires k0.lists == k.lists && k0.key == k.key
    ensures var k1 := SignalTimes(k0, s, n);
            && Undisturbed(k, DeferStop(k1).0)
            && Undisturbed(k, DeferStop(WithCount(k1, s, ToInt32(k1.sems[s].count + 1))).0)
  {
    hide Core, Scheduled, SignalTimes, DeferStop, ToInt32;
    SignalTimesCore(k0, s, n);
    SignalTimesSleep(k0, s, n);
    var k1 := SignalTimes(k0, s, n);
    DeferStopSleep(k1);
    UndisturbedTrans(k, k1, DeferStop(k1).0);
    var k2 := WithCount(k1, s, ToInt32(k1.sems[s].count + 1));
    SemStay(k1, k2.sems);
    DeferStopSleep(k2);
    UndisturbedTrans(k, k2, DeferStop(k2).0);
  }

  lemma ResetSleep(k: Kernel, s: nat, n: nat)
    requires Inv(k) && s < NSEM
    ensures var k1 := ReadyTimes(DeferStart(k), s, |k.lists[s]|);
            Undisturbed(k, DeferStop(WithCount(k1, s, n)).0)
  {
    hide Core, Scheduled, ReadyTimes, DeferStop;
    CoreFormed(k);
    DeferStartInv(k);
    ReadyTimesInv(DeferStart(k), s, |k.lists[s]|);
    ReadyTimesSleep(DeferStart(k), s, |k.lists[s]|);
    var k1 := ReadyTimes(DeferStart(k), s, |k.lists[s]|);
    var k2 := WithCount(k1, s, n);
    SemStay(k1, k2.sems);
    DeferStopSleep(k2);
    UndisturbedTrans(k, k2, DeferStop(k2).0);
  }

  lemma WaitSleep(k: Kernel, s: int)
    requires Inv(k) && May(k, WaitOn(s))
    ensures Undisturbed(k, WaitCall(k, s).0)
  {
    if !BadSem(s) && k.sems[s].used && k.sems[s].count - 1 < 0 {
      var k1 := WithCount(k, s, k.sems[s].count - 1);
      SemStay(k, k1.sems);
      var pr := k.procs[k.curr].(sem := s, state := Wait);
      var l := k1.lists[s];
      assert InsertAt(l, |l|, k.curr) == l + [k.curr];
      LeaveRunning(k1, s, |l|, pr, k1.key);
      var k3 := WithList(k1, s, l + [k.curr]).(procs := k.procs[k.curr := pr], key := k1.key);
      ReschedSleep(k3);
      var k4 := k1.(procs := k1.procs[k.curr := k1.procs[k.curr].(sem := s)]);
      assert WithState(WithList(k4, s, l + [k.curr]), k.curr, Wait) == k3;
      hide Core, Resched;
      UndisturbedTrans(k, k3, Resched(k3));
    }
  }

  lemma BlockedSleep(k: Kernel, st: PState)
    requires Inv(k) && k.procs[k.curr].state.Curr? && k.curr != NULLPROC && (st == Recv || st == Susp)
    ensures Undisturbed(k, Resched(WithState(k, k.curr, st)))
  {
    var k1 := WithState(k, k.curr, st);
    Stay(k, k1);
    StandsAt(k, k.curr, READYLIST);
    hide Base;
    ReschedSleep(k1);
    hide Core, Resched;
    UndisturbedTrans(k, k1, Resched(k1));
  }

  lemma SendSleep(k: Kernel, p: int, msg: int)
    requires Inv(k) && !Wakes(k, Send(p, msg))
    ensures Undisturbed(k, SendCall(k, p, msg).0)
  {
    if !(BadPid(k, p) || k.procs[p].hasMsg) {
      MessageStay(k, p, msg);
      var k1 := k.(procs := k.procs[p := k.procs[p].(msg := msg, hasMsg := true)]);
      if k.procs[p].state.Recv? {
        MakeReadySleep(k1, p);
        hide Inv, MakeReady;
        UndisturbedTrans(k, k1, MakeReady(k1, p));
      }
    }
  }

  lemma OtherCallsSleep(k: Kernel, c: Call)
    requires Inv(k) && May(k, c) && !Sleeps(k, c) && !Wakes(k, c) && !c.Tick?
    requires !(c.SignalTo? || c.SignalN? || c.SemReset? || c.SemDelete? || c.WaitOn? || c.Send?)
    ensures Undisturbed(k, Do(k, c).0)
  {
    match c
    case SemCreate(n) =>
    case SleepMs(delay) => ReschedSleep(k);
    case Receive => if !k.procs[k.curr].hasMsg { BlockedSleep(k, Recv); }
    case RecvTime(maxwait) =>
    case Take =>
    case Suspend(p) =>
      if !BadPid(k, p) && p != NULLPROC && k.procs[p].state.Curr? { BlockedSleep(k, Susp); }
    case Resume(p) => if !BadPid(k, p) && k.procs[p].state.Susp? { MakeReadySleep(k, p); }
    case StartDefer =>
    case StopDefer => DeferStopSleep(k);
    case Create(p, prio) =>
  }

  lemma CountDownSleep(k: Kernel)
    requires Inv(k)
    ensures Undisturbed(k, CountDown(k))
  {
    SliceStay(k, QUANTUM, k.owing);
    ReschedSleep(k.(preempt := QUANTUM));
    CountDownIs(k);
    hide Resched, Core, CountDown;
    UndisturbedTrans(k, k.(preempt := QUANTUM), Resched(k.(preempt := QUANTUM)));
  }

  lemma PreemptSleep(k: Kernel)
    requires Inv(k)
    ensures Undisturbed(TickSleepers(k), ClockTick(k))
  {
    InvFormed(k);
    hide TickSleepers, CountDown, Inv;
    TickSleepersInv(k);
    CountDownSleep(TickSleepers(k));
  }

  // --- sleeps that a signed word cannot tell ---

  /** The list when a process asked for so many milliseconds that they became negative. */
  function LongList(s: seq<Delays.Sleeper>, p: int, n: uint32): (r: seq<Delays.Sleeper>)
    ensures r != []
  {
    [Delays.Sleeper(p, n - TWO32)]
    + if s == [] then [] else [Delays.Sleeper(s[0].pid, ToInt32(s[0].delay + TWO32 - n))] + s[1..]
  }

  lemma LongPlace(l: seq<int>, key: seq<int>, n: uint32)
    requires |key| == NPROC && Pids(l) && n > MAXINT && (l != [] ==> key[l[0]] >= 0)
    ensures ToInt32(n) == n - TWO32 && DeltaPlace(l, key, ToInt32(n)) == (0, n - TWO32)
  {
    hide ToInt32;
  }

  lemma PairsLong(l: seq<int>, key: seq<int>, p: int, n: uint32)
    requires |key| == NPROC && Pids(l) && NoDup(l) && 0 <= p < NPROC && p !in l
    ensures Pids(InsertAt(l, 0, p))
    ensures Pairs(InsertAt(l, 0, p), DeltaKeys(key, l, 0, p, n - TWO32)) == LongList(Pairs(l, key), p, n)
  {
    hide Pairs, DeltaKeys, InsertAt, ToInt32;
    PairsFront(l, key, p, n - TWO32);
    if l != [] { PairsUncons(l, key); }
  }

  /** How the call ends. */
  lemma SleepIs(k: Kernel, n: uint32)
    requires WellFormed(k) && n > 0 && DeltaPlace(k.lists[SLEEPQ], k.key, ToInt32(n)) == (0, n - TWO32)
    ensures var k1 := PutAsleep(k, k.curr, ToInt32(n), Sleep);
            && Do(k, SleepMs(n)).0 == Resched(k1) && k1.lists[SLEEPQ] == InsertAt(k.lists[SLEEPQ], 0, k.curr)
            && k1.key == DeltaKeys(k.key, k.lists[SLEEPQ], 0, k.curr, n - TWO32)
  {
    hide DeltaPlace, DeltaKeys, InsertAt, Resched, ToInt32;
  }

  lemma LongSleepers(k: Kernel, n: uint32)
    requires Inv(k) && WellFormed(k) && May(k, SleepMs(n)) && n > MAXINT && Delays.Fits(Sleepers(k))
    ensures Sleepers(Do(k, SleepMs(n)).0) == LongList(Sleepers(k), k.curr, n)
  {
    var p, l := k.curr, k.lists[SLEEPQ];
    NotAsleep(k, p);
    StandsAt(k, p, SLEEPQ);
    if l != [] { PairsUncons(l, k.key); }
    hide DeltaKeys, DeltaPlace, InsertAt, Inv, Resched, Pairs, LongList, ToInt32, PutAsleep, Do;
    LongPlace(l, k.key, n);
    PairsLong(l, k.key, p, n);
    SleepIs(k, n);
    PutAsleepUndisturbed(k, ToInt32(n), Sleep);
    var k1 := PutAsleep(k, p, ToInt32(n), Sleep);
    UndisturbedSame(k1, Resched(k1));
  }

  /** A sleeping process stands on the list with just the delay it asked for if and only if a signed word can tell
      it. */
  lemma SleepsAsAsked(k: Kernel, n: uint32)
    requires Inv(k) && WellFormed(k) && May(k, SleepMs(n)) && n > 0 && Delays.Fits(Sleepers(k))
    ensures Sleepers(Do(k, SleepMs(n)).0) == Delays.Insert(Sleepers(k), k.curr, n) <==> n <= MAXINT
  {
    hide Inv, Do, May, Sleepers, Delays.Insert;
    if n <= MAXINT {
      CallSleepers(k, SleepMs(n));
    } else {
      LongSleepers(k, n);
      Delays.InsertFits(Sleepers(k), k.curr, n);
    }
  }

  /** The tick after: the process is gone, and with it the one that was first and had at least `n` - 2^31 to go. */
  lemma LongTick(s: seq<Delays.Sleeper>, p: int, n: uint32)
    requires Delays.Fits(s) && Delays.Distinct(s) && Delays.Time(s, p) == Delays.Never && n > MAXINT + 1
    ensures Delays.Time(AfterTick(LongList(s, p, n)), p) == Delays.Never
    ensures s != [] ==> (Delays.Time(AfterTick(LongList(s, p, n)), s[0].pid) == Delays.Never
                         <==> s[0].delay >= n - MAXINT - 1)
  {
    var r := LongList(s, p, n)[1..];
    Delays.TimeNever(s, p);
    Delays.TotalTail(s);
    assert ToInt32(n - TWO32 - 1) == n - TWO32 - 1;
    assert AfterTick(LongList(s, p, n)) == Delays.Split(r).1 by { LongHead(s, p, n); }
    if s != [] {
      assert r[1..] == s[1..];
      Delays.TimeNever(s[1..], s[0].pid);
      Delays.TimeNever(s[1..], p);
      Delays.SplitTime(s[1..], s[0].pid);
      Delays.SplitTime(s[1..], p);
    }
    hide ToInt32;
  }

  lemma LongHead(s: seq<Delays.Sleeper>, p: int, n: uint32)
    requires n > MAXINT + 1
    ensures AfterTick(LongList(s, p, n)) == Delays.Split(LongList(s, p, n)[1..]).1
  {
    var t := LongList(s, p, n);
    var s1 := [t[0].(delay := n - TWO32 - 1)] + t[1..];
    assert s1[1..] == t[1..];
    hide LongList;
  }

  /** The call does not ask for more milliseconds than a signed word can tell. */
  predicate Short(c: Call) { c.SleepMs? ==> c.delay <= MAXINT }

  /** Every call that asks for no longer sleep does to the sleepers what `SleepersAfter` says. */
  lemma CallSleepers(k: Kernel, c: Call)
    requires Inv(k) && WellFormed(k) && May(k, c) && Delays.Fits(Sleepers(k)) && Short(c)
    ensures Sleepers(Do(k, c).0) == SleepersAfter(k, c) && Delays.Fits(SleepersAfter(k, c))
  {
    hide Inv, Undisturbed, Do, Sleepers, Delays.Fits, Delays.Insert, Delays.Remove, Delays.Tick;
    CallFits(k, c);
    if Sleeps(k, c) {
      SleepsSleepers(k, c);
    } else if Wakes(k, c) {
      SendWakes(k, c);
    } else if c.Tick? {
      TickSleepersSleepers(k);
      PreemptSleep(k);
      UndisturbedSame(TickSleepers(k), ClockTick(k));
      assert Do(k, c).0 == ClockTick(k) by { Calls(k, c); }
    } else {
      if c.WaitOn? { WaitSleep(k, c.s); assert Do(k, c) == WaitCall(k, c.s) by { Calls(k, c); } }
      else if c.Send? { SendSleep(k, c.p, c.msg); assert Do(k, c) == SendCall(k, c.p, c.msg) by { Calls(k, c); } }
      else if c.SignalTo? || c.SignalN? || c.SemReset? || c.SemDelete? { SemCallsSleep(k, c); }
      else { OtherCallsSleep(k, c); }
      UndisturbedSame(k, Do(k, c).0);
    }
  }

  lemma CallFits(k: Kernel, c: Call)
    requires WellFormed(k) && Delays.Fits(Sleepers(k)) && Short(c)
    ensures Delays.Fits(SleepersAfter(k, c))
  {
    hide Delays.Insert, Delays.Remove, Delays.Tick, Sleepers;
    if Sleeps(k, c) {
      Delays.InsertFits(Sleepers(k), k.curr, Delay(c));
    } else if Wakes(k, c) {
      Delays.RemoveFits(Sleepers(k), c.p);
    } else if c.Tick? {
      Delays.TickFits(Sleepers(k));
    }
  }

  lemma Calls(k: Kernel, c: Call)
    requires WellFormed(k)
    ensures c.WaitOn? ==> Do(k, c) == WaitCall(k, c.s)
    ensures c.Send? ==> Do(k, c) == SendCall(k, c.p, c.msg)
    ensures c.Tick? ==> Do(k, c).0 == ClockTick(k)
  {
  }

  lemma SleepsSleepers(k: Kernel, c: Call)
    requires Inv(k) && May(k, c) && Sleeps(k, c) && Delays.Fits(Sleepers(k)) && Short(c)
    ensures Sleepers(Do(k, c).0) == Delays.Insert(Sleepers(k), k.curr, Delay(c))
  {
    PutAsleepSleepers(k, Delay(c), if c.SleepMs? then Sleep else RecTim);
    hide Inv, Resched, PutAsleep, Sleepers, Delays.Insert;
  }

  lemma SendWakes(k: Kernel, c: Call)
    requires Inv(k) && Wakes(k, c) && Delays.Fits(Sleepers(k))
    ensures Sleepers(Do(k, c).0) == Delays.Remove(Sleepers(k), c.p)
  {
    MessageStay(k, c.p, c.msg);
    var k1 := k.(procs := k.procs[c.p := k.procs[c.p].(msg := c.msg, hasMsg := true)]);
    AwakenSleepers(k1, c.p);
  }
}
