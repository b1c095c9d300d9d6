/** Who runs next: after each call and each tick, who has the processor, and in what order the others wait for it. */
module KernelNext {
  import opened Codes
  import opened QueueSpec
  import opened KernelSpec
  import opened KernelInv
  import opened KernelCalls
  import opened KernelMessages
  import opened KernelStates
  import KernelSleep
  import KernelRoundRobin

  /** The processes of a list that have priority `x`, in order. */
  function OfPrio(k: Kernel, l: seq<int>, x: int): (r: seq<int>)
    requires WellFormed(k) && Pids(l)
    ensures Pids(r)
  {
    if l == [] then []
    else if k.procs[l[0]].prio == x then [l[0]] + OfPrio(k, l[1..], x) else OfPrio(k, l[1..], x)
  }

  function Without(l: seq<int>, p: int): (r: seq<int>)
    ensures Pids(l) ==> Pids(r)
  {
    if l == [] then [] else if l[0] == p then Without(l[1..], p) else [l[0]] + Without(l[1..], p)
  }

  /** Two lists have the same processes of each priority, in the same order. */
  ghost predicate Alike(k: Kernel, l: seq<int>, m: seq<int>)
    requires WellFormed(k)
  {
    Pids(l) && Pids(m) && forall x :: OfPrio(k, l, x) == OfPrio(k, m, x)
  }

  /** Process `p` is the first of those of the highest priority in a list. */
  ghost predicate First(k: Kernel, l: seq<int>, p: int)
    requires WellFormed(k) && Pids(l)
  {
    && 0 <= p < NPROC && (forall q :: q in l ==> k.procs[q].prio <= k.procs[p].prio)
    && OfPrio(k, l, k.procs[p].prio) != [] && OfPrio(k, l, k.procs[p].prio)[0] == p
  }

  /** Some process of a list has priority `x` or more. */
  ghost predicate Rivals(k: Kernel, l: seq<int>, x: int)
    requires WellFormed(k) && Pids(l)
  {
    exists q :: q in l && k.procs[q].prio >= x
  }

  /** With `l` ready to run, the current process stays. */
  ghost predicate Stayed(k: Kernel, k': Kernel, l: seq<int>)
    requires WellFormed(k) && WellFormed(k')
  {
    k'.curr == k.curr && Alike(k, ReadyList(k'), l)
  }

  /** With `l` ready to run, the first of the highest priority gets the processor; the one that had it goes behind all
      of its priority, unless it cannot run on. */
  ghost predicate Switched(k: Kernel, k': Kernel, l: seq<int>, leaves: bool)
    requires WellFormed(k) && WellFormed(k')
  {
    && Pids(l) && First(k, l, k'.curr)
    && Alike(k, ReadyList(k'), Without(l, k'.curr) + if leaves then [] else [k.curr])
  }

  lemma {:induction false} OfPrioConcat(k: Kernel, l: seq<int>, m: seq<int>, x: int)
    requires WellFormed(k) && Pids(l) && Pids(m)
    ensures Pids(l + m) && OfPrio(k, l + m, x) == OfPrio(k, l, x) + OfPrio(k, m, x)
  {
    if l == [] {
      assert l + m == m;
    } else {
      OfPrioConcat(k, l[1..], m, x);
      assert (l + m)[1..] == l[1..] + m;
    }
  }

  lemma {:induction false} NoneOfPrio(k: Kernel, l: seq<int>, x: int)
    requires WellFormed(k) && Pids(l) && forall i :: 0 <= i < |l| ==> k.procs[l[i]].prio != x
    ensures OfPrio(k, l, x) == []
  {
    if l != [] { NoneOfPrio(k, l[1..], x); }
  }

  lemma {:induction false} OfPrioMembers(k: Kernel, l: seq<int>, x: int)
    requires WellFormed(k) && Pids(l)
    ensures forall p :: p in OfPrio(k, l, x) <==> p in l && k.procs[p].prio == x
  {
    if l != [] {
      OfPrioMembers(k, l[1..], x);
      assert l == [l[0]] + l[1..];
    }
  }

  lemma {:induction false} OfPrioSame(k: Kernel, k': Kernel, l: seq<int>, x: int)
    requires WellFormed(k) && WellFormed(k') && Pids(l)
    requires forall p :: 0 <= p < NPROC ==> k'.procs[p].prio == k.procs[p].prio
    ensures OfPrio(k', l, x) == OfPrio(k, l, x)
  {
    if l != [] { OfPrioSame(k, k', l[1..], x); }
  }

  lemma {:induction false} OfPrioWithout(k: Kernel, l: seq<int>, p: int, x: int)
    requires WellFormed(k) && Pids(l)
    ensures OfPrio(k, Without(l, p), x) == Without(OfPrio(k, l, x), p)
  {
    if l != [] { OfPrioWithout(k, l[1..], p, x); }
  }

  lemma {:induction false} WithoutConcat(l: seq<int>, m: seq<int>, p: int)
    ensures Without(l + m, p) == Without(l, p) + Without(m, p)
  {
    if l == [] {
      assert l + m == m;
    } else {
      var a, b := Without(l[1..], p), Without(m, p);
      WithoutConcat(l[1..], m, p);
      assert (l + m)[1..] == l[1..] + m && (l + m)[0] == l[0];
      assert [l[0]] + (a + b) == [l[0]] + a + b;
    }
  }

  lemma {:induction false} WithoutNone(l: seq<int>, p: int)
    requires p !in l
    ensures Without(l, p) == l
  {
    if l != [] { WithoutNone(l[1..], p); }
  }

  lemma WithoutHead(l: seq<int>)
    requires l != [] && NoDup(l)
    ensures Without(l, l[0]) == l[1..]
  {
    WithoutNone(l[1..], l[0]);
  }

  /** Leaving out a process by its place or by its name. */
  lemma WithoutAt(l: seq<int>, i: nat)
    requires i < |l| && NoDup(l)
    ensures Without(l, l[i]) == RemoveAt(l, i)
  {
    WithoutConcat(l[..i], l[i..], l[i]);
    assert l == l[..i] + l[i..];
    WithoutNone(l[..i], l[i]);
    WithoutHead(l[i..]);
  }

  lemma AlikeMembers(k: Kernel, l: seq<int>, m: seq<int>)
    requires WellFormed(k) && Alike(k, l, m)
    ensures forall p :: p in l <==> p in m
  {
    forall p | p in l || p in m
      ensures p in l && p in m
    {
      var x := k.procs[p].prio;
      OfPrioMembers(k, l, x);
      OfPrioMembers(k, m, x);
      assert p in OfPrio(k, l, x);
    }
  }

  lemma AlikeConcat(k: Kernel, l: seq<int>, m: seq<int>, r: seq<int>)
    requires WellFormed(k) && Alike(k, l, m) && Pids(r)
    ensures Alike(k, l + r, m + r)
  {
    forall x
      ensures OfPrio(k, l + r, x) == OfPrio(k, m + r, x)
    {
      OfPrioConcat(k, l, r, x);
      OfPrioConcat(k, m, r, x);
    }
  }

  lemma AlikeWithout(k: Kernel, l: seq<int>, m: seq<int>, p: int)
    requires WellFormed(k) && Alike(k, l, m)
    ensures Alike(k, Without(l, p), Without(m, p))
  {
    forall x
      ensures OfPrio(k, Without(l, p), x) == OfPrio(k, Without(m, p), x)
    {
      OfPrioWithout(k, l, p, x);
      OfPrioWithout(k, m, p, x);
    }
  }

  ghost predicate SamePrio(k: Kernel, k': Kernel)
  {
    WellFormed(k) && WellFormed(k') && forall p :: 0 <= p < NPROC ==> k'.procs[p].prio == k.procs[p].prio
  }

  lemma MailPrio(k: Kernel, k': Kernel)
    requires SameMail(k, k')
    ensures SamePrio(k, k')
  {
    assert forall p :: 0 <= p < NPROC ==> SameBox(k.procs[p], k'.procs[p]);
  }

  lemma AlikeSame(k: Kernel, k': Kernel, l: seq<int>, m: seq<int>)
    requires SamePrio(k, k') && Alike(k', l, m)
    ensures Alike(k, l, m)
  {
    forall x
      ensures OfPrio(k, l, x) == OfPrio(k, m, x)
    {
      OfPrioSame(k, k', l, x);
      OfPrioSame(k, k', m, x);
    }
  }

  lemma InsertedOne(k: Kernel, l: seq<int>, n: nat, p: nat, x: int)
    requires WellFormed(k) && Pids(l) && n <= |l| && p < NPROC
    requires forall i :: n <= i < |l| ==> k.procs[l[i]].prio < k.procs[p].prio
    ensures Pids(InsertAt(l, n, p)) && OfPrio(k, InsertAt(l, n, p), x) == OfPrio(k, l + [p], x)
  {
    var a, b := l[..n], l[n..];
    if x == k.procs[p].prio { NoneOfPrio(k, b, x); }
    hide OfPrio, InsertAt;
    assert InsertAt(l, n, p) == a + ([p] + b) by { InsertParts(l, n, p); }
    assert l == a + b;
    OfPrioConcat(k, [p], b, x);
    OfPrioConcat(k, a, [p] + b, x);
    OfPrioConcat(k, a, b, x);
    OfPrioConcat(k, l, [p], x);
    if x != k.procs[p].prio { NoneOfPrio(k, [p], x); }
  }

  lemma InsertParts(l: seq<int>, n: nat, p: int)
    requires n <= |l|
    ensures InsertAt(l, n, p) == l[..n] + ([p] + l[n..])
  {
  }

  /** A process put on the ready list stands behind all of its priority. */
  lemma PutReadyJoins(k: Kernel, p: nat)
    requires WellFormed(k) && Sorted(k) && p < NPROC
    ensures Alike(k, ReadyList(PutReady(k, p)), ReadyList(k) + [p])
  {
    var l := ReadyList(k);
    var n := Place(l, k.key, k.procs[p].prio);
    hide OfPrio, InsertAt, Place;
    forall i | n <= i < |l|
      ensures k.procs[l[i]].prio < k.procs[p].prio
    {
      assert k.key[l[i]] <= k.key[l[n]];
    }
    forall x
      ensures Pids(InsertAt(l, n, p)) && OfPrio(k, InsertAt(l, n, p), x) == OfPrio(k, l + [p], x)
    {
      InsertedOne(k, l, n, p, x);
    }
  }

  /** The head of the ready list is the first of the highest priority. */
  lemma HeadIsFirst(k: Kernel)
    requires WellFormed(k) && Sorted(k) && ReadyList(k) != []
    ensures First(k, ReadyList(k), ReadyList(k)[0])
    ensures forall x :: Rivals(k, ReadyList(k), x) <==> k.key[ReadyList(k)[0]] >= x
  {
    var l := ReadyList(k);
    forall q | q in l
      ensures k.procs[q].prio <= k.procs[l[0]].prio
    {
      var i :| 0 <= i < |l| && l[i] == q;
      assert k.key[l[i]] <= k.key[l[0]];
    }
  }

  /** The law of rescheduling. */
  lemma ReschedNext(k: Kernel)
    requires Core(k)
    ensures WellFormed(k)
    ensures var l, leaves := ReadyList(k), !k.procs[k.curr].state.Curr?;
            if k.ndefers == 0 && (leaves || Rivals(k, l, k.procs[k.curr].prio))
            then Switched(k, Resched(k), l, leaves) else Stayed(k, Resched(k), l)
    ensures k.ndefers > 0 ==> Resched(k) == k.(attempt := true)
    ensures Resched(k).curr == k.curr && k.procs[k.curr].state.Curr? ==> Resched(k).preempt == k.preempt
  {
    var l, p := ReadyList(k), k.curr;
    StandsAt(k, p, READYLIST);
    StandsAt(k, 0, READYLIST);
    hide Base, OfPrio, InsertAt, Without;
    if l != [] {
      HeadIsFirst(k);
      WithoutHead(l);
    }
    if k.ndefers == 0 {
      if !k.procs[p].state.Curr? {
        SomeReady(k);
        assert ReadyList(Resched(k)) == l[1..] && Without(l, l[0]) + [] == l[1..];
      } else if l != [] && k.procs[p].prio <= k.key[l[0]] {
        PutReadyJoins(k, p);
        BehindHead(k);
      }
    }
  }

  lemma InsertTail(l: seq<int>, n: nat, p: int)
    requires 0 < n <= |l|
    ensures InsertAt(l, n, p)[1..] == InsertAt(l[1..], n - 1, p)
  {
    var a, b := InsertAt(l, n, p), InsertAt(l[1..], n - 1, p);
    forall i | 0 <= i < |l|
      ensures a[i + 1] == b[i]
    {
      InsertedPlace(l, n, p, i + 1);
      InsertedPlace(l[1..], n - 1, p, i);
    }
  }

  /** Put behind its equals in a list whose head is at least its equal, and the head gone. */
  lemma InsertedBehind(k: Kernel, l: seq<int>, n: nat, p: nat)
    requires WellFormed(k) && Pids(l) && NoDup(l) && 0 < n <= |l| && p < NPROC
    requires forall i :: n <= i < |l| ==> k.procs[l[i]].prio < k.procs[p].prio
    ensures Pids(InsertAt(l, n, p)[1..]) && Alike(k, InsertAt(l, n, p)[1..], Without(l, l[0]) + [p])
  {
    hide OfPrio, Without, InsertAt, NoDup;
    InsertTail(l, n, p);
    WithoutHead(l);
    InsertedOne(k, l[1..], n - 1, p, 0);
    forall x
      ensures OfPrio(k, InsertAt(l[1..], n - 1, p), x) == OfPrio(k, l[1..] + [p], x)
    {
      InsertedOne(k, l[1..], n - 1, p, x);
    }
  }

  lemma BehindHead(k: Kernel)
    requires Core(k) && k.procs[k.curr].state.Curr? && k.ndefers == 0
    requires ReadyList(k) != [] && k.procs[k.curr].prio <= k.key[ReadyList(k)[0]]
    ensures WellFormed(k) && Resched(k).curr == ReadyList(k)[0]
    ensures Alike(k, ReadyList(Resched(k)), Without(ReadyList(k), ReadyList(k)[0]) + [k.curr])
  {
    var l, p := ReadyList(k), k.curr;
    StandsAt(k, p, READYLIST);
    hide Base, OfPrio, Without, InsertAt, NoDup;
    KernelRoundRobin.Switches(k);
    var n := Place(l, k.key, k.procs[p].prio);
    forall i | n <= i < |l|
      ensures k.procs[l[i]].prio < k.procs[p].prio
    {
      assert k.key[l[i]] <= k.key[l[n]];
    }
    InsertedBehind(k, l, n, p);
  }

  // --- from one state of a call to its end ---

  /** The processor after a call: it changes hands if rescheduling is tried and the current process cannot run on or
      has a rival. */
  ghost predicate Runs(k: Kernel, k': Kernel, l: seq<int>, leaves: bool, tries: bool)
    requires WellFormed(k) && WellFormed(k') && Pids(l)
  {
    if tries && (leaves || Rivals(k, l, k.procs[k.curr].prio)) then Switched(k, k', l, leaves) else Stayed(k, k', l)
  }

  /** The same process has the processor, those that can run are `l`, and it runs on or not as before. */
  ghost predicate Midway(k: Kernel, k1: Kernel, l: seq<int>)
  {
    SamePrio(k, k1) && k1.curr == k.curr && Alike(k, ReadyList(k1), l)
  }

  lemma MidwayHere(k: Kernel, k1: Kernel)
    requires WellFormed(k) && WellFormed(k1) && k1.curr == k.curr && ReadyList(k1) == ReadyList(k)
    requires SamePrio(k, k1)
    ensures Midway(k, k1, ReadyList(k)) && Midway(k, k1, ReadyList(k) + [])
  {
    assert ReadyList(k) + [] == ReadyList(k);
  }

  lemma AlikeTrans(k: Kernel, l: seq<int>, m: seq<int>, r: seq<int>)
    requires WellFormed(k) && Alike(k, l, m) && Alike(k, m, r)
    ensures Alike(k, l, r)
  {
  }

  lemma SwitchedOn(k: Kernel, k1: Kernel, k': Kernel, l: seq<int>, leaves: bool)
    requires Midway(k, k1, l) && WellFormed(k') && Switched(k1, k', ReadyList(k1), leaves)
    ensures Switched(k, k', l, leaves)
  {
    var m, p := ReadyList(k1), k'.curr;
    AlikeMembers(k, m, l);
    OfPrioSame(k, k1, m, k.procs[p].prio);
    var back := if leaves then [] else [k.curr];
    AlikeSame(k, k1, ReadyList(k'), Without(m, p) + back);
    AlikeWithout(k, m, l, p);
    AlikeConcat(k, Without(m, p), Without(l, p), back);
    AlikeTrans(k, ReadyList(k'), Without(m, p) + back, Without(l, p) + back);
    hide Alike, Without;
    assert OfPrio(k, l, k.procs[p].prio) == OfPrio(k, m, k.procs[p].prio) by { AlikeAt(k, m, l, k.procs[p].prio); }
  }

  lemma AlikeAt(k: Kernel, l: seq<int>, m: seq<int>, x: int)
    requires WellFormed(k) && Alike(k, l, m)
    ensures OfPrio(k, l, x) == OfPrio(k, m, x)
  {
  }

  lemma StayedOn(k: Kernel, k1: Kernel, k': Kernel, l: seq<int>)
    requires Midway(k, k1, l) && WellFormed(k') && Stayed(k1, k', ReadyList(k1))
    ensures Stayed(k, k', l)
  {
    AlikeSame(k, k1, ReadyList(k'), ReadyList(k1));
    AlikeTrans(k, ReadyList(k'), ReadyList(k1), l);
  }

  lemma RivalsOn(k: Kernel, k1: Kernel, l: seq<int>, x: int)
    requires Midway(k, k1, l)
    ensures Rivals(k1, ReadyList(k1), x) <==> Rivals(k, l, x)
  {
    AlikeMembers(k, ReadyList(k1), l);
    hide Alike;
    if Rivals(k1, ReadyList(k1), x) {
      var q :| q in ReadyList(k1) && k1.procs[q].prio >= x;
      assert q in l && k.procs[q].prio >= x;
    }
    if Rivals(k, l, x) {
      var q :| q in l && k.procs[q].prio >= x;
      assert q in ReadyList(k1) && k1.procs[q].prio >= x;
    }
  }

  /** A call that ends in rescheduling. */
  lemma ThenResched(k: Kernel, k1: Kernel, l: seq<int>)
    requires Midway(k, k1, l) && Core(k1)
    ensures Runs(k, Resched(k1), l, !k1.procs[k1.curr].state.Curr?, k1.ndefers == 0)
    ensures Resched(k1).ndefers == k1.ndefers && (k1.ndefers > 0 ==> Resched(k1) == k1.(attempt := true))
    ensures Resched(k1).curr == k1.curr && k1.procs[k1.curr].state.Curr? ==> Resched(k1).preempt == k1.preempt
  {
    ReschedNext(k1);
    RivalsOn(k, k1, l, k.procs[k.curr].prio);
    hide Core, Resched, Stayed, Switched, Rivals;
    var leaves, k' := !k1.procs[k1.curr].state.Curr?, Resched(k1);
    if k1.ndefers == 0 && (leaves || Rivals(k, l, k.procs[k.curr].prio)) {
      SwitchedOn(k, k1, k', l, leaves);
    } else {
      StayedOn(k, k1, k', l);
    }
  }

  /** A call that ends a deferral of its own. */
  lemma ThenStop(k: Kernel, k1: Kernel, l: seq<int>)
    requires Midway(k, k1, l) && Core(k1) && k1.ndefers == k.ndefers + 1
    ensures var k' := DeferStop(k1).0;
            && Runs(k, k', l, !k1.procs[k1.curr].state.Curr?, k.ndefers == 0 && k1.attempt)
            && k'.ndefers == k.ndefers
            && (k.ndefers > 0 ==> (k'.attempt, k'.procs, k'.preempt) == (k1.attempt, k1.procs, k1.preempt))
            && (k'.curr == k1.curr && k1.procs[k1.curr].state.Curr? ==> k'.preempt == k1.preempt)
  {
    var k2 := k1.(ndefers := k1.ndefers - 1);
    Stay(k1, k2);
    assert Core(k2) && Midway(k, k2, l);
    hide Core, Resched, Midway;
    if k.ndefers == 0 && k1.attempt {
      ThenResched(k, k2, l);
    } else {
      assert Stayed(k, k2, l) by { StayedNow(k, k2, l); }
    }
  }

  lemma StayedNow(k: Kernel, k1: Kernel, l: seq<int>)
    requires Midway(k, k1, l)
    ensures Stayed(k, k1, l)
  {
  }

  lemma MidwayOn(k: Kernel, k1: Kernel, k2: Kernel, l: seq<int>, m: seq<int>)
    requires Midway(k, k1, l) && Midway(k1, k2, ReadyList(k1) + m) && Pids(m)
    ensures Midway(k, k2, l + m)
  {
    AlikeSame(k, k1, ReadyList(k2), ReadyList(k1) + m);
    AlikeConcat(k, ReadyList(k1), l, m);
    AlikeTrans(k, ReadyList(k2), ReadyList(k1) + m, l + m);
  }

  /** The first process of a queue is put on the ready list. */
  lemma FirstJoins(k: Kernel, q: nat)
    requires Core(k) && Running(k) && q < NLISTS && q != READYLIST && k.lists[q] != []
    ensures WellFormed(k) && Pids(k.lists[q])
    ensures var k1 := PutReady(WithList(k, q, k.lists[q][1..]), k.lists[q][0]);
            && Core(k1) && Midway(k, k1, ReadyList(k) + [k.lists[q][0]])
            && (k1.ndefers, k1.attempt, k1.preempt) == (k.ndefers, k.attempt, k.preempt)
            && (k1.procs[k1.curr].state.Curr? <==> k.procs[k.curr].state.Curr?)
  {
    FirstPutReady(k, q);
    var p := k.lists[q][0];
    StandsAt(k, p, q);
    var k0 := WithList(k, q, k.lists[q][1..]);
    PutReadyJoins(k0, p);
    assert SamePrio(k, k0);
    AlikeSame(k, k0, ReadyList(PutReady(k0, p)), ReadyList(k) + [p]);
    hide OfPrio, Core, InsertAt, Place;
  }

  /** The first process of a queue becomes ready while rescheduling is put off. */
  lemma FirstDeferred(k: Kernel, q: nat)
    requires Core(k) && Running(k) && q < NLISTS && q != READYLIST && k.lists[q] != [] && k.ndefers > 0
    ensures WellFormed(k) && Pids(k.lists[q])
    ensures var k' := ReadyFirst(k, q);
            && Midway(k, k', ReadyList(k) + [k.lists[q][0]]) && k'.attempt
            && (k'.ndefers, k'.preempt) == (k.ndefers, k.preempt)
            && (k'.procs[k'.curr].state.Curr? <==> k.procs[k.curr].state.Curr?)
  {
    FirstJoins(k, q);
    hide Core, PutReady;
  }

  lemma {:induction false} ReadyTimesJoin(k: Kernel, q: nat, n: nat)
    requires Core(k) && Scheduled(k) && q < NLISTS && q != READYLIST && n <= |k.lists[q]| && k.ndefers > 0
    ensures WellFormed(k) && Pids(k.lists[q])
    ensures var k' := ReadyTimes(k, q, n);
            && Midway(k, k', ReadyList(k) + k.lists[q][..n]) && k'.attempt == (k.attempt || n > 0)
            && (k'.ndefers, k'.preempt) == (k.ndefers, k.preempt)
            && (k'.procs[k'.curr].state.Curr? <==> k.procs[k.curr].state.Curr?)
  {
    hide Core, Scheduled, ReadyFirst, Midway;
    CoreFormed(k);
    if n > 0 {
      ReadyTimesJoin(k, q, n - 1);
      ReadyTimesInv(k, q, n - 1);
      var k1 := ReadyTimes(k, q, n - 1);
      ScheduledRuns(k1);
      FirstDeferred(k1, q);
      var p := k.lists[q][n - 1];
      assert k1.lists[q][0] == p;
      MidwayOn(k, k1, ReadyFirst(k1, q), ReadyList(k) + k.lists[q][..n - 1], [p]);
      assert k.lists[q][..n] == k.lists[q][..n - 1] + [p];
      assert ReadyList(k) + k.lists[q][..n - 1] + [p] == ReadyList(k) + k.lists[q][..n];
    } else {
      MidwayHere(k, k);
      assert k.lists[q][..0] == [];
    }
  }

  /** The first `n` of a queue have joined the ready list while rescheduling is put off. */
  ghost predicate Joined(k: Kernel, k': Kernel, l: seq<int>, n: nat)
    requires WellFormed(k) && WellFormed(k') && Pids(l)
  {
    && Midway(k, k', ReadyList(k) + UpTo(l, n)) && k'.attempt == (k.attempt || UpTo(l, n) != [])
    && k'.ndefers == k.ndefers && (k'.procs[k'.curr].state.Curr? <==> k.procs[k.curr].state.Curr?)
  }

  lemma SignalOnceJoins(k: Kernel, s: nat)
    requires Core(k) && Scheduled(k) && s < NSEM && Balanced(k, s) && k.ndefers > 0
    ensures WellFormed(k) && Pids(k.lists[s]) && Joined(k, SignalOnce(k, s), k.lists[s], 1)
  {
    hide Core, ToInt32, ReadyFirst, Scheduled;
    CoreFormed(k);
    var k1 := WithCount(k, s, ToInt32(k.sems[s].count + 1));
    SemStay(k, k1.sems);
    MidwayHere(k, k1);
    hide Midway;
    if k.lists[s] != [] {
      ScheduledRuns(k1);
      FirstDeferred(k1, s);
      MidwayOn(k, k1, ReadyFirst(k1, s), ReadyList(k), [k.lists[s][0]]);
      assert UpTo(k.lists[s], 1) == [k.lists[s][0]];
    } else {
      assert UpTo(k.lists[s], 1) == [];
    }
  }

  /** Those behind the first `n` of a queue. */
  function Behind(l: seq<int>, n: nat): (r: seq<int>)
    ensures Pids(l) ==> Pids(r)
  {
    if n <= |l| then l[n..] else []
  }

  /** One release more. */
  lemma UpToNext(l: seq<int>, n: nat)
    requires n > 0
    ensures UpTo(l, n) == UpTo(l, n - 1) + UpTo(Behind(l, n - 1), 1)
  {
    if n <= |l| {
      assert l[..n] == l[..n - 1] + [l[n - 1]];
      assert UpTo(l[n - 1..], 1) == [l[n - 1]];
    }
  }

  lemma JoinedOn(k: Kernel, k1: Kernel, k2: Kernel, l: seq<int>, n: nat)
    requires WellFormed(k) && WellFormed(k1) && WellFormed(k2) && Pids(l) && n > 0
    requires Joined(k, k1, l, n - 1) && Joined(k1, k2, Behind(l, n - 1), 1)
    ensures Joined(k, k2, l, n)
  {
    hide Midway, UpTo, Behind;
    var more := UpTo(Behind(l, n - 1), 1);
    UpToNext(l, n);
    MidwayOn(k, k1, k2, ReadyList(k) + UpTo(l, n - 1), more);
    assert ReadyList(k) + UpTo(l, n - 1) + more == ReadyList(k) + (UpTo(l, n - 1) + more);
  }

  lemma JoinedNone(k: Kernel, l: seq<int>)
    requires WellFormed(k) && Pids(l)
    ensures Joined(k, k, l, 0)
  {
    hide Midway;
    assert UpTo(l, 0) == [];
    MidwayHere(k, k);
  }

  lemma {:induction false} SignalTimesJoin(k: Kernel, s: nat, n: nat)
    requires Core(k) && Scheduled(k) && s < NSEM && Balanced(k, s) && (n > 0 ==> k.sems[s].count + n <= MAXINT)
    requires k.ndefers > 0
    ensures WellFormed(k) && Pids(k.lists[s]) && Joined(k, SignalTimes(k, s, n), k.lists[s], n)
  {
    hide Core, Scheduled, SignalOnce, Joined, Balanced;
    CoreFormed(k);
    if n > 0 {
      SignalTimesJoin(k, s, n - 1);
      SignalTimesInv(k, s, n - 1);
      var k1 := SignalTimes(k, s, n - 1);
      assert k1.lists[s] == Behind(k.lists[s], n - 1);
      assert k1.ndefers == k.ndefers by { JoinedDefers(k, k1, k.lists[s], n - 1); }
      SignalOnceJoins(k1, s);
      JoinedOn(k, k1, SignalOnce(k1, s), k.lists[s], n);
    } else {
      JoinedNone(k, k.lists[s]);
    }
  }

  lemma JoinedDefers(k: Kernel, k1: Kernel, l: seq<int>, n: nat)
    requires WellFormed(k) && WellFormed(k1) && Pids(l) && Joined(k, k1, l, n)
    ensures k1.ndefers == k.ndefers
  {
  }

  // --- every call ---

  /** The processes a call releases, in order. */
  function Freed(k: Kernel, c: Call): (r: seq<int>)
    requires WellFormed(k)
    ensures Pids(r)
  {
    if !Works(k, c) then []
    else match c
      case SignalTo(s) => UpTo(k.lists[s], 1)
      case SignalN(s, n) => UpTo(k.lists[s], n)
      case SemDelete(s) => k.lists[s]
      case SemReset(s, _) => k.lists[s]
      case Send(p, _) => if k.procs[p].state.Recv? || k.procs[p].state.RecTim? then [p] else []
      case Resume(p) => [p]
      case Tick => UpTo(k.lists[SLEEPQ], |KernelSleep.WordTick(KernelSleep.Sleepers(k)).0|)
      case _ => []
  }

  /** The call keeps the current process from running on. */
  predicate Blocks(k: Kernel, c: Call)
    requires WellFormed(k)
  {
    Works(k, c) &&
    match c
    case WaitOn(s) => k.sems[s].count <= 0
    case SleepMs(delay) => delay > 0
    case Receive => !k.procs[k.curr].hasMsg
    case RecvTime(_) => !k.procs[k.curr].hasMsg
    case Suspend(p) => k.procs[p].state.Curr?
    case _ => false
  }

  /** The current process cannot run on: the call blocks it, or one before did while rescheduling was put off. */
  predicate Leaves(k: Kernel, c: Call)
    requires WellFormed(k)
  {
    Blocks(k, c) || !k.procs[k.curr].state.Curr?
  }

  /** Rescheduling is asked for: by whoever blocks or yields, whenever a process is released, at the end of a time
      slice, and at the end of a deferral in which it was asked for. */
  predicate Asks(k: Kernel, c: Call)
    requires WellFormed(k)
  {
    || Blocks(k, c) || c.SleepMs? || Freed(k, c) != [] || (c.Tick? && k.preempt <= 1)
    || (c.StopDefer? && k.ndefers == 1 && k.attempt)
  }

  /** Who can run besides the current process: the ready ones, in order, but for one that is suspended, and behind
      them those released. */
  function CanRun(k: Kernel, c: Call): (r: seq<int>)
    requires WellFormed(k)
    ensures Pids(r)
  {
    (if c.Suspend? && Works(k, c) then Without(ReadyList(k), c.p) else ReadyList(k)) + Freed(k, c)
  }

  /** Rescheduling is put off when the call ends. */
  predicate PutOff(k: Kernel, c: Call)
  {
    k.ndefers > if c.StopDefer? then 1 else 0
  }

  /** What holds after a call. */
  ghost predicate RunsNext(k: Kernel, c: Call, k': Kernel)
    requires WellFormed(k) && WellFormed(k')
  {
    && Runs(k, k', CanRun(k, c), Leaves(k, c), Asks(k, c) && !PutOff(k, c))
    && (k.ndefers > 0 && !c.StopDefer? ==> k'.attempt == (k.attempt || Asks(k, c)))
    && (c.StartDefer? && k.ndefers == 0 ==> !k'.attempt)
    && (c.StopDefer? && k.ndefers > 1 ==> k'.attempt == k.attempt)
    && k'.ndefers == if c.StartDefer? then k.ndefers + 1 else if c.StopDefer? && k.ndefers > 0 then k.ndefers - 1
                     else k.ndefers
  }

  lemma FailedNext(k: Kernel, c: Call)
    requires WellFormed(k) && !Works(k, c) && (c.StopDefer? ==> k.ndefers == 0)
    ensures !Blocks(k, c) && Freed(k, c) == [] && CanRun(k, c) == ReadyList(k)
    ensures !c.Tick? && !c.SleepMs? ==> RunsNext(k, c, k)
  {
    MidwayHere(k, k);
    hide OfPrio, Works;
  }

  /** A call that has put nobody on the ready list. */
  lemma NobodyFreed(k: Kernel, c: Call)
    requires WellFormed(k) && Freed(k, c) == [] && !c.Suspend?
    ensures CanRun(k, c) == ReadyList(k)
  {
    hide Freed;
  }

  /** A call that asks for rescheduling and gets it at once. */
  lemma ThenAtOnce(k: Kernel, c: Call, k1: Kernel)
    requires WellFormed(k) && Midway(k, k1, CanRun(k, c)) && Core(k1) && k1.ndefers == k.ndefers && Asks(k, c)
    requires !c.StopDefer? && !c.StartDefer?
    requires Leaves(k, c) <==> !k1.procs[k.curr].state.Curr?
    ensures RunsNext(k, c, Resched(k1))
  {
    ThenResched(k, k1, CanRun(k, c));
    hide Core, Resched, Runs, Midway, Asks, Leaves, CanRun;
  }

  /** A call that puts rescheduling off until its end. */
  lemma ThenAtEnd(k: Kernel, c: Call, k1: Kernel)
    requires WellFormed(k) && Midway(k, k1, CanRun(k, c)) && Core(k1) && k1.ndefers == k.ndefers + 1
    requires !c.StopDefer? && !c.StartDefer? && k1.attempt == (Asks(k, c) || (k.ndefers > 0 && k.attempt))
    requires Leaves(k, c) <==> !k1.procs[k.curr].state.Curr?
    ensures RunsNext(k, c, DeferStop(k1).0)
  {
    ThenStop(k, k1, CanRun(k, c));
    hide Core, DeferStop, Runs, Midway, Asks, Leaves, CanRun;
  }

  /** A call that asks for nothing. */
  lemma ThenNothing(k: Kernel, c: Call, k1: Kernel)
    requires WellFormed(k) && Midway(k, k1, CanRun(k, c)) && !Asks(k, c) && !c.StopDefer?
    requires k.ndefers > 0 ==> k1.attempt == k.attempt
    requires c.StartDefer? && k.ndefers == 0 ==> !k1.attempt
    requires k1.ndefers == if c.StartDefer? then k.ndefers + 1 else k.ndefers
    ensures RunsNext(k, c, k1)
  {
    hide Asks, CanRun, OfPrio;
  }

  /** A call that blocks the current process. */
  lemma ThenBlocked(k: Kernel, c: Call, k1: Kernel)
    requires WellFormed(k) && SamePrio(k, k1) && ReadyList(k1) == ReadyList(k) && k1.curr == k.curr
    requires Core(k1) && k1.ndefers == k.ndefers && CanRun(k, c) == ReadyList(k) && (Blocks(k, c) || c.SleepMs?)
    requires Leaves(k, c) <==> !k1.procs[k.curr].state.Curr?
    ensures RunsNext(k, c, Resched(k1))
  {
    MidwayHere(k, k1);
    assert !c.StopDefer? && !c.StartDefer? && Asks(k, c);
    hide Core, Resched, RunsNext, Midway, Asks, Leaves, CanRun;
    ThenAtOnce(k, c, k1);
  }

  lemma WaitNext(k: Kernel, s: int)
    requires Inv(k) && May(k, WaitOn(s))
    ensures WellFormed(k) && RunsNext(k, WaitOn(s), WaitCall(k, s).0)
  {
    InvFormed(k);
    if !Works(k, WaitOn(s)) {
      hide Inv;
      FailedNext(k, WaitOn(s));
    } else if k.sems[s].count <= 0 {
      WaitBlocksNext(k, s);
    } else {
      hide Inv, OfPrio, RunsNext;
      NobodyFreed(k, WaitOn(s));
      MidwayHere(k, WithCount(k, s, k.sems[s].count - 1));
      ThenNothing(k, WaitOn(s), WaitCall(k, s).0);
    }
  }

  lemma WaitBlocksNext(k: Kernel, s: nat)
    requires Inv(k) && WellFormed(k) && May(k, WaitOn(s)) && Works(k, WaitOn(s)) && k.sems[s].count <= 0
    ensures RunsNext(k, WaitOn(s), WaitCall(k, s).0)
  {
    hide Scheduled, AllCounted, Resched, RunsNext, InsertAt;
    var k1 := WithCount(k, s, k.sems[s].count - 1);
    SemStay(k, k1.sems);
    var pr, l := k.procs[k.curr].(sem := s, state := Wait), k1.lists[s];
    assert InsertAt(l, |l|, k.curr) == l + [k.curr] by { InsertParts(l, |l|, k.curr); }
    LeaveRunning(k1, s, |l|, pr, k1.key);
    var k3 := WithList(k1, s, l + [k.curr]).(procs := k.procs[k.curr := pr], key := k1.key);
    var k4 := k1.(procs := k1.procs[k.curr := k1.procs[k.curr].(sem := s)]);
    assert WithState(WithList(k4, s, l + [k.curr]), k.curr, Wait) == k3;
    NobodyFreed(k, WaitOn(s));
    hide Core;
    ThenBlocked(k, WaitOn(s), k3);
  }

  lemma AsleepNext(k: Kernel, c: Call, delay: int, st: PState)
    requires Inv(k) && k.procs[k.curr].state.Curr? && k.curr != NULLPROC && (st == Sleep || st == RecTim)
    requires Blocks(k, c) && (c.SleepMs? || c.RecvTime?)
    ensures RunsNext(k, c, Resched(PutAsleep(k, k.curr, delay, st)))
  {
    var p, l := k.curr, k.lists[SLEEPQ];
    var (i, y) := DeltaPlace(l, k.key, delay);
    StandsAt(k, p, READYLIST);
    if i < |l| { SleeperKeys(k, i); }
    LeaveRunning(k, SLEEPQ, i, k.procs[p].(state := st), DeltaKeys(k.key, l, i, p, y));
    hide DeltaKeys, DeltaPlace, InsertAt, Core, Resched, RunsNext;
    NobodyFreed(k, c);
    ThenBlocked(k, c, PutAsleep(k, p, delay, st));
  }

  lemma ParkNext(k: Kernel, c: Call, st: PState)
    requires Inv(k) && k.procs[k.curr].state.Curr? && k.curr != NULLPROC && (st == Recv || st == Susp)
    requires Blocks(k, c) && CanRun(k, c) == ReadyList(k)
    ensures RunsNext(k, c, Resched(WithState(k, k.curr, st)))
  {
    hide Resched, RunsNext, AllCounted, Scheduled, OfPrio, CanRun;
    var k1 := WithState(k, k.curr, st);
    Stay(k, k1);
    StandsAt(k, k.curr, READYLIST);
    hide Base;
    ThenBlocked(k, c, k1);
  }

  lemma YieldNext(k: Kernel)
    requires Inv(k)
    ensures WellFormed(k) && RunsNext(k, SleepMs(0), Resched(k))
  {
    InvFormed(k);
    NobodyFreed(k, SleepMs(0));
    hide Scheduled, Resched, RunsNext, Core;
    ThenBlocked(k, SleepMs(0), k);
  }

  lemma SuspendNext(k: Kernel, p: int)
    requires Inv(k)
    ensures WellFormed(k) && RunsNext(k, Suspend(p), SuspendCall(k, p).0)
  {
    InvFormed(k);
    if !Works(k, Suspend(p)) {
      FailedNext(k, Suspend(p));
    } else {
      var l := ReadyList(k);
      StandsAt(k, p, READYLIST);
      if k.procs[p].state.Curr? {
        WithoutNone(l, p);
        assert CanRun(k, Suspend(p)) == l;
        hide Resched, RunsNext;
        ParkNext(k, Suspend(p), Susp);
      } else {
        hide Inv, OfPrio, RunsNext;
        WithoutAt(l, IndexOf(l, p));
        assert CanRun(k, Suspend(p)) == RemoveAt(l, IndexOf(l, p));
        ThenNothing(k, Suspend(p), SuspendCall(k, p).0);
      }
    }
  }

  lemma ReadiedNext(k: Kernel, c: Call, k1: Kernel, p: nat)
    requires SamePrio(k, k1) && p < NPROC && Core(PutReady(k1, p)) && ReadyList(k1) == ReadyList(k) && Sorted(k1)
    requires k1.curr == k.curr && k1.ndefers == k.ndefers && Freed(k, c) == [p] && !c.Suspend?
    requires !c.StopDefer? && !c.StartDefer? && !Blocks(k, c)
    requires k1.procs[k.curr].state == k.procs[k.curr].state && (p == k.curr ==> !k.procs[p].state.Curr?)
    ensures RunsNext(k, c, MakeReady(k1, p))
  {
    PutReadyJoins(k1, p);
    AlikeSame(k, k1, ReadyList(PutReady(k1, p)), ReadyList(k) + [p]);
    assert CanRun(k, c) == ReadyList(k) + [p];
    assert SamePrio(k, PutReady(k1, p));
    hide OfPrio, InsertAt, Place, Core, Resched, RunsNext, Freed, Blocks;
    ThenAtOnce(k, c, PutReady(k1, p));
  }

  lemma ResumeNext(k: Kernel, p: int)
    requires Inv(k)
    ensures WellFormed(k) && RunsNext(k, Resume(p), ResumeCall(k, p).0)
  {
    hide MakeReady, RunsNext, PutReady, AllCounted, Scheduled, Base, OfPrio;
    InvFormed(k);
    if !Works(k, Resume(p)) {
      FailedNext(k, Resume(p));
    } else {
      PutReadyCore(k, p);
      ReadiedNext(k, Resume(p), k, p);
    }
  }

  function WithMessage(k: Kernel, p: nat, msg: int): (k': Kernel)
    requires WellFormed(k) && p < NPROC
    ensures WellFormed(k') && SamePrio(k, k') && ReadyList(k') == ReadyList(k)
    ensures k'.curr == k.curr && k'.ndefers == k.ndefers && k'.attempt == k.attempt
    ensures forall q :: 0 <= q < NPROC ==> k'.procs[q].state == k.procs[q].state
  {
    k.(procs := k.procs[p := k.procs[p].(msg := msg, hasMsg := true)])
  }

  lemma SendIsSent(k: Kernel, p: int, msg: int)
    requires WellFormed(k) && !BadPid(k, p) && !k.procs[p].hasMsg
    ensures SendCall(k, p, msg).0 == Sent(WithMessage(k, p, msg), p)
  {
    hide MakeReady, TakeAwake, WellFormed;
  }

  lemma SendNext(k: Kernel, p: int, msg: int)
    requires Inv(k)
    ensures WellFormed(k) && RunsNext(k, Send(p, msg), SendCall(k, p, msg).0)
  {
    hide RunsNext, SendCall, Sent, WithMessage, OfPrio;
    InvFormed(k);
    var c := Send(p, msg);
    if !Works(k, c) {
      hide Inv;
      FailedNext(k, c);
      SendAnswers(k, p, msg);
    } else {
      SendIsSent(k, p, msg);
      if k.procs[p].state.Recv? { SentReceiver(k, c); }
      else if k.procs[p].state.RecTim? { SentTimed(k, c); }
      else { SentOther(k, c); }
    }
  }

  lemma SentReceiver(k: Kernel, c: Call)
    requires Inv(k) && WellFormed(k) && c.Send? && Works(k, c) && k.procs[c.p].state.Recv?
    ensures RunsNext(k, c, Sent(WithMessage(k, c.p, c.msg), c.p))
  {
    hide RunsNext, MakeReady, PutReady, Scheduled, AllCounted, Base, OfPrio;
    MessageStay(k, c.p, c.msg);
    var k1 := WithMessage(k, c.p, c.msg);
    PutReadyCore(k1, c.p);
    ReadiedNext(k, c, k1, c.p);
  }

  lemma SentTimed(k: Kernel, c: Call)
    requires Inv(k) && WellFormed(k) && c.Send? && Works(k, c) && k.procs[c.p].state.RecTim?
    ensures RunsNext(k, c, Sent(WithMessage(k, c.p, c.msg), c.p))
  {
    hide RunsNext, MakeReady, PutReady, Inv, TakeAwake, OfPrio;
    MessageStay(k, c.p, c.msg);
    var k1 := WithMessage(k, c.p, c.msg);
    AwakenReady(k1, c.p);
    ReadiedNext(k, c, TakeAwake(k1, c.p), c.p);
  }

  lemma SentOther(k: Kernel, c: Call)
    requires WellFormed(k) && c.Send? && Works(k, c) && !k.procs[c.p].state.Recv? && !k.procs[c.p].state.RecTim?
    ensures RunsNext(k, c, Sent(WithMessage(k, c.p, c.msg), c.p))
  {
    hide RunsNext, MakeReady, TakeAwake, OfPrio;
    var k1 := WithMessage(k, c.p, c.msg);
    hide WithMessage;
    NobodyFreed(k, c);
    MidwayHere(k, k1);
    ThenNothing(k, c, k1);
  }

  lemma AwakenReady(k: Kernel, p: nat)
    requires Inv(k) && p < NPROC && k.procs[p].state.RecTim?
    ensures var k1 := TakeAwake(k, p);
            && WellFormed(k) && WellFormed(k1) && Core(PutReady(k1, p)) && Sorted(k1)
            && k1.procs == k.procs && k1.curr == k.curr && k1.ndefers == k.ndefers && ReadyList(k1) == ReadyList(k)
  {
    TakeAwakeCore(k, p);
    var k1 := TakeAwake(k, p);
    var k2 := WithState(k1, p, Susp);
    PutReadyCore(k2, p);
    ReadyFromAny(k1, p, Susp);
    assert k1.curr == k.curr;
    hide TakeAwake, PutReady, Base;
    assert Sorted(k2);
  }

  /** Only the priorities matter to who is first. */
  lemma Rebase(k: Kernel, k0: Kernel, k1: Kernel, l: seq<int>)
    requires SamePrio(k, k0) && k0.curr == k.curr && Midway(k0, k1, l)
    ensures Midway(k, k1, l)
  {
    AlikeSame(k, k0, ReadyList(k1), l);
  }

  lemma SignalNext(k: Kernel, s: int)
    requires Inv(k) && May(k, SignalTo(s))
    ensures WellFormed(k) && RunsNext(k, SignalTo(s), SignalCall(k, s).0)
  {
    InvFormed(k);
    var c := SignalTo(s);
    if !Works(k, c) {
      FailedNext(k, c);
    } else {
      assert Counted(k, s);
      var k1 := WithCount(k, s, ToInt32(k.sems[s].count + 1));
      SemStay(k, k1.sems);
      if k.lists[s] != [] {
        FirstJoins(k1, s);
        var p := k.lists[s][0];
        var k2 := PutReady(WithList(k1, s, k1.lists[s][1..]), p);
        Rebase(k, k1, k2, ReadyList(k1) + [p]);
        assert UpTo(k.lists[s], 1) == [p];
        assert CanRun(k, c) == ReadyList(k) + [p];
        hide Core, Scheduled, RunsNext, PutReady, Resched, Midway;
        ThenAtOnce(k, c, k2);
      } else {
        assert UpTo(k.lists[s], 1) == [];
        NobodyFreed(k, c);
        MidwayHere(k, k1);
        hide Core, RunsNext, Midway;
        ThenNothing(k, c, k1);
      }
    }
  }

  lemma SignalNNext(k: Kernel, s: int, n: int32)
    requires Inv(k) && May(k, SignalN(s, n))
    ensures WellFormed(k) && RunsNext(k, SignalN(s, n), SignalNCall(k, s, n).0)
  {
    InvFormed(k);
    var c := SignalN(s, n);
    if !Works(k, c) {
      FailedNext(k, c);
    } else {
      assert Counted(k, s);
      DeferStartInv(k);
      var k0 := DeferStart(k);
      SignalTimesInv(k0, s, n);
      SignalTimesJoin(k0, s, n);
      Rebase(k, k0, SignalTimes(k0, s, n), ReadyList(k) + UpTo(k.lists[s], n));
      hide Core, Scheduled, RunsNext, SignalTimes, DeferStop, Midway, UpTo;
      ThenAtEnd(k, c, SignalTimes(k0, s, n));
    }
  }

  /** The count of a semaphore has no part in it. */
  lemma MidwayCount(k: Kernel, k1: Kernel, s: nat, n: int, l: seq<int>)
    requires Midway(k, k1, l) && Core(k1) && s < NSEM
    ensures Midway(k, WithCount(k1, s, n), l) && Core(WithCount(k1, s, n))
  {
    SemStay(k1, k1.sems[s := k1.sems[s].(count := n)]);
  }

  lemma SemResetNext(k: Kernel, s: int, n: int32)
    requires Inv(k)
    ensures WellFormed(k) && RunsNext(k, SemReset(s, n), SemResetCall(k, s, n).0)
  {
    InvFormed(k);
    var c := SemReset(s, n);
    if !Works(k, c) {
      FailedNext(k, c);
    } else {
      DeferStartInv(k);
      var k0, m := DeferStart(k), |k.lists[s]|;
      ReadyTimesInv(k0, s, m);
      ReadyTimesJoin(k0, s, m);
      assert k.lists[s][..m] == k.lists[s];
      var k1 := ReadyTimes(k0, s, m);
      Rebase(k, k0, k1, ReadyList(k) + k.lists[s]);
      MidwayCount(k, k1, s, n, ReadyList(k) + k.lists[s]);
      hide Core, Scheduled, RunsNext, ReadyTimes, DeferStop, Midway;
      ThenAtEnd(k, c, WithCount(k1, s, n));
    }
  }

  /** The waiters of a semaphore released one by one, as it is deleted. */
  lemma AllReleased(k: Kernel, s: nat)
    requires Inv(k) && s < NSEM && k.sems[s].used
    ensures WellFormed(k) && Pids(k.lists[s])
    ensures var k0 := DeferStart(k.(sems := k.sems[s := k.sems[s].(used := false)]));
            var k1 := SignalTimes(k0, s, |k.lists[s]|);
            && WellFormed(k0) && Midway(k, k1, ReadyList(k) + k.lists[s]) && Core(k1) && k1.ndefers == k.ndefers + 1
            && k1.attempt == ((k.ndefers > 0 && k.attempt) || k.lists[s] != [])
            && (k1.procs[k.curr].state.Curr? <==> k.procs[k.curr].state.Curr?)
  {
    assert Counted(k, s);
    var k' := k.(sems := k.sems[s := k.sems[s].(used := false)]);
    SemStay(k, k'.sems);
    DeferStartInv(k');
    var k0, m := DeferStart(k'), |k.lists[s]|;
    SignalTimesInv(k0, s, m);
    SignalTimesJoin(k0, s, m);
    assert UpTo(k.lists[s], m) == k.lists[s];
    hide Core, Scheduled, SignalTimes, UpTo, OfPrio;
    Rebase(k, k0, SignalTimes(k0, s, m), ReadyList(k) + k.lists[s]);
  }

  lemma SemDeleteNext(k: Kernel, s: int)
    requires Inv(k)
    ensures WellFormed(k) && RunsNext(k, SemDelete(s), SemDeleteCall(k, s).0)
  {
    hide Inv, RunsNext, SignalTimes, DeferStop, Midway, UpTo, OfPrio, ToInt32, SemDeleteCall;
    InvFormed(k);
    var c := SemDelete(s);
    if !Works(k, c) {
      FailedNext(k, c);
      NotDeleted(k, s);
    } else {
      AllReleased(k, s);
      DeletesSo(k, s);
      var k1 := SignalTimes(DeferStart(k.(sems := k.sems[s := k.sems[s].(used := false)])), s, |k.lists[s]|);
      MidwayCount(k, k1, s, ToInt32(k1.sems[s].count + 1), ReadyList(k) + k.lists[s]);
      ThenAtEnd(k, c, WithCount(k1, s, ToInt32(k1.sems[s].count + 1)));
    }
  }

  lemma NotDeleted(k: Kernel, s: int)
    requires WellFormed(k) && !Works(k, SemDelete(s))
    ensures SemDeleteCall(k, s).0 == k
  {
    hide SignalTimes, DeferStop;
  }

  /** As many signals as wait. */
  lemma DeletesSo(k: Kernel, s: nat)
    requires Inv(k) && WellFormed(k) && s < NSEM && k.sems[s].used
    ensures var k1 := SignalTimes(DeferStart(k.(sems := k.sems[s := k.sems[s].(used := false)])), s, |k.lists[s]|);
            SemDeleteCall(k, s).0 == DeferStop(WithCount(k1, s, ToInt32(k1.sems[s].count + 1))).0
  {
    assert Counted(k, s);
    hide Inv, SignalTimes, DeferStop, ToInt32;
  }

  /** Whoever runs is not among those that wait to. */
  lemma RunnerApart(k: Kernel, c: Call)
    requires Inv(k) && k.procs[k.curr].state.Curr? && c.Tick?
    ensures WellFormed(k) && k.curr !in CanRun(k, c)
  {
    InvFormed(k);
    StandsAt(k, k.curr, READYLIST);
    StandsAt(k, k.curr, SLEEPQ);
    hide Inv;
  }

  lemma TickFreed(k: Kernel)
    requires Inv(k)
    ensures WellFormed(k) && CanRun(k, Tick) == ReadyList(k) + Freed(k, Tick)
    ensures var l := k.lists[SLEEPQ];
            Freed(k, Tick) ==
            if l == [] then []
            else
              var key := k.key[l[0] := ToInt32(k.key[l[0]] - 1)];
              if key[l[0]] <= 0 then l[..Expired(l, key)] else []
  {
    InvFormed(k);
    if k.lists[SLEEPQ] != [] { TickExpired(k); }
    hide Inv, Expired, ToInt32;
  }

  /** What the clock's part in the list of sleepers leaves to its part in the time slice. */
  ghost predicate AfterSleepers(k: Kernel, t: Kernel, l: seq<int>, freed: bool)
    requires WellFormed(k) && WellFormed(t) && Pids(l)
  {
    && Runs(k, t, l, !k.procs[k.curr].state.Curr?, k.ndefers == 0 && freed) && t.ndefers == k.ndefers
    && (t.curr == k.curr && k.procs[k.curr].state.Curr? ==> t.preempt == k.preempt)
    && (k.ndefers > 0 ==> t.attempt == (k.attempt || freed) && t.preempt == k.preempt
                          && (t.procs[k.curr].state.Curr? <==> k.procs[k.curr].state.Curr?))
  }

  /** The clock's part in the list of sleepers. */
  lemma SleepersNext(k: Kernel)
    requires Inv(k)
    ensures WellFormed(k)
    ensures AfterSleepers(k, TickSleepers(k), CanRun(k, Tick), Freed(k, Tick) != [])
  {
    hide Core, Scheduled, Wakeup, OfPrio, Freed, CanRun, ToInt32, AllCounted;
    InvFormed(k);
    TickFreed(k);
    var l := k.lists[SLEEPQ];
    if l == [] {
      NoneWoken(k, k);
    } else {
      var k0 := k.(key := k.key[l[0] := ToInt32(k.key[l[0]] - 1)]);
      if k0.key[l[0]] <= 0 {
        RekeyInv(k, 0, k0.key[l[0]]);
        WakeNext(k, k0, Expired(l, k0.key));
        hide AfterSleepers, Expired;
      } else {
        NoneWoken(k, k0);
      }
    }
  }

  lemma NoneWoken(k: Kernel, k0: Kernel)
    requires WellFormed(k) && k0 == k.(key := k0.key) && WellFormed(k0)
    ensures AfterSleepers(k, k0, ReadyList(k) + [], false)
  {
    MidwayHere(k, k0);
    hide OfPrio;
  }

  lemma WakeNext(k: Kernel, k0: Kernel, n: nat)
    requires WellFormed(k) && k0 == k.(key := k0.key) && Inv(k0) && n <= |k.lists[SLEEPQ]|
    requires n == Expired(k.lists[SLEEPQ], k0.key)
    ensures Pids(k.lists[SLEEPQ])
    ensures AfterSleepers(k, Wakeup(k0), ReadyList(k) + k.lists[SLEEPQ][..n], n > 0)
  {
    DeferStartInv(k0);
    var k1 := DeferStart(k0);
    ReadyTimesInv(k1, SLEEPQ, n);
    ReadyTimesJoin(k1, SLEEPQ, n);
    var l := ReadyList(k) + k.lists[SLEEPQ][..n];
    Rebase(k, k1, ReadyTimes(k1, SLEEPQ, n), l);
    ThenStop(k, ReadyTimes(k1, SLEEPQ, n), l);
    hide Core, Scheduled, ReadyTimes, DeferStop, Midway, Runs, Expired;
  }

  lemma TickNext(k: Kernel)
    requires Inv(k)
    ensures WellFormed(k) && RunsNext(k, Tick, ClockTick(k))
  {
    hide Core, Freed, CanRun, TickSleepers, CountDown, OfPrio, Without, Runs, Resched, AllCounted;
    InvFormed(k);
    var t, l := TickSleepers(k), CanRun(k, Tick);
    SleepersNext(k);
    TickSleepersInv(k);
    TickSleepersMail(k);
    MailPrio(k, t);
    InvFormed(t);
    if k.procs[k.curr].state.Curr? { RunnerApart(k, Tick); }
    hide Scheduled, SameMail;
    if t.curr == k.curr {
      NotSwitched(k, t, l);
      hide AfterSleepers;
      CountedNext(k, t);
    } else {
      PassedOn(k, t, l);
    }
  }

  /** A tick that passes the processor on to those it wakes goes no further. */
  lemma PassedOn(k: Kernel, t: Kernel, l: seq<int>)
    requires WellFormed(k) && WellFormed(t) && l == CanRun(k, Tick) && t.curr != k.curr
    requires AfterSleepers(k, t, l, Freed(k, Tick) != [])
    ensures RunsNext(k, Tick, t.(owing := t.owing + {k.curr}))
  {
    hide Freed, CanRun, OfPrio, Without;
    assert Switched(k, t, l, !k.procs[k.curr].state.Curr?);
  }

  lemma NotSwitched(k: Kernel, t: Kernel, l: seq<int>)
    requires WellFormed(k) && WellFormed(t) && Pids(l) && t.curr == k.curr
    requires k.procs[k.curr].state.Curr? ==> k.curr !in l
    requires AfterSleepers(k, t, l, Freed(k, Tick) != []) && (k.ndefers == 0 ==> k.procs[k.curr].state.Curr?)
    ensures Stayed(k, t, l) && (k.ndefers == 0 ==> !Switched(k, t, l, false))
  {
    hide Freed;
    if k.ndefers == 0 && Switched(k, t, l, false) {
      FirstIn(k, l, k.curr);
    }
  }

  lemma FirstIn(k: Kernel, l: seq<int>, p: int)
    requires WellFormed(k) && Pids(l) && First(k, l, p)
    ensures p in l
  {
    OfPrioMembers(k, l, k.procs[p].prio);
    assert OfPrio(k, l, k.procs[p].prio)[0] in OfPrio(k, l, k.procs[p].prio);
  }

  /** The clock's part in the slice of the current process. */
  lemma CountedNext(k: Kernel, t: Kernel)
    requires WellFormed(k) && Inv(t) && WellFormed(t) && SamePrio(k, t) && Stayed(k, t, CanRun(k, Tick))
    requires AfterSleepers(k, t, CanRun(k, Tick), Freed(k, Tick) != [])
    requires k.ndefers == 0 ==> k.procs[k.curr].state.Curr? && !Switched(k, t, CanRun(k, Tick), false)
    ensures RunsNext(k, Tick, CountDown(t))
  {
    CountDownIs(t);
    SliceStay(t, QUANTUM, t.owing);
    assert t.ndefers == 0 ==> t.procs[t.curr].state.Curr?;
    hide Core, Scheduled, Resched, CountDown, Freed, CanRun, OfPrio, Without, Switched;
    if k.preempt <= 1 {
      var t1 := t.(preempt := QUANTUM);
      assert Midway(k, t1, CanRun(k, Tick));
      hide Midway;
      ThenResched(k, t1, CanRun(k, Tick));
    } else {
      assert Stayed(k, t.(preempt := t.preempt - 1), CanRun(k, Tick));
    }
  }

  lemma StopNext(k: Kernel)
    requires Inv(k)
    ensures WellFormed(k) && RunsNext(k, StopDefer, DeferStop(k).0)
  {
    InvFormed(k);
    if k.ndefers == 0 {
      FailedNext(k, StopDefer);
    } else {
      var k1 := k.(ndefers := k.ndefers - 1);
      Stay(k, k1);
      NobodyFreed(k, StopDefer);
      MidwayHere(k, k1);
      hide Base, Scheduled, Resched, OfPrio;
      if k1.ndefers == 0 && k.attempt {
        hide Core, Midway, Runs;
        ThenResched(k, k1, ReadyList(k));
      }
    }
  }

  /** Calls that concern the scheduler in nothing. */
  lemma OtherNext(k: Kernel, c: Call)
    requires Inv(k) && (c.Take? || c.Create? || c.SemCreate? || c.StartDefer?)
    ensures WellFormed(k) && RunsNext(k, c, Do(k, c).0)
  {
    InvFormed(k);
    hide Inv, FreeSem, OfPrio;
    NobodyFreed(k, c);
    var k' := Do(k, c).0;
    assert k'.curr == k.curr && ReadyList(k') == ReadyList(k);
  }

  /** After every call and every tick: who has the processor, and in what order the others wait for it. */
  lemma CallNext(k: Kernel, c: Call)
    requires Inv(k) && May(k, c)
    ensures WellFormed(k) && RunsNext(k, c, Do(k, c).0)
  {
    hide RunsNext, OfPrio, Resched, PutAsleep, WaitCall, SignalCall, SignalNCall, SemResetCall, SemDeleteCall, SendCall,
      SuspendCall, ResumeCall, ClockTick, DeferStop, ReceiveCall, RecvTimeCall;
    InvFormed(k);
    hide Inv;
    match c
    case WaitOn(s) => WaitNext(k, s);
    case SignalTo(s) => SignalNext(k, s);
    case SignalN(s, n) => SignalNNext(k, s, n);
    case SemReset(s, n) => SemResetNext(k, s, n);
    case SemDelete(s) => SemDeleteNext(k, s);
    case SleepMs(delay) => if delay == 0 { YieldNext(k); } else { AsleepNext(k, c, ToInt32(delay), Sleep); }
    case Receive => ReceiveNext(k);
    case RecvTime(maxwait) => RecvTimeNext(k, maxwait);
    case Send(p, msg) => SendNext(k, p, msg);
    case Suspend(p) => SuspendNext(k, p);
    case Resume(p) => ResumeNext(k, p);
    case Tick => TickNext(k);
    case StopDefer => StopNext(k);
    case _ => OtherNext(k, c);
  }

  lemma ReceiveNext(k: Kernel)
    requires Inv(k) && May(k, Receive)
    ensures WellFormed(k) && RunsNext(k, Receive, ReceiveCall(k))
  {
    InvFormed(k);
    NobodyFreed(k, Receive);
    hide Core, Resched, RunsNext;
    if k.procs[k.curr].hasMsg {
      MidwayHere(k, k);
      ThenNothing(k, Receive, k);
    } else {
      ParkNext(k, Receive, Recv);
    }
  }

  lemma RecvTimeNext(k: Kernel, maxwait: int32)
    requires Inv(k) && May(k, RecvTime(maxwait))
    ensures WellFormed(k) && RunsNext(k, RecvTime(maxwait), RecvTimeCall(k, maxwait).0)
  {
    InvFormed(k);
    var c := RecvTime(maxwait);
    hide Core, Resched, RunsNext, PutAsleep;
    if maxwait < 0 {
      FailedNext(k, c);
    } else if k.procs[k.curr].hasMsg {
      NobodyFreed(k, c);
      MidwayHere(k, k);
      ThenNothing(k, c, k);
    } else {
      AsleepNext(k, c, maxwait, RecTim);
    }
  }
}
