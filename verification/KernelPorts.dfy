/** Kernel and ports together: ports whose semaphores are the kernel's, used by processes that the kernel runs. Every
    such run is, as far as the ports go, a run of the ports alone. */
module KernelPorts {
  import opened Codes
  import opened QueueSpec
  import opened KernelSpec
  import opened KernelInv
  import opened KernelCalls
  import opened KernelSemaphores
  import opened PortSems
  import P = PortSpec
  import PI = PortInv
  import PC = PortCalls
  import PR = PortRuns

  const NSLOTS := 2 * P.NPORTS

  /** `ids[2 * p]` and `ids[2 * p + 1]` are the semaphores of senders and receivers of port `p`. */
  datatype Joint = Joint(k: Kernel, s: P.Ports, ids: seq<int>)

  function PortOf(x: nat): nat { x / 2 }

  function Sslot(p: nat): nat { 2 * p }

  function Rslot(p: nat): nat { 2 * p + 1 }

  /** The semaphore that the ports take to be in slot `x`. */
  function Slot(s: P.Ports, x: nat): P.PSem
    requires |s.tab| == P.NPORTS && x < NSLOTS
  {
    if x % 2 == 0 then s.tab[PortOf(x)].ssem else s.tab[PortOf(x)].rsem
  }

  /** The semaphore of the slot exists: it was created, and not deleted yet. */
  predicate Live(s: P.Ports, x: nat)
    requires |s.tab| == P.NPORTS && x < NSLOTS
  {
    var port := s.tab[PortOf(x)];
    if x % 2 == 0 then port.hasS && (port.state.Alloc? || (port.state.Limbo? && port.state.reset))
    else port.hasR && (port.state.Alloc? || (port.state.Limbo? && (port.state.reset || port.state.receiversLeft)))
  }

  /** The semaphore of the slot could not be created. */
  predicate Missing(s: P.Ports, x: nat)
    requires |s.tab| == P.NPORTS && x < NSLOTS
  {
    var port := s.tab[PortOf(x)];
    (port.state.Alloc? || port.state.Limbo?) && if x % 2 == 0 then !port.hasS else !port.hasR
  }

  predicate SlotOk(k: Kernel, s: P.Ports, ids: seq<int>, x: nat)
    requires WellFormed(k) && |s.tab| == P.NPORTS && |ids| == NSLOTS && x < NSLOTS
  {
    && (Live(s, x) ==> 0 <= ids[x] < NSEM && k.sems[ids[x]].used && View(k, ids[x]) == Slot(s, x))
    && (Missing(s, x) ==> ids[x] == SYSERR)
  }

  ghost predicate SlotsOk(k: Kernel, s: P.Ports, ids: seq<int>)
  {
    && WellFormed(k) && |s.tab| == P.NPORTS && |ids| == NSLOTS
    && (forall x :: 0 <= x < NSLOTS ==> SlotOk(k, s, ids, x))
    && forall x, y :: 0 <= x < y < NSLOTS && Live(s, x) && Live(s, y) ==> ids[x] != ids[y]
  }

  ghost predicate Coupled(j: Joint)
  {
    Inv(j.k) && PI.Inv(j.s) && SlotsOk(j.k, j.s, j.ids)
  }

  // --- one semaphore at a time ---

  /** A kernel call on the semaphore of slot `x`, and what the ports take it to do there. */
  lemma OneSlot(k: Kernel, k': Kernel, s: P.Ports, s': P.Ports, ids: seq<int>, x: nat)
    requires SlotsOk(k, s, ids) && WellFormed(k') && |s'.tab| == P.NPORTS && x < NSLOTS
    requires 0 <= ids[x] < NSEM && Live(s, x) && OthersSame(k, k', ids[x])
    requires forall y :: 0 <= y < NSLOTS && y != x && Live(s', y) ==> Live(s, y) && Slot(s', y) == Slot(s, y)
    requires forall y :: 0 <= y < NSLOTS && Missing(s', y) ==> Missing(s, y)
    requires Live(s', x) ==> k'.sems[ids[x]].used && View(k', ids[x]) == Slot(s', x)
    ensures SlotsOk(k', s', ids)
  {
    hide Live, Missing, Slot, View, WellFormed;
    forall y | 0 <= y < NSLOTS
      ensures SlotOk(k', s', ids, y)
    {
      assert SlotOk(k, s, ids, y);
      if y != x && Live(s', y) { assert ids[y] != ids[x]; }
    }
  }

  /** The ports change with no call of the kernel, or a call that leaves the live semaphores alone. */
  lemma NoSlot(k: Kernel, k': Kernel, s: P.Ports, s': P.Ports, ids: seq<int>)
    requires SlotsOk(k, s, ids) && WellFormed(k') && |s'.tab| == P.NPORTS
    requires forall y :: 0 <= y < NSLOTS && Live(s', y) ==> Live(s, y) && Slot(s', y) == Slot(s, y)
    requires forall y :: 0 <= y < NSLOTS && Missing(s', y) ==> Missing(s, y)
    requires forall t :: 0 <= t < NSEM && k.sems[t].used && Owned(s, ids, t) ==>
               View(k', t) == View(k, t) && k'.sems[t].used
    ensures SlotsOk(k', s', ids)
  {
    hide Live, Missing, Slot, View, WellFormed;
    forall y | 0 <= y < NSLOTS
      ensures SlotOk(k', s', ids, y)
    {
      assert SlotOk(k, s, ids, y);
      if Live(s', y) { assert Owned(s, ids, ids[y]); }
    }
  }

  /** The semaphore is one of a port's. */
  ghost predicate Owned(s: P.Ports, ids: seq<int>, t: int)
    requires |s.tab| == P.NPORTS && |ids| == NSLOTS
  {
    exists x :: 0 <= x < NSLOTS && Live(s, x) && ids[x] == t
  }

  // --- calls of the kernel that are none of the ports' business ---

  /** A call of the kernel that names no semaphore of a port. */
  lemma OtherCall(j: Joint, c: Call)
    requires Coupled(j) && WellFormed(j.k) && KernelSpec.May(j.k, c) && (OnSem(c) ==> !Owned(j.s, j.ids, c.s))
    ensures Coupled(j.(k := KernelSpec.Do(j.k, c).0))
  {
    hide Inv, PI.Inv, View, Live, KernelSpec.Do;
    DoInv(j.k, c);
    var k' := KernelSpec.Do(j.k, c).0;
    if OnSem(c) {
      OneSem(j.k, c);
    } else if c.SemCreate? {
      CreateSems(j.k, c.n);
      assert k' == SemCreateCall(j.k, c.n).0 by { IsCreate(j.k, c.n); }
    } else {
      PlainSems(j.k, c);
      SameViews(j.k, k');
    }
    NoSlot(j.k, k', j.s, j.s, j.ids);
  }

  lemma IsCreate(k: Kernel, n: int32)
    requires WellFormed(k)
    ensures KernelSpec.Do(k, SemCreate(n)) == SemCreateCall(k, n)
  {
  }

  lemma SameViews(k: Kernel, k': Kernel)
    requires SemsSame(k, k')
    ensures forall t :: 0 <= t < NSEM ==> View(k', t) == View(k, t) && k'.sems[t].used == k.sems[t].used
  {
  }

  /** Creating a semaphore leaves those in use alone. */
  lemma CreateSems(k: Kernel, n: int32)
    requires Inv(k)
    ensures var (k', id) := SemCreateCall(k, n);
            && WellFormed(k)
            && (forall t :: 0 <= t < NSEM && k.sems[t].used ==> View(k', t) == View(k, t) && k'.sems[t].used)
            && (id != SYSERR ==>
                  0 <= id < NSEM && !k.sems[id].used && k'.sems[id].used && View(k', id) == P.PSem(n, []))
  {
    CoreFormed(k);
    if n >= 0 { CreateIsNew(k, n); }
    hide Core, Scheduled, FreeSem;
  }

  // --- the steps ---

  datatype JStep =
    | PtSend(port: int, msg: int) | PtRecv(port: int) | PtResume
    | PtClear(port: int, reset: bool) | PtClearing(port: int)
    | PtCreate(count: int32) | Other(c: Call)

  /** The current process makes or goes on with a call on a port, rescheduling not being put off; or it calls the
      kernel, but not on a semaphore of a port; or the clock ticks. A process that comes out of a wait on a port goes
      on with its call before it does anything else. */
  ghost predicate May(j: Joint, st: JStep)
    requires WellFormed(j.k) && P.WellFormed(j.s) && |j.ids| == NSLOTS
  {
    if st.Other? then
      && KernelSpec.May(j.k, st.c) && (OnSem(st.c) ==> !Owned(j.s, j.ids, st.c.s))
      && (j.k.curr in j.s.calls ==> st.c.Tick?)
    else
      && j.k.ndefers == 0 && j.k.curr != NULLPROC
      && (if st.PtResume? then j.k.curr in j.s.calls else j.k.curr !in j.s.calls)
      && (st.PtClearing? ==> 0 <= st.port < P.NPORTS && j.s.tab[st.port].state.Limbo?)
  }

  /** A sender past its semaphore. */
  function PutMessage(k: Kernel, s: P.Ports, ids: seq<int>, p: nat, m: int): (Joint, P.Outcome)
    requires WellFormed(k) && P.WellFormed(s) && |ids| == NSLOTS && p < P.NPORTS
  {
    var (s', o) := P.Enqueue(s, p, m);
    (Joint(if o == P.Panic then k else SignalCall(k, ids[Rslot(p)]).0, s', ids), o)
  }

  /** A receiver past its semaphore. */
  function GetMessage(k: Kernel, s: P.Ports, ids: seq<int>, p: nat): (Joint, P.Outcome)
    requires WellFormed(k) && P.WellFormed(s) && |ids| == NSLOTS && p < P.NPORTS
  {
    var (s', o) := P.Dequeue(s, p);
    (Joint(if o == P.Fault then k else SignalCall(k, ids[Sslot(p)]).0, s', ids), o)
  }

  /** Whether the caller waits, and whether it fails, is for the kernel to say. */
  function SendStep(j: Joint, p: int, m: int): (Joint, P.Outcome)
    requires WellFormed(j.k) && P.WellFormed(j.s) && |j.ids| == NSLOTS
  {
    if P.BadPort(j.s, p) then (j, P.Done(SYSERR))
    else
      var id, port, pid := j.ids[Sslot(p)], j.s.tab[p], j.k.curr;
      var (k1, r) := WaitCall(j.k, id);
      if r == SYSERR then (j, P.Done(SYSERR))
      else
        var s1 := P.WithPort(j.s, p, port.(ssem := P.Down(port.ssem, pid)));
        if k1.sems[id].count < 0 then
          (Joint(k1, s1.(calls := s1.calls[pid := P.Sending(p, port.epoch, m)]), j.ids), P.Blocked)
        else PutMessage(k1, s1, j.ids, p, m)
  }

  function RecvStep(j: Joint, p: int): (Joint, P.Outcome)
    requires WellFormed(j.k) && P.WellFormed(j.s) && |j.ids| == NSLOTS
  {
    if P.BadPort(j.s, p) then (j, P.Done(SYSERR))
    else
      var id, port, pid := j.ids[Rslot(p)], j.s.tab[p], j.k.curr;
      var (k1, r) := WaitCall(j.k, id);
      if r == SYSERR then (j, P.Done(SYSERR))
      else
        var s1 := P.WithPort(j.s, p, port.(rsem := P.Down(port.rsem, pid)));
        if k1.sems[id].count < 0 then
          (Joint(k1, s1.(calls := s1.calls[pid := P.Receiving(p, port.epoch)]), j.ids), P.Blocked)
        else GetMessage(k1, s1, j.ids, p)
  }

  function ResumeStep(j: Joint): (Joint, P.Outcome)
    requires WellFormed(j.k) && P.WellFormed(j.s) && |j.ids| == NSLOTS && j.k.curr in j.s.calls
  {
    var c := j.s.calls[j.k.curr];
    var s1 := j.s.(calls := j.s.calls - {j.k.curr});
    if !j.s.tab[c.port].state.Alloc? || j.s.tab[c.port].epoch != c.epoch then (j.(s := s1), P.Done(SYSERR))
    else match c
      case Sending(p, _, m) => PutMessage(j.k, s1, j.ids, p, m)
      case Receiving(p, _) => GetMessage(j.k, s1, j.ids, p)
  }

  function ClearStep(j: Joint, p: int, reset: bool): (Joint, P.Outcome)
    requires WellFormed(j.k) && P.WellFormed(j.s) && |j.ids| == NSLOTS
  {
    var (s', o) := P.ClearCall(j.s, p, reset);
    if P.BadPort(j.s, p) then (j, o)
    else
      var id := j.ids[Sslot(p)];
      (Joint(if reset then SemResetCall(j.k, id, j.s.tab[p].maxcnt).0 else SemDeleteCall(j.k, id).0, s', j.ids), o)
  }

  function ClearingStep(j: Joint, p: nat): (Joint, P.Outcome)
    requires WellFormed(j.k) && P.WellFormed(j.s) && |j.ids| == NSLOTS && p < P.NPORTS && j.s.tab[p].state.Limbo?
  {
    var (s', o) := P.ClearOn(j.s, p);
    var id, port := j.ids[Rslot(p)], j.s.tab[p];
    if !port.state.receiversLeft then (j.(s := s'), o)
    else (Joint(if port.state.reset then SemResetCall(j.k, id, 0).0 else SemDeleteCall(j.k, id).0, s', j.ids), o)
  }

  function CreateStep(j: Joint, count: int): (Joint, P.Outcome)
    requires WellFormed(j.k) && P.WellFormed(j.s) && |j.ids| == NSLOTS
  {
    var p := P.FreePort(j.s.tab, j.s.nextid, P.NPORTS);
    if count < 0 || p == SYSERR then (j, P.Done(SYSERR))
    else
      var (k1, id1) := SemCreateCall(j.k, count);
      var (k2, id2) := SemCreateCall(k1, 0);
      var (s', o) := P.CreateCall(j.s, count, id1 != SYSERR, id2 != SYSERR);
      (Joint(k2, s', j.ids[Sslot(p) := id1][Rslot(p) := id2]), o)
  }

  function Do(j: Joint, st: JStep): (Joint, P.Outcome)
    requires WellFormed(j.k) && P.WellFormed(j.s) && |j.ids| == NSLOTS
    requires st.PtResume? ==> j.k.curr in j.s.calls
    requires st.PtClearing? ==> 0 <= st.port < P.NPORTS && j.s.tab[st.port].state.Limbo?
  {
    match st
    case PtSend(p, m) => SendStep(j, p, m)
    case PtRecv(p) => RecvStep(j, p)
    case PtResume => ResumeStep(j)
    case PtClear(p, reset) => ClearStep(j, p, reset)
    case PtClearing(p) => ClearingStep(j, p)
    case PtCreate(count) => CreateStep(j, count)
    case Other(c) => (j.(k := KernelSpec.Do(j.k, c).0), P.Done(KernelSpec.Do(j.k, c).1))
  }

  /** The step of the ports that this is; none for a call of the kernel. */
  function AsPortStep(j: Joint, st: JStep): seq<P.Step>
    requires WellFormed(j.k) && P.WellFormed(j.s)
  {
    match st
    case PtSend(p, m) => [P.Send(j.k.curr, p, m)]
    case PtRecv(p) => [P.Recv(j.k.curr, p)]
    case PtResume => [P.Resume(j.k.curr)]
    case PtClear(p, reset) => [P.Clear(p, reset)]
    case PtClearing(p) => [P.Clearing(p)]
    case PtCreate(count) =>
      var (k1, id1) := SemCreateCall(j.k, if count < 0 then 0 else count);
      [P.Create(count, id1 != SYSERR, SemCreateCall(k1, 0).1 != SYSERR)]
    case Other(_) => []
  }

  /** What a step does to the ports is what the step of the ports does, and all stays in order unless the system
      stops. */
  ghost predicate Follows(j: Joint, st: JStep)
    requires WellFormed(j.k) && P.WellFormed(j.s) && |j.ids| == NSLOTS && May(j, st)
  {
    var (j', o) := Do(j, st);
    && (o != P.Panic ==> Coupled(j'))
    && if st.Other? then j'.s == j.s
       else var pst := AsPortStep(j, st)[0]; P.May(j.s, pst) && (j'.s, o) == P.Do(j.s, pst)
  }

  // --- every step follows ---

  lemma SlotSays(k: Kernel, s: P.Ports, ids: seq<int>, x: nat)
    requires SlotsOk(k, s, ids) && x < NSLOTS
    ensures SlotOk(k, s, ids, x)
  {
  }

  /** The two slots of a port. */
  lemma SlotsOf(p: nat)
    requires p < P.NPORTS
    ensures Sslot(p) < NSLOTS && PortOf(Sslot(p)) == p && Sslot(p) % 2 == 0
    ensures Rslot(p) < NSLOTS && PortOf(Rslot(p)) == p && Rslot(p) % 2 == 1
    ensures forall y: nat :: PortOf(y) == p ==> y == Sslot(p) || y == Rslot(p)
  {
  }

  /** Two tables that differ only in one semaphore. */
  ghost predicate OnlySlot(s: P.Ports, s': P.Ports, x: nat)
    requires |s.tab| == |s'.tab| == P.NPORTS && x < NSLOTS
  {
    forall y :: 0 <= y < NSLOTS ==> (Live(s', y) <==> Live(s, y)) && (Missing(s', y) <==> Missing(s, y))
                                    && (y != x ==> Slot(s', y) == Slot(s, y))
  }

  lemma SenderSlot(s: P.Ports, p: nat, sem: P.PSem, tab: seq<P.Port>)
    requires |s.tab| == P.NPORTS && p < P.NPORTS && |tab| == P.NPORTS
    requires forall q :: 0 <= q < P.NPORTS && q != p ==> tab[q] == s.tab[q]
    requires tab[p].state == s.tab[p].state && tab[p].hasS == s.tab[p].hasS && tab[p].hasR == s.tab[p].hasR
    requires tab[p].ssem == sem && tab[p].rsem == s.tab[p].rsem
    ensures var s' := s.(tab := tab);
            Sslot(p) < NSLOTS && OnlySlot(s, s', Sslot(p)) && Slot(s', Sslot(p)) == sem
    ensures Slot(s, Sslot(p)) == s.tab[p].ssem
    ensures s.tab[p].state.Alloc? ==> if s.tab[p].hasS then Live(s, Sslot(p)) else Missing(s, Sslot(p))
  {
    SlotsOf(p);
  }

  lemma ReceiverSlot(s: P.Ports, p: nat, sem: P.PSem, tab: seq<P.Port>)
    requires |s.tab| == P.NPORTS && p < P.NPORTS && |tab| == P.NPORTS
    requires forall q :: 0 <= q < P.NPORTS && q != p ==> tab[q] == s.tab[q]
    requires tab[p].state == s.tab[p].state && tab[p].hasS == s.tab[p].hasS && tab[p].hasR == s.tab[p].hasR
    requires tab[p].rsem == sem && tab[p].ssem == s.tab[p].ssem
    ensures var s' := s.(tab := tab);
            Rslot(p) < NSLOTS && OnlySlot(s, s', Rslot(p)) && Slot(s', Rslot(p)) == sem
    ensures Slot(s, Rslot(p)) == s.tab[p].rsem
    ensures s.tab[p].state.Alloc? ==> if s.tab[p].hasR then Live(s, Rslot(p)) else Missing(s, Rslot(p))
  {
    SlotsOf(p);
  }

  /** Slots are about the table of ports alone. */
  lemma SameTab(k: Kernel, s: P.Ports, s': P.Ports, ids: seq<int>)
    requires SlotsOk(k, s, ids) && s'.tab == s.tab
    ensures SlotsOk(k, s', ids)
  {
    hide View, WellFormed;
    forall y | 0 <= y < NSLOTS
      ensures SlotOk(k, s', ids, y) && (Live(s', y) <==> Live(s, y))
    {
      assert SlotOk(k, s, ids, y) && (Missing(s', y) <==> Missing(s, y)) && Slot(s', y) == Slot(s, y);
    }
    hide Live, Slot, Missing;
  }

  /** A signal to the semaphore of a slot, as the ports see it. */
  lemma SignalSlot(k: Kernel, s: P.Ports, s': P.Ports, ids: seq<int>, x: nat)
    requires Inv(k) && SlotsOk(k, s, ids) && x < NSLOTS && |s'.tab| == P.NPORTS && OnlySlot(s, s', x)
    requires Live(s, x) || Missing(s, x)
    requires Slot(s', x) == P.Signalled(Slot(s, x), Live(s, x)) && (Live(s, x) ==> Slot(s, x).count < MAXINT)
    ensures Inv(SignalCall(k, ids[x]).0) && SlotsOk(SignalCall(k, ids[x]).0, s', ids)
  {
    hide Inv, Live, Missing, Slot, SignalCall, P.Up;
    SlotSays(k, s, ids, x);
    if Live(s, x) {
      SignalInv(k, ids[x]);
      SignalIsUp(k, ids[x]);
      StillUsed(k, ids[x]);
      OneSlot(k, SignalCall(k, ids[x]).0, s, s', ids, x);
    } else {
      NoSignal(k);
      NoSlot(k, k, s, s', ids);
    }
  }

  lemma NoSignal(k: Kernel)
    requires WellFormed(k)
    ensures SignalCall(k, SYSERR).0 == k && WaitCall(k, SYSERR) == (k, SYSERR)
    ensures SemDeleteCall(k, SYSERR).0 == k && forall n :: SemResetCall(k, SYSERR, n).0 == k
  {
  }

  /** A wait, a signal or a reset does not free a semaphore. */
  lemma StillUsed(k: Kernel, id: nat)
    requires Inv(k) && id < NSEM && k.sems[id].used
    ensures SignalCall(k, id).0.sems[id].used && WaitCall(k, id).0.sems[id].used
  {
    CoreFormed(k);
    assert Counted(k, id);
    hide Core, Scheduled, SignalOnce, Resched, ToInt32;
    SignalOnceCore(k, id);
  }

  lemma ResetUsed(k: Kernel, id: nat, n: nat)
    requires Inv(k) && id < NSEM && k.sems[id].used
    ensures SemResetCall(k, id, n).0.sems[id].used
  {
    CoreFormed(k);
    hide Core, Scheduled, ReadyTimes, DeferStop;
    DeferStartInv(k);
    ReadyTimesInv(DeferStart(k), id, |k.lists[id]|);
    var k1 := ReadyTimes(DeferStart(k), id, |k.lists[id]|);
    SemStay(k1, k1.sems[id := k1.sems[id].(count := n)]);
    DeferStopInv(WithCount(k1, id, n));
  }

  lemma PutFollows(k: Kernel, s: P.Ports, ids: seq<int>, p: nat, m: int)
    requires Inv(k) && P.WellFormed(s) && SlotsOk(k, s, ids) && p < P.NPORTS && s.tab[p].state.Alloc?
    requires s.tab[p].rsem.count < MAXINT
    ensures WellFormed(k)
    ensures var (j', o) := PutMessage(k, s, ids, p, m);
            o != P.Panic ==> Inv(j'.k) && SlotsOk(j'.k, j'.s, ids) && j'.s == P.Enqueue(s, p, m).0 && j'.ids == ids
  {
    var s' := P.Enqueue(s, p, m).0;
    if P.Enqueue(s, p, m).1 != P.Panic {
      var sem := P.Signalled(s.tab[p].rsem, s.tab[p].hasR);
      ReceiverSlot(s, p, sem, s'.tab);
      hide Inv, Live, Missing, Slot, SlotsOk, P.Signalled, SignalCall, OnlySlot;
      var s1 := s.(tab := s'.tab);
      LiveOrMissing(s, Rslot(p));
      SignalSlot(k, s, s1, ids, Rslot(p));
      SameTab(SignalCall(k, ids[Rslot(p)]).0, s1, s', ids);
    }
  }

  /** The two exclude each other. */
  lemma LiveOrMissing(s: P.Ports, x: nat)
    requires |s.tab| == P.NPORTS && x < NSLOTS
    ensures Live(s, x) ==> !Missing(s, x)
  {
  }

  lemma GetFollows(k: Kernel, s: P.Ports, ids: seq<int>, p: nat)
    requires Inv(k) && P.WellFormed(s) && SlotsOk(k, s, ids) && p < P.NPORTS && s.tab[p].state.Alloc?
    requires s.tab[p].ssem.count < MAXINT
    ensures WellFormed(k)
    ensures var (j', o) := GetMessage(k, s, ids, p);
            o != P.Fault ==> Inv(j'.k) && SlotsOk(j'.k, j'.s, ids) && j'.s == P.Dequeue(s, p).0 && j'.ids == ids
  {
    var s' := P.Dequeue(s, p).0;
    if P.Dequeue(s, p).1 != P.Fault {
      var sem := P.Signalled(s.tab[p].ssem, s.tab[p].hasS);
      SenderSlot(s, p, sem, s'.tab);
      hide Inv, Live, Missing, Slot, SlotsOk, P.Signalled, SignalCall, OnlySlot;
      var s1 := s.(tab := s'.tab);
      LiveOrMissing(s, Sslot(p));
      SignalSlot(k, s, s1, ids, Sslot(p));
      SameTab(SignalCall(k, ids[Sslot(p)]).0, s1, s', ids);
    }
  }

  /** A wait on the semaphore of a slot, as the ports see it. */
  lemma WaitSlot(k: Kernel, s: P.Ports, s': P.Ports, ids: seq<int>, x: nat)
    requires Inv(k) && SlotsOk(k, s, ids) && x < NSLOTS && |s'.tab| == P.NPORTS && OnlySlot(s, s', x)
    requires KernelSpec.May(k, WaitOn(ids[x])) && Live(s, x) && Slot(s', x) == P.Down(Slot(s, x), k.curr)
    ensures var (k', r) := WaitCall(k, ids[x]);
            && r == OK && Inv(k') && SlotsOk(k', s', ids) && 0 <= ids[x] < NSEM
            && k'.sems[ids[x]].count == P.Down(Slot(s, x), k.curr).count
  {
    hide Inv, Live, Missing, Slot, WaitCall, P.Down;
    SlotSays(k, s, ids, x);
    WaitInv(k, ids[x]);
    WaitIsDown(k, ids[x]);
    StillUsed(k, ids[x]);
    OneSlot(k, WaitCall(k, ids[x]).0, s, s', ids, x);
  }

  lemma SendFollows(j: Joint, p: int, m: int)
    requires Coupled(j) && WellFormed(j.k) && P.WellFormed(j.s) && |j.ids| == NSLOTS && May(j, PtSend(p, m))
    ensures Follows(j, PtSend(p, m))
  {
    var k, s, ids, pid := j.k, j.s, j.ids, j.k.curr;
    var (s', o) := P.SendCall(s, pid, p, m);
    PC.DoInv(s, P.Send(pid, p, m));
    MayWait(j, PtSend(p, m));
    if !P.BadPort(s, p) {
      var x := Sslot(p);
      var s1 := P.WithPort(s, p, s.tab[p].(ssem := P.Down(s.tab[p].ssem, pid)));
      SenderSlot(s, p, P.Down(s.tab[p].ssem, pid), s1.tab);
      hide Inv, PI.Inv, Live, Missing, Slot, SlotsOk, P.Down, WaitCall, P.Enqueue, PutMessage, OnlySlot, PC.Capacity,
        PI.InvOff;
      if s.tab[p].hasS {
        WaitSlot(k, s, s1, ids, x);
        var k1 := WaitCall(k, ids[x]).0;
        if k1.sems[ids[x]].count < 0 {
          SameTab(k1, s1, s', ids);
        } else {
          DownCount(s.tab[p].ssem, pid);
          PC.PassSender(s, p, pid);
          PI.RoomToCount(s1, p, 1, 0);
          PutFollows(k1, s1, ids, p, m);
          PutSays(k1, s1, ids, p, m);
        }
      } else {
        SlotSays(k, s, ids, x);
        NoSignal(k);
      }
    }
  }

  lemma DownCount(sem: P.PSem, pid: int)
    ensures P.Down(sem, pid).count == sem.count - 1
  {
  }

  lemma PutSays(k: Kernel, s: P.Ports, ids: seq<int>, p: nat, m: int)
    requires WellFormed(k) && P.WellFormed(s) && |ids| == NSLOTS && p < P.NPORTS
    ensures PutMessage(k, s, ids, p, m).1 == P.Enqueue(s, p, m).1
    ensures PutMessage(k, s, ids, p, m).0.s == P.Enqueue(s, p, m).0
  {
  }

  lemma GetSays(k: Kernel, s: P.Ports, ids: seq<int>, p: nat)
    requires WellFormed(k) && P.WellFormed(s) && |ids| == NSLOTS && p < P.NPORTS
    ensures GetMessage(k, s, ids, p).1 == P.Dequeue(s, p).1 && GetMessage(k, s, ids, p).0.s == P.Dequeue(s, p).0
  {
  }

  /** The caller of a port runs, and may wait. */
  lemma MayWait(j: Joint, st: JStep)
    requires Coupled(j) && WellFormed(j.k) && P.WellFormed(j.s) && |j.ids| == NSLOTS && May(j, st) && !st.Other?
    ensures j.k.procs[j.k.curr].state.Curr? && forall id :: KernelSpec.May(j.k, WaitOn(id))
  {
    hide PI.Inv, SlotsOk;
  }

  lemma RecvFollows(j: Joint, p: int)
    requires Coupled(j) && WellFormed(j.k) && P.WellFormed(j.s) && |j.ids| == NSLOTS && May(j, PtRecv(p))
    ensures Follows(j, PtRecv(p))
  {
    hide P.WellFormed;
    var k, s, ids, pid := j.k, j.s, j.ids, j.k.curr;
    var (s', o) := P.RecvCall(s, pid, p);
    PC.DoInv(s, P.Recv(pid, p));
    MayWait(j, PtRecv(p));
    if !P.BadPort(s, p) {
      var x := Rslot(p);
      var s1 := P.WithPort(s, p, s.tab[p].(rsem := P.Down(s.tab[p].rsem, pid)));
      ReceiverSlot(s, p, P.Down(s.tab[p].rsem, pid), s1.tab);
      hide Inv, PI.Inv, Live, Missing, Slot, SlotsOk, P.Down, WaitCall, P.Dequeue, GetMessage, OnlySlot, PC.Capacity,
        PI.InvOff;
      if s.tab[p].hasR {
        WaitSlot(k, s, s1, ids, x);
        var k1 := WaitCall(k, ids[x]).0;
        if k1.sems[ids[x]].count < 0 {
          SameTab(k1, s1, s', ids);
        } else {
          DownCount(s.tab[p].rsem, pid);
          PC.PassReceiver(s, p, pid);
          PI.RoomToCount(s1, p, 0, 1);
          GetFollows(k1, s1, ids, p);
          GetSays(k1, s1, ids, p);
        }
      } else {
        SlotSays(k, s, ids, x);
        NoSignal(k);
      }
    }
  }

  /** A process that runs is on no semaphore: one in the middle of a call on a port has been released. */
  lemma RunsReleased(j: Joint)
    requires Coupled(j) && WellFormed(j.k) && P.WellFormed(j.s) && |j.ids| == NSLOTS && May(j, PtResume)
    ensures P.Released(j.s, j.k.curr)
  {
    var k, s, ids, pid := j.k, j.s, j.ids, j.k.curr;
    MayWait(j, PtResume);
    var c := s.calls[pid];
    var x := if c.Sending? then Sslot(c.port) else Rslot(c.port);
    SlotsOf(c.port);
    SlotSays(k, s, ids, x);
    assert PI.PortOk(s, c.port, 0, 0);
    if Live(s, x) {
      StandsAt(k, pid, ids[x]);
      assert P.QueueOf(s, c) == k.lists[ids[x]];
    } else {
      NobodyWaits(s, x);
    }
    hide Inv, PI.Inv, SlotsOk;
  }

  /** Nobody waits on a semaphore that is not there. */
  lemma NobodyWaits(s: P.Ports, x: nat)
    requires P.WellFormed(s) && x < NSLOTS && !Live(s, x) && PI.PortOk(s, PortOf(x), 0, 0)
    ensures Slot(s, x).waiting == []
  {
    hide PI.Callers, PI.Messages;
  }

  lemma ResumeFollows(j: Joint)
    requires Coupled(j) && WellFormed(j.k) && P.WellFormed(j.s) && |j.ids| == NSLOTS && May(j, PtResume)
    ensures Follows(j, PtResume)
  {
    RunsReleased(j);
    var k, s, ids, pid := j.k, j.s, j.ids, j.k.curr;
    PC.DoInv(s, P.Resume(pid));
    var c := s.calls[pid];
    var s1 := s.(calls := s.calls - {pid});
    SameTab(k, s, s1, ids);
    hide Inv, PI.Inv, SlotsOk, P.Enqueue, P.Dequeue, PutMessage, GetMessage, PC.Capacity, P.QueueOf, PI.InvOff;
    PC.AwakeInv(s, pid);
    if s.tab[c.port].state.Alloc? && s.tab[c.port].epoch == c.epoch {
      PI.RoomToCount(s1, c.port, if c.Sending? then 1 else 0, if c.Sending? then 0 else 1);
      match c {
        case Sending(p, _, m) =>
          PutFollows(k, s1, ids, p, m);
          PutSays(k, s1, ids, p, m);
        case Receiving(p, _) =>
          GetFollows(k, s1, ids, p);
          GetSays(k, s1, ids, p);
      }
    }
  }

  lemma OtherFollows(j: Joint, c: Call)
    requires Coupled(j) && WellFormed(j.k) && P.WellFormed(j.s) && |j.ids| == NSLOTS && May(j, Other(c))
    ensures Follows(j, Other(c))
  {
    hide Coupled, KernelSpec.Do, KernelSpec.May, Owned, WellFormed, P.WellFormed, P.Do, P.May, AsPortStep;
    OtherCall(j, c);
  }

  // --- clearing and creating ---

  lemma ClearFollows(j: Joint, p: int, reset: bool)
    requires Coupled(j) && WellFormed(j.k) && P.WellFormed(j.s) && |j.ids| == NSLOTS && May(j, PtClear(p, reset))
    ensures Follows(j, PtClear(p, reset))
  {
    var k, s, ids := j.k, j.s, j.ids;
    PC.DoInv(s, P.Clear(p, reset));
    if !P.BadPort(s, p) {
      assert PI.PortOk(s, p, 0, 0);
      SenderCleared(k, s, ids, p, reset);
      hide Inv, PI.Inv, SlotsOk, PC.Capacity, SemResetCall, SemDeleteCall;
    }
  }

  /** Deleting or resetting the semaphore of a slot, as the ports see it. */
  lemma SlotCleared(k: Kernel, s: P.Ports, s': P.Ports, ids: seq<int>, x: nat, reset: bool, n: nat)
    requires n <= MAXINT
    requires Inv(k) && SlotsOk(k, s, ids) && x < NSLOTS && |s'.tab| == P.NPORTS && (Live(s, x) || Missing(s, x))
    requires forall y :: 0 <= y < NSLOTS && Missing(s', y) ==> Missing(s, y)
    requires forall y :: 0 <= y < NSLOTS && y != x && Live(s', y) ==> Live(s, y) && Slot(s', y) == Slot(s, y)
    requires Live(s', x) ==> reset && Live(s, x) && Slot(s', x) == P.PSem(n, [])
    ensures WellFormed(k)
    ensures var k' := if reset then SemResetCall(k, ids[x], n).0 else SemDeleteCall(k, ids[x]).0;
            Inv(k') && SlotsOk(k', s', ids)
  {
    CoreFormed(k);
    hide Inv, Live, Missing, Slot, View, SemResetCall, SemDeleteCall;
    SlotSays(k, s, ids, x);
    SemResetInv(k, ids[x], n);
    SemDeleteInv(k, ids[x]);
    if Live(s, x) {
      if reset {
        ResetReleasesAll(k, ids[x], n);
        ResetUsed(k, ids[x], n);
        OneSlot(k, SemResetCall(k, ids[x], n).0, s, s', ids, x);
      } else {
        DeleteReleasesAll(k, ids[x]);
        OneSlot(k, SemDeleteCall(k, ids[x]).0, s, s', ids, x);
      }
    } else {
      NoSignal(k);
      NoSlot(k, k, s, s', ids);
    }
  }

  lemma SenderCleared(k: Kernel, s: P.Ports, ids: seq<int>, p: nat, reset: bool)
    requires Inv(k) && P.WellFormed(s) && SlotsOk(k, s, ids) && !P.BadPort(s, p) && s.tab[p].maxcnt <= MAXINT
    ensures WellFormed(k)
    ensures var id := ids[Sslot(p)];
            var k' := if reset then SemResetCall(k, id, s.tab[p].maxcnt).0 else SemDeleteCall(k, id).0;
            Inv(k') && SlotsOk(k', P.ClearCall(s, p, reset).0, ids)
  {
    SlotsOf(p);
    hide Inv, SlotsOk, SemResetCall, SemDeleteCall;
    SlotCleared(k, s, P.ClearCall(s, p, reset).0, ids, Sslot(p), reset, s.tab[p].maxcnt);
  }

  lemma ReceiverCleared(k: Kernel, s: P.Ports, ids: seq<int>, p: nat)
    requires Inv(k) && P.WellFormed(s) && SlotsOk(k, s, ids) && p < P.NPORTS
    requires s.tab[p].state.Limbo? && s.tab[p].state.receiversLeft
    ensures WellFormed(k)
    ensures var id := ids[Rslot(p)];
            var k' := if s.tab[p].state.reset then SemResetCall(k, id, 0).0 else SemDeleteCall(k, id).0;
            Inv(k') && SlotsOk(k', P.ClearOn(s, p).0, ids)
  {
    SlotsOf(p);
    hide Inv, SlotsOk, SemResetCall, SemDeleteCall;
    SlotCleared(k, s, P.ClearOn(s, p).0, ids, Rslot(p), s.tab[p].state.reset, 0);
  }

  lemma ClearingFollows(j: Joint, p: nat)
    requires Coupled(j) && WellFormed(j.k) && P.WellFormed(j.s) && |j.ids| == NSLOTS && May(j, PtClearing(p))
    ensures Follows(j, PtClearing(p))
  {
    var k, s, ids := j.k, j.s, j.ids;
    PC.DoInv(s, P.Clearing(p));
    if s.tab[p].state.receiversLeft {
      ReceiverCleared(k, s, ids, p);
    } else {
      ClearedPort(k, s, ids, p);
    }
    hide Inv, PI.Inv, SlotsOk, PC.Capacity, SemResetCall, SemDeleteCall;
  }

  lemma ClearedPort(k: Kernel, s: P.Ports, ids: seq<int>, p: nat)
    requires SlotsOk(k, s, ids) && P.WellFormed(s) && p < P.NPORTS && s.tab[p].state.Limbo?
    requires !s.tab[p].state.receiversLeft
    ensures SlotsOk(k, P.ClearOn(s, p).0, ids)
  {
    SlotsOf(p);
    hide SlotsOk, View;
    NoSlot(k, k, s, P.ClearOn(s, p).0, ids) by { assert WellFormed(k) by { SlotsFormed(k, s, ids); } }
  }

  lemma SlotsFormed(k: Kernel, s: P.Ports, ids: seq<int>)
    requires SlotsOk(k, s, ids)
    ensures WellFormed(k) && |s.tab| == P.NPORTS && |ids| == NSLOTS
    ensures forall x :: 0 <= x < NSLOTS ==> SlotOk(k, s, ids, x)
  {
  }

  lemma CreateFollows(j: Joint, count: int32)
    requires Coupled(j) && WellFormed(j.k) && P.WellFormed(j.s) && |j.ids| == NSLOTS && May(j, PtCreate(count))
    ensures Follows(j, PtCreate(count))
  {
    hide Inv, PI.Inv, SlotsOk, PC.Capacity, SemCreateCall, P.FreePort, P.NewPort;
    var k, s, ids := j.k, j.s, j.ids;
    var p := P.FreePort(s.tab, s.nextid, P.NPORTS);
    var n := if count < 0 then 0 else count;
    var (k1, id1) := SemCreateCall(k, n);
    var (k2, id2) := SemCreateCall(k1, 0);
    PC.DoInv(s, P.Create(count, id1 != SYSERR, id2 != SYSERR));
    if count >= 0 && p != SYSERR { CreateCoupled(k, s, ids, p, n); }
  }

  lemma CreateCoupled(k: Kernel, s: P.Ports, ids: seq<int>, p: nat, n: int32)
    requires n >= 0
    requires Inv(k) && SlotsOk(k, s, ids) && P.WellFormed(s) && p < P.NPORTS && s.tab[p].state.Free?
    ensures WellFormed(k) && |ids| == NSLOTS
    ensures var (k1, id1) := SemCreateCall(k, n);
            var (k2, id2) := SemCreateCall(k1, 0);
            var tab := s.tab[p := P.NewPort(s.tab[p].epoch + 1, n, id1 != SYSERR, id2 != SYSERR)];
            var next := if p + 1 >= P.NPORTS then 0 else p + 1;
            Inv(k2) && SlotsOk(k2, s.(tab := tab, nextid := next), ids[Sslot(p) := id1][Rslot(p) := id2])
  {
    CoreFormed(k);
    SlotsFormed(k, s, ids);
    hide Inv, SlotsOk, SemCreateCall, P.NewPort, WellFormed, View;
    var (k1, id1) := SemCreateCall(k, n);
    var (k2, id2) := SemCreateCall(k1, 0);
    SemCreateInv(k, n);
    SemCreateInv(k1, 0);
    CreateSems(k, n);
    CreateSems(k1, 0);
    CreatedPort(k, k1, k2, s, ids, p, n, id1, id2);
    var tab := s.tab[p := P.NewPort(s.tab[p].epoch + 1, n, id1 != SYSERR, id2 != SYSERR)];
    SameTab(k2, s.(tab := tab), s.(tab := tab, nextid := if p + 1 >= P.NPORTS then 0 else p + 1),
            ids[Sslot(p) := id1][Rslot(p) := id2]);
  }

  /** A new port with what semaphores could be created. */
  lemma CreatedPort(k: Kernel, k1: Kernel, k2: Kernel, s: P.Ports, ids: seq<int>, p: nat, n: nat, id1: int, id2: int)
    requires SlotsOk(k, s, ids) && WellFormed(k) && WellFormed(k1) && WellFormed(k2) && P.WellFormed(s)
    requires p < P.NPORTS && s.tab[p].state.Free?
    requires forall t :: 0 <= t < NSEM && k.sems[t].used ==> View(k1, t) == View(k, t) && k1.sems[t].used
    requires forall t :: 0 <= t < NSEM && k1.sems[t].used ==> View(k2, t) == View(k1, t) && k2.sems[t].used
    requires id1 != SYSERR ==>
               0 <= id1 < NSEM && !k.sems[id1].used && k1.sems[id1].used && View(k1, id1) == P.PSem(n, [])
    requires id2 != SYSERR ==>
               0 <= id2 < NSEM && !k1.sems[id2].used && k2.sems[id2].used && View(k2, id2) == P.PSem(0, [])
    ensures var tab := s.tab[p := P.NewPort(s.tab[p].epoch + 1, n, id1 != SYSERR, id2 != SYSERR)];
            SlotsOk(k2, s.(tab := tab), ids[Sslot(p) := id1][Rslot(p) := id2])
  {
    SlotsOf(p);
    var tab := s.tab[p := P.NewPort(s.tab[p].epoch + 1, n, id1 != SYSERR, id2 != SYSERR)];
    var s', ids' := s.(tab := tab), ids[Sslot(p) := id1][Rslot(p) := id2];
    hide View, WellFormed;
    forall x | 0 <= x < NSLOTS
      ensures SlotOk(k2, s', ids', x)
      ensures PortOf(x) != p && Live(s', x) ==>
                0 <= ids'[x] < NSEM && k.sems[ids'[x]].used && ids'[x] == ids[x] && Live(s, x)
    {
      assert SlotOk(k, s, ids, x);
    }
  }

  /** Every step of kernel and ports together is a step of the ports alone, and keeps all in order. */
  lemma StepFollows(j: Joint, st: JStep)
    requires Coupled(j) && WellFormed(j.k) && P.WellFormed(j.s) && |j.ids| == NSLOTS && May(j, st)
    ensures Follows(j, st)
  {
    hide Coupled, Follows, May, WellFormed;
    match st
    case PtSend(p, m) => SendFollows(j, p, m);
    case PtRecv(p) => RecvFollows(j, p);
    case PtResume => ResumeFollows(j);
    case PtClear(p, reset) => ClearFollows(j, p, reset);
    case PtClearing(p) => ClearingCase(j, p);
    case PtCreate(count) => CreateFollows(j, count);
    case Other(c) => OtherFollows(j, c);
  }

  lemma ClearingCase(j: Joint, p: int)
    requires Coupled(j) && WellFormed(j.k) && P.WellFormed(j.s) && |j.ids| == NSLOTS && May(j, PtClearing(p))
    ensures Follows(j, PtClearing(p))
  {
    ClearingFollows(j, p);
  }

  // --- runs ---

  /** All ports free, the null process running, no semaphore in use. */
  function Start(nodes: nat): Joint
  {
    Joint(Initial(), P.Initial(nodes), seq(NSLOTS, _ => SYSERR))
  }

  ghost predicate Formable(j: Joint) { WellFormed(j.k) && P.WellFormed(j.s) && |j.ids| == NSLOTS }

  /** The states of a run of kernel and ports; it does not go on after the system stopped. */
  ghost predicate IsRun(nodes: nat, states: seq<Joint>, steps: seq<JStep>)
  {
    && |states| == |steps| + 1 && states[0] == Start(nodes)
    && forall i :: 0 <= i < |steps| ==>
         && Formable(states[i]) && May(states[i], steps[i])
         && Do(states[i], steps[i]).1 != P.Panic && states[i + 1] == Do(states[i], steps[i]).0
  }

  /** What the ports alone go through in the first `i` steps of a run. */
  ghost function PortStates(states: seq<Joint>, steps: seq<JStep>, i: nat): seq<P.Ports>
    requires i <= |steps| && |states| == |steps| + 1
  {
    if i == 0 then [states[0].s]
    else PortStates(states, steps, i - 1) + if steps[i - 1].Other? then [] else [states[i].s]
  }

  ghost function PortSteps(nodes: nat, states: seq<Joint>, steps: seq<JStep>, i: nat): seq<P.Step>
    requires IsRun(nodes, states, steps) && i <= |steps|
  {
    if i == 0 then [] else PortSteps(nodes, states, steps, i - 1) + AsPortStep(states[i - 1], steps[i - 1])
  }

  lemma StartCoupled(nodes: nat)
    ensures Coupled(Start(nodes)) && PR.IsRun(nodes, [Start(nodes).s], [])
  {
    InitialInv();
    PR.InitialInv(nodes);
  }

  /** One step more of the ports. */
  lemma PortStepMore(nodes: nat, ss: seq<P.Ports>, qs: seq<P.Step>, st: P.Step, s': P.Ports)
    requires PR.IsRun(nodes, ss, qs) && |ss| == |qs| + 1 && P.WellFormed(ss[|qs|]) && P.May(ss[|qs|], st)
    requires P.Do(ss[|qs|], st).1 != P.Panic && s' == P.Do(ss[|qs|], st).0
    ensures PR.IsRun(nodes, ss + [s'], qs + [st])
  {
    hide P.WellFormed, P.May, P.Do, P.Initial;
  }

  /** In every run of kernel and ports together all stays in order, and what the ports go through is a run of the
      ports alone: whatever holds of those runs holds here. */
  lemma {:induction false} JointRunIsPortRun(nodes: nat, states: seq<Joint>, steps: seq<JStep>, i: nat)
    requires IsRun(nodes, states, steps) && i <= |steps|
    ensures |states| == |steps| + 1 && Coupled(states[i]) && Formable(states[i])
    ensures var ss, qs := PortStates(states, steps, i), PortSteps(nodes, states, steps, i);
            PR.IsRun(nodes, ss, qs) && |ss| == |qs| + 1 && ss[|qs|] == states[i].s
  {
    hide Coupled, Do, May, P.Do, P.May, AsPortStep, PR.IsRun;
    if i == 0 {
      StartCoupled(nodes);
      CoupledFormed(states[0]);
    } else {
      JointRunIsPortRun(nodes, states, steps, i - 1);
      StepFollows(states[i - 1], steps[i - 1]);
      CoupledFormed(states[i]);
      OneStep(states[i - 1], steps[i - 1]);
      if !steps[i - 1].Other? {
        var q := AsPortStep(states[i - 1], steps[i - 1]);
        assert q == [q[0]];
        PortStepMore(nodes, PortStates(states, steps, i - 1), PortSteps(nodes, states, steps, i - 1),
                     q[0], states[i].s);
      } else {
        var ss, qs := PortStates(states, steps, i - 1), PortSteps(nodes, states, steps, i - 1);
        assert ss + [] == ss && qs + [] == qs;
      }
    }
  }

  lemma CoupledFormed(j: Joint)
    requires Coupled(j)
    ensures Formable(j)
  {
  }

  lemma OneStep(j: Joint, st: JStep)
    requires Formable(j)
    ensures if st.Other? then AsPortStep(j, st) == [] else |AsPortStep(j, st)| == 1
  {
    hide SemCreateCall;
  }

  /** While the ports may not hold more messages together than there are nodes, no run of the whole system panics for
      want of a node, and no receiver finds its port empty. */
  lemma WholeSystemFindsNodes(nodes: nat, states: seq<Joint>, steps: seq<JStep>, i: nat, st: JStep)
    requires IsRun(nodes, states, steps) && i <= |steps| && |states| == |steps| + 1 && Formable(states[i])
    requires May(states[i], st)
    requires |states[i].s.tab| == P.NPORTS && PC.Capacity(states[i].s.tab, P.NPORTS) <= nodes && !st.Other?
    ensures Do(states[i], st).1 != P.Panic && Do(states[i], st).1 != P.Fault
  {
    hide Coupled, Do, P.Do, P.May, AsPortStep, PR.IsRun, PC.Capacity, May, IsRun;
    JointRunIsPortRun(nodes, states, steps, i);
    StepFollows(states[i], st);
    OneStep(states[i], st);
    PR.NeverOutOfNodes(nodes, PortStates(states, steps, i), PortSteps(nodes, states, steps, i),
                       |PortSteps(nodes, states, steps, i)|, AsPortStep(states[i], st)[0]);
  }

  /** In every state of such a run a process that is in the middle of a call on a port and has not been released waits
      in the kernel, on the semaphore of its port; one that runs has been released. */
  lemma CallersInKernel(nodes: nat, states: seq<Joint>, steps: seq<JStep>, i: nat, pid: nat)
    requires IsRun(nodes, states, steps) && i <= |steps| && |states| == |steps| + 1 && Formable(states[i])
    requires pid in states[i].s.calls && pid < NPROC && !P.Released(states[i].s, pid)
    ensures var j := states[i];
            var c := j.s.calls[pid];
            var id := j.ids[if c.Sending? then Sslot(c.port) else Rslot(c.port)];
            j.k.procs[pid].state.Wait? && j.k.procs[pid].sem == id
  {
    hide IsRun;
    JointRunIsPortRun(nodes, states, steps, i);
    WaitsInKernel(states[i], pid);
    hide Coupled;
  }

  lemma WaitsInKernel(j: Joint, pid: nat)
    requires Coupled(j) && Formable(j) && pid in j.s.calls && pid < NPROC && !P.Released(j.s, pid)
    ensures var c := j.s.calls[pid];
            var id := j.ids[if c.Sending? then Sslot(c.port) else Rslot(c.port)];
            j.k.procs[pid].state.Wait? && j.k.procs[pid].sem == id
  {
    var c := j.s.calls[pid];
    var x := if c.Sending? then Sslot(c.port) else Rslot(c.port);
    SlotsOf(c.port);
    SlotSays(j.k, j.s, j.ids, x);
    assert PI.PortOk(j.s, c.port, 0, 0);
    if Live(j.s, x) {
      StandsAt(j.k, pid, j.ids[x]);
    } else {
      NobodyWaits(j.s, x);
    }
    hide Inv, PI.Inv, SlotsOk;
  }
}
