/** The calls on ports as they run: over the port table with its linked nodes and the kernel's tables, with the ports'
    semaphores in the kernel. Each method does to both what the joint step of kernel and ports does. */
module PortSystems {
  import opened Codes
  import opened KernelSpec
  import opened KernelInv
  import opened KernelCalls
  import KernelTables
  import PortTables
  import P = PortSpec
  import PI = PortInv
  import PC = PortCalls
  import KP = KernelPorts

  /** The semaphores of all ports, senders' and receivers' in turn. */
  function IdsOf(tab: seq<PortTables.PtEntry>): (ids: seq<int>)
    ensures |ids| == 2 * |tab|
  {
    seq(2 * |tab|, x requires 0 <= x < 2 * |tab| => if x % 2 == 0 then tab[x / 2].ssem else tab[x / 2].rsem)
  }

  lemma IdsAt(tab: seq<PortTables.PtEntry>, p: nat)
    requires p < |tab|
    ensures IdsOf(tab)[KP.Sslot(p)] == tab[p].ssem && IdsOf(tab)[KP.Rslot(p)] == tab[p].rsem
  {
  }

  lemma IdsSame(tab: seq<PortTables.PtEntry>, tab': seq<PortTables.PtEntry>)
    requires PortTables.SameSems(tab, tab')
    ensures IdsOf(tab') == IdsOf(tab)
  {
  }

  lemma IdsNew(tab: seq<PortTables.PtEntry>, tab': seq<PortTables.PtEntry>, p: nat)
    requires p < |tab| == |tab'| && forall q :: 0 <= q < |tab| && q != p ==> tab'[q] == tab[q]
    ensures IdsOf(tab') == IdsOf(tab)[KP.Sslot(p) := tab'[p].ssem][KP.Rslot(p) := tab'[p].rsem]
  {
    forall x | 0 <= x < 2 * |tab|
      ensures IdsOf(tab')[x] == IdsOf(tab)[KP.Sslot(p) := tab'[p].ssem][KP.Rslot(p) := tab'[p].rsem][x]
    {
      assert x == 2 * (x / 2) + x % 2;
    }
  }

  /** The caller counted out of the semaphore it waits on. */
  function CountedOut(s: P.Ports, p: nat, pid: int, sending: bool): (s': P.Ports)
    requires P.WellFormed(s) && p < P.NPORTS
    ensures P.WellFormed(s')
  {
    P.WithPort(s, p, if sending then s.tab[p].(ssem := P.Down(s.tab[p].ssem, pid))
                     else s.tab[p].(rsem := P.Down(s.tab[p].rsem, pid)))
  }

  /** What a send does, case by case. */
  lemma SendCases(j: KP.Joint, p: int, m: int)
    requires KP.Formable(j)
    ensures P.BadPort(j.s, p) ==> KP.Do(j, KP.PtSend(p, m)) == (j, P.Done(SYSERR))
    ensures !P.BadPort(j.s, p) ==>
              var id, s1 := j.ids[KP.Sslot(p)], CountedOut(j.s, p, j.k.curr, true);
              var (k1, r) := WaitCall(j.k, id);
              if r == SYSERR then k1 == j.k && KP.Do(j, KP.PtSend(p, m)) == (j, P.Done(SYSERR))
              else
                0 <= id < |k1.sems| && KP.Do(j, KP.PtSend(p, m)) ==
                  if k1.sems[id].count < 0 then
                    var c := P.Sending(p, j.s.tab[p].epoch, m);
                    (KP.Joint(k1, s1.(calls := s1.calls[j.k.curr := c]), j.ids), P.Blocked)
                  else KP.PutMessage(k1, s1, j.ids, p, m)
  {
    hide P.Down, KP.PutMessage, Resched;
  }

  /** A caller that need not wait has passed its semaphore. */
  lemma SendPasses(j: KP.Joint, p: int, m: int)
    requires KP.Coupled(j) && KP.Formable(j) && KP.May(j, KP.PtSend(p, m)) && !P.BadPort(j.s, p)
    ensures var id := j.ids[KP.Sslot(p)];
            var (k1, r) := WaitCall(j.k, id);
            && Inv(j.k) && May(j.k, WaitOn(id)) && Inv(k1)
            && (r != SYSERR ==> 0 <= id < |k1.sems|)
            && (r != SYSERR && k1.sems[id].count >= 0 ==> PI.InvOff(CountedOut(j.s, p, j.k.curr, true), p, 1, 0))
  {
    var k, s, ids, x := j.k, j.s, j.ids, KP.Sslot(p);
    KP.MayWait(j, KP.PtSend(p, m));
    WaitInv(k, ids[x]);
    var s1 := CountedOut(s, p, k.curr, true);
    KP.SenderSlot(s, p, P.Down(s.tab[p].ssem, k.curr), s1.tab);
    hide Inv, PI.Inv, PI.InvOff, KP.Live, KP.Missing, KP.Slot, KP.SlotsOk, WaitCall, KP.OnlySlot;
    if s.tab[p].hasS {
      KP.WaitSlot(k, s, s1, ids, x);
      if s.tab[p].ssem.count > 0 { PC.PassSender(s, p, k.curr); }
    } else {
      KP.SlotSays(k, s, ids, x);
      KP.NoSignal(k);
    }
  }

  /** What a receive does, case by case. */
  lemma RecvCases(j: KP.Joint, p: int)
    requires KP.Formable(j)
    ensures P.BadPort(j.s, p) ==> KP.Do(j, KP.PtRecv(p)) == (j, P.Done(SYSERR))
    ensures !P.BadPort(j.s, p) ==>
              var id, s1 := j.ids[KP.Rslot(p)], CountedOut(j.s, p, j.k.curr, false);
              var (k1, r) := WaitCall(j.k, id);
              if r == SYSERR then k1 == j.k && KP.Do(j, KP.PtRecv(p)) == (j, P.Done(SYSERR))
              else
                0 <= id < |k1.sems| && KP.Do(j, KP.PtRecv(p)) ==
                  if k1.sems[id].count < 0 then
                    var c := P.Receiving(p, j.s.tab[p].epoch);
                    (KP.Joint(k1, s1.(calls := s1.calls[j.k.curr := c]), j.ids), P.Blocked)
                  else KP.GetMessage(k1, s1, j.ids, p)
  {
    hide P.Down, KP.GetMessage, Resched;
  }

  lemma RecvPasses(j: KP.Joint, p: int)
    requires KP.Coupled(j) && KP.Formable(j) && KP.May(j, KP.PtRecv(p)) && !P.BadPort(j.s, p)
    ensures var id := j.ids[KP.Rslot(p)];
            var (k1, r) := WaitCall(j.k, id);
            && Inv(j.k) && May(j.k, WaitOn(id)) && Inv(k1)
            && (r != SYSERR ==> 0 <= id < |k1.sems|)
            && (r != SYSERR && k1.sems[id].count >= 0 ==> PI.InvOff(CountedOut(j.s, p, j.k.curr, false), p, 0, 1))
  {
    var k, s, ids, x := j.k, j.s, j.ids, KP.Rslot(p);
    KP.MayWait(j, KP.PtRecv(p));
    WaitInv(k, ids[x]);
    var s1 := CountedOut(s, p, k.curr, false);
    KP.ReceiverSlot(s, p, P.Down(s.tab[p].rsem, k.curr), s1.tab);
    hide Inv, PI.Inv, PI.InvOff, KP.Live, KP.Missing, KP.Slot, KP.SlotsOk, WaitCall, KP.OnlySlot;
    if s.tab[p].hasR {
      KP.WaitSlot(k, s, s1, ids, x);
      if s.tab[p].rsem.count > 0 { PC.PassReceiver(s, p, k.curr); }
    } else {
      KP.SlotSays(k, s, ids, x);
      KP.NoSignal(k);
    }
  }

  /** What a blocked caller does when it runs again. */
  lemma ResumeCases(j: KP.Joint)
    requires KP.Formable(j) && j.k.curr in j.s.calls
    ensures var c, s1 := j.s.calls[j.k.curr], PC.Awake(j.s, j.k.curr);
            KP.Do(j, KP.PtResume) ==
            if !PC.Current(j.s, c) then (j.(s := s1), P.Done(SYSERR))
            else match c
              case Sending(p, _, m) => KP.PutMessage(j.k, s1, j.ids, p, m)
              case Receiving(p, _) => KP.GetMessage(j.k, s1, j.ids, p)
  {
    hide KP.PutMessage, KP.GetMessage;
  }

  /** It has been released, and if the port stands as it did it has passed its semaphore. */
  lemma ResumePasses(j: KP.Joint)
    requires KP.Coupled(j) && KP.Formable(j) && KP.May(j, KP.PtResume)
    ensures Inv(j.k) && j.k.curr in j.s.calls
    ensures var c, s1 := j.s.calls[j.k.curr], PC.Awake(j.s, j.k.curr);
            PC.Current(j.s, c) ==>
              if c.Sending? then PI.InvOff(s1, c.port, 1, 0) else PI.InvOff(s1, c.port, 0, 1)
  {
    KP.RunsReleased(j);
    hide Inv, PI.Inv, PI.InvOff, KP.SlotsOk, P.QueueOf;
    PC.AwakeInv(j.s, j.k.curr);
  }

  /** The beginning of a clearing. */
  lemma ClearCases(j: KP.Joint, p: int, reset: bool)
    requires KP.Coupled(j) && KP.Formable(j)
    ensures Inv(j.k) && PI.Inv(j.s)
    ensures P.BadPort(j.s, p) ==> KP.Do(j, KP.PtClear(p, reset)) == (j, P.Done(SYSERR))
    ensures !P.BadPort(j.s, p) ==>
              var id, n := j.ids[KP.Sslot(p)], j.s.tab[p].maxcnt;
              && n <= MAXINT
              && KP.Do(j, KP.PtClear(p, reset)) ==
                 (KP.Joint(if reset then SemResetCall(j.k, id, n).0 else SemDeleteCall(j.k, id).0,
                           P.ClearCall(j.s, p, reset).0, j.ids), P.Blocked)
  {
    hide SemResetCall, SemDeleteCall, Inv, KP.SlotsOk;
    if !P.BadPort(j.s, p) {
      assert PI.PortOk(j.s, p, 0, 0);
    }
  }

  /** How it goes on. */
  lemma ClearingCases(j: KP.Joint, p: nat)
    requires KP.Coupled(j) && KP.Formable(j) && p < P.NPORTS && j.s.tab[p].state.Limbo?
    ensures Inv(j.k) && PI.Inv(j.s)
    ensures var id, port, s' := j.ids[KP.Rslot(p)], j.s.tab[p], P.ClearOn(j.s, p).0;
            KP.Do(j, KP.PtClearing(p)) ==
            if port.state.receiversLeft then
              var k' := if port.state.reset then SemResetCall(j.k, id, 0).0 else SemDeleteCall(j.k, id).0;
              (KP.Joint(k', s', j.ids), P.Blocked)
            else (j.(s := s'), P.Done(OK))
  {
    hide SemResetCall, SemDeleteCall, Inv, PI.Inv, KP.SlotsOk;
  }

  /** Creating a port. */
  lemma CreateCases(j: KP.Joint, count: int32)
    requires KP.Coupled(j) && KP.Formable(j)
    ensures PI.Inv(j.s)
    ensures var p := P.FreePort(j.s.tab, j.s.nextid, P.NPORTS);
            KP.Do(j, KP.PtCreate(count)) ==
            if count < 0 || p == SYSERR then (j, P.Done(SYSERR))
            else
              var (k1, id1) := SemCreateCall(j.k, count);
              var (k2, id2) := SemCreateCall(k1, 0);
              var port := P.NewPort(j.s.tab[p].epoch + 1, count, id1 != SYSERR, id2 != SYSERR);
              (KP.Joint(k2, P.WithPort(j.s, p, port).(nextid := if p + 1 >= P.NPORTS then 0 else p + 1),
                        j.ids[KP.Sslot(p) := id1][KP.Rslot(p) := id2]), P.Done(p))
  {
    hide SemCreateCall, P.FreePort, PI.Inv, KP.SlotsOk, Inv;
  }

  lemma KernelSays(kernel: KernelTables.KernelState)
    requires kernel.Valid()
    ensures kernel.currPid == kernel.k.curr && kernel.semTab[..] == kernel.k.sems && WellFormed(kernel.k)
  {
  }

  lemma TableSays(table: PortTables.PortTable, p: int)
    requires table.Valid()
    ensures P.WellFormed(table.s) && (table.IsBadPort(p) <==> P.BadPort(table.s, p))
    ensures 0 <= p < P.NPORTS ==>
              && p < table.portTab.Length && table.portTab[p].seqno == table.s.tab[p].epoch
              && table.portTab[p].maxcnt == table.s.tab[p].maxcnt
  {
  }

  class PortSystem {
    const kernel: KernelTables.KernelState
    const table: PortTables.PortTable

    ghost function Joint(): KP.Joint
      reads kernel, table, table.portTab
    {
      KP.Joint(kernel.k, table.s, IdsOf(table.portTab[..]))
    }

    ghost predicate Valid()
      reads kernel, kernel.procTab, kernel.semTab, kernel.semQueue, kernel.queues, kernel.queues.tab
      reads table, table.nodes, table.portTab
    {
      kernel.Valid() && table.Valid() && table.portTab.Length == P.NPORTS
    }

    /** All ports free, and the system as the null process has set it up. */
    constructor (nodes: nat)
      requires nodes > 0
      ensures Valid() && Joint() == KP.Start(nodes) && KP.Coupled(Joint())
    {
      kernel := new KernelTables.KernelState();
      table := new PortTables.PortTable(nodes);
      new;
      KP.StartCoupled(nodes);
      hide KernelTables.KernelState.Valid, PortTables.PortTable.Valid, Initial, P.Initial, KP.Coupled;
      assert IdsOf(table.portTab[..]) == KP.Start(nodes).ids;
    }

    /** A sender past its semaphore. */
    method Put(p: nat, m: int) returns (o: P.Outcome)
      requires Valid() && Inv(kernel.k) && WellFormed(kernel.k) && P.WellFormed(table.s) && p < P.NPORTS
      requires PI.InvOff(table.s, p, 1, 0)
      modifies kernel, kernel.procTab, kernel.semTab, kernel.queues`lists, kernel.queues.tab
      modifies table, table.nodes, table.portTab
      ensures Valid()
      ensures (Joint(), o) == old(KP.PutMessage(kernel.k, table.s, IdsOf(table.portTab[..]), p, m))
    {
      hide Inv, KernelTables.KernelState.Valid, PortTables.PortTable.Valid, P.Enqueue, SignalCall, PI.InvOff, IdsOf;
      ghost var tab := table.portTab[..];
      o := table.AddMessage(p, m);
      IdsSame(tab, table.portTab[..]);
      IdsAt(table.portTab[..], p);
      if o != P.Panic {
        var _ := kernel.Signal(table.portTab[p].rsem);
      }
    }

    /** A receiver past its semaphore. */
    method Get(p: nat) returns (o: P.Outcome)
      requires Valid() && Inv(kernel.k) && WellFormed(kernel.k) && P.WellFormed(table.s) && p < P.NPORTS
      requires PI.InvOff(table.s, p, 0, 1)
      modifies kernel, kernel.procTab, kernel.semTab, kernel.queues`lists, kernel.queues.tab
      modifies table, table.nodes, table.portTab
      ensures Valid()
      ensures (Joint(), o) == old(KP.GetMessage(kernel.k, table.s, IdsOf(table.portTab[..]), p))
    {
      PI.DequeueInv(table.s, p);
      hide Inv, KernelTables.KernelState.Valid, PortTables.PortTable.Valid, P.Dequeue, SignalCall, PI.InvOff, IdsOf;
      ghost var tab := table.portTab[..];
      o := table.TakeMessage(p);
      IdsSame(tab, table.portTab[..]);
      IdsAt(table.portTab[..], p);
      var _ := kernel.Signal(table.portTab[p].ssem);
    }

    method PtSend(p: int, m: int) returns (o: P.Outcome)
      requires Valid() && KP.Coupled(Joint()) && KP.Formable(Joint()) && KP.May(Joint(), KP.PtSend(p, m))
      modifies kernel, kernel.procTab, kernel.semTab, kernel.queues`lists, kernel.queues.tab
      modifies table, table.nodes, table.portTab
      ensures Valid() && (Joint(), o) == old(KP.Do(Joint(), KP.PtSend(p, m)))
      ensures o != P.Panic ==> KP.Coupled(Joint())
    {
      ghost var j := Joint();
      hide Inv, PI.Inv, PI.InvOff, KernelTables.KernelState.Valid, PortTables.PortTable.Valid, WaitCall, KP.PutMessage,
        IdsOf,
        KP.Coupled, KP.Do, May, P.Down;
      KP.SendFollows(j, p, m);
      SendCases(j, p, m);
      KernelSays(kernel);
      TableSays(table, p);
      if table.IsBadPort(p) {
        return P.Done(SYSERR);
      }
      SendPasses(j, p, m);
      IdsAt(table.portTab[..], p);
      var pid := kernel.currPid;
      var id, seqno := table.portTab[p].ssem, table.portTab[p].seqno;
      var r := kernel.Wait(id);
      if r == SYSERR {
        return P.Done(SYSERR);
      }
      KernelSays(kernel);
      table.Waited(p, pid, true);
      if kernel.semTab[id].count < 0 {
        table.Save(pid, P.Sending(p, seqno, m));
        return P.Blocked;
      }
      o := Put(p, m);
    }

    method PtRecv(p: int) returns (o: P.Outcome)
      requires Valid() && KP.Coupled(Joint()) && KP.Formable(Joint()) && KP.May(Joint(), KP.PtRecv(p))
      modifies kernel, kernel.procTab, kernel.semTab, kernel.queues`lists, kernel.queues.tab
      modifies table, table.nodes, table.portTab
      ensures Valid() && (Joint(), o) == old(KP.Do(Joint(), KP.PtRecv(p)))
      ensures o != P.Panic ==> KP.Coupled(Joint())
    {
      ghost var j := Joint();
      hide Inv, PI.Inv, PI.InvOff, KernelTables.KernelState.Valid, PortTables.PortTable.Valid, WaitCall, KP.GetMessage,
        IdsOf,
        KP.Coupled, KP.Do, May, P.Down;
      KP.RecvFollows(j, p);
      RecvCases(j, p);
      KernelSays(kernel);
      TableSays(table, p);
      if table.IsBadPort(p) {
        return P.Done(SYSERR);
      }
      RecvPasses(j, p);
      IdsAt(table.portTab[..], p);
      var pid := kernel.currPid;
      var id, seqno := table.portTab[p].rsem, table.portTab[p].seqno;
      var r := kernel.Wait(id);
      if r == SYSERR {
        return P.Done(SYSERR);
      }
      KernelSays(kernel);
      table.Waited(p, pid, false);
      if kernel.semTab[id].count < 0 {
        table.Save(pid, P.Receiving(p, seqno));
        return P.Blocked;
      }
      o := Get(p);
    }

    /** From where a sender or receiver that was blocked runs again. */
    method PtResume() returns (o: P.Outcome)
      requires Valid() && KP.Coupled(Joint()) && KP.Formable(Joint()) && KP.May(Joint(), KP.PtResume)
      modifies kernel, kernel.procTab, kernel.semTab, kernel.queues`lists, kernel.queues.tab
      modifies table, table.nodes, table.portTab
      ensures Valid() && old(kernel.k.curr in table.s.calls && KP.Formable(Joint()))
      ensures (Joint(), o) == old(KP.Do(Joint(), KP.PtResume))
      ensures o != P.Panic ==> KP.Coupled(Joint())
    {
      ghost var j := Joint();
      hide Inv, PI.Inv, PI.InvOff, KernelTables.KernelState.Valid, PortTables.PortTable.Valid, KP.PutMessage,
        KP.GetMessage, IdsOf,
        KP.Coupled, KP.Do, May;
      KP.ResumeFollows(j);
      ResumeCases(j);
      ResumePasses(j);
      KernelSays(kernel);
      var c, current := table.Recall(kernel.currPid);
      if !current {
        return P.Done(SYSERR);
      }
      match c {
        case Sending(p, _, m) => o := Put(p, m);
        case Receiving(p, _) => o := Get(p);
      }
    }

    /** Deleting or resetting a port, up to where its senders have been released. */
    method PtClear(p: int, reset: bool) returns (o: P.Outcome, disposed: seq<int>)
      requires Valid() && KP.Coupled(Joint()) && KP.Formable(Joint()) && KP.May(Joint(), KP.PtClear(p, reset))
      modifies kernel, kernel.procTab, kernel.semTab, kernel.queues`lists, kernel.queues.tab
      modifies table, table.nodes, table.portTab
      ensures Valid() && (Joint(), o) == old(KP.Do(Joint(), KP.PtClear(p, reset))) && KP.Coupled(Joint())
      ensures disposed == old(if P.BadPort(table.s, p) then [] else PI.Messages(table.s.msg, table.s.lists[p]))
    {
      ghost var j := Joint();
      hide Inv, PI.Inv, KernelTables.KernelState.Valid, PortTables.PortTable.Valid, SemResetCall, SemDeleteCall, IdsOf,
        KP.Coupled,
        KP.Do, May, PI.Messages, P.ClearCall;
      KP.ClearFollows(j, p, reset);
      ClearCases(j, p, reset);
      TableSays(table, p);
      if table.IsBadPort(p) {
        return P.Done(SYSERR), [];
      }
      IdsAt(table.portTab[..], p);
      ghost var tab := table.portTab[..];
      var id, n := table.portTab[p].ssem, table.portTab[p].maxcnt;
      o, disposed := table.Clear(p, reset);
      IdsSame(tab, table.portTab[..]);
      if reset {
        var _ := kernel.SemReset(id, n);
      } else {
        var _ := kernel.SemDelete(id);
      }
    }

    /** The clearing process runs on: the receivers are released. */
    method PtClearReceivers(p: nat, reset: bool) returns (o: P.Outcome)
      requires Valid() && KP.Coupled(Joint()) && KP.Formable(Joint()) && KP.May(Joint(), KP.PtClearing(p))
      requires p < P.NPORTS && table.s.tab[p].state == P.Limbo(reset, true)
      modifies kernel, kernel.procTab, kernel.semTab, kernel.queues`lists, kernel.queues.tab, table`s
      ensures Valid() && (Joint(), o) == old(KP.Do(Joint(), KP.PtClearing(p))) && KP.Coupled(Joint())
    {
      ghost var j := Joint();
      hide Inv, PI.Inv, KernelTables.KernelState.Valid, PortTables.PortTable.Valid, SemResetCall, SemDeleteCall, IdsOf,
        KP.Coupled,
        KP.Do, May, P.ClearOn;
      KP.ClearingFollows(j, p);
      ClearingCases(j, p);
      IdsAt(table.portTab[..], p);
      var id := table.portTab[p].rsem;
      table.ReceiversReleased(p);
      if reset {
        var _ := kernel.SemReset(id, 0);
      } else {
        var _ := kernel.SemDelete(id);
      }
      o := P.Blocked;
    }

    /** And on: the port takes its new state. */
    method PtClearEnd(p: nat, reset: bool) returns (o: P.Outcome)
      requires Valid() && KP.Coupled(Joint()) && KP.Formable(Joint()) && KP.May(Joint(), KP.PtClearing(p))
      requires p < P.NPORTS && table.s.tab[p].state == P.Limbo(reset, false)
      modifies table`s, table`nextId, table.portTab
      ensures Valid() && (Joint(), o) == old(KP.Do(Joint(), KP.PtClearing(p))) && KP.Coupled(Joint())
    {
      ghost var j := Joint();
      hide Inv, PI.Inv, KernelTables.KernelState.Valid, PortTables.PortTable.Valid, IdsOf, KP.Coupled, KP.Do, May,
        P.ClearOn;
      KP.ClearingFollows(j, p);
      ClearingCases(j, p);
      ghost var tab := table.portTab[..];
      table.ClearEnd(p, reset);
      IdsSame(tab, table.portTab[..]);
      o := P.Done(OK);
    }

    method PtCreate(count: int32) returns (o: P.Outcome)
      requires Valid() && KP.Coupled(Joint()) && KP.Formable(Joint()) && KP.May(Joint(), KP.PtCreate(count))
      modifies kernel`k, kernel`nextSem, kernel.semTab, table`s, table`nextId, table.portTab
      ensures Valid() && (Joint(), o) == old(KP.Do(Joint(), KP.PtCreate(count))) && KP.Coupled(Joint())
    {
      ghost var j := Joint();
      hide Inv, PI.Inv, KernelTables.KernelState.Valid, PortTables.PortTable.Valid, IdsOf, KP.Coupled, KP.Do, May,
        SemCreateCall,
        P.FreePort;
      KP.CreateFollows(j, count);
      CreateCases(j, count);
      if count < 0 {
        return P.Done(SYSERR);
      }
      var p := table.FindFree();
      if p == SYSERR {
        return P.Done(SYSERR);
      }
      PortTables.FreeIsEmpty(j.s, p);
      ghost var tab := table.portTab[..];
      var ssem := kernel.SemCreate(count);
      var rsem := kernel.SemCreate(0);
      table.Allocate(p, count, ssem, rsem);
      IdsNew(tab, table.portTab[..], p);
      o := P.Done(p);
    }
  }
}
