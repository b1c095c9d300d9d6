/** Every step on the ports keeps what holds of them, so every interleaving does. */
module PortCalls {
  import opened Codes
  import opened PortSpec
  import opened PortInv
  import QueueSpec
  import QueueTables

  lemma CallersAdd(calls: map<int, Pending>, pid: int, c: Pending, p: nat, epoch: nat, sending: bool)
    requires pid !in calls
    ensures Callers(calls[pid := c], p, epoch, sending)
            == Callers(calls, p, epoch, sending) + if IsCaller(c, p, epoch, sending) then {pid} else {}
    ensures pid !in Callers(calls, p, epoch, sending)
  {
  }

  lemma CallersRemove(calls: map<int, Pending>, pid: int, p: nat, epoch: nat, sending: bool)
    requires pid in calls
    ensures Callers(calls - {pid}, p, epoch, sending) == Callers(calls, p, epoch, sending) - {pid}
    ensures pid in Callers(calls, p, epoch, sending) <==> IsCaller(calls[pid], p, epoch, sending)
  {
  }

  lemma WaitersAdd(calls: map<int, Pending>, pid: int, c: Pending, w: seq<int>, p: nat, epoch: nat, sending: bool)
    requires pid !in calls && WaitersAre(calls, w, p, epoch, sending)
    ensures WaitersAre(calls[pid := c], w, p, epoch, sending)
    ensures IsCaller(c, p, epoch, sending) ==> WaitersAre(calls[pid := c], w + [pid], p, epoch, sending)
    ensures pid !in w
  {
    CallersAdd(calls, pid, c, p, epoch, sending);
    hide Callers;
    assert forall i :: 0 <= i < |w| ==> w[i] in Callers(calls, p, epoch, sending);
  }

  lemma WaitersRemove(calls: map<int, Pending>, pid: int, w: seq<int>, p: nat, epoch: nat, sending: bool)
    requires pid in calls && WaitersAre(calls, w, p, epoch, sending) && pid !in w
    ensures WaitersAre(calls - {pid}, w, p, epoch, sending)
  {
    CallersRemove(calls, pid, p, epoch, sending);
    hide Callers;
    assert forall i :: 0 <= i < |w| ==> w[i] in w;
  }

  /** A caller gets past the senders' semaphore. */
  lemma PassSender(s: Ports, p: nat, pid: int)
    requires Inv(s) && p < NPORTS && s.tab[p].state.Alloc? && s.tab[p].hasS && s.tab[p].ssem.count > 0
    ensures InvOff(WithPort(s, p, s.tab[p].(ssem := Down(s.tab[p].ssem, pid))), p, 1, 0)
  {
    var s' := WithPort(s, p, s.tab[p].(ssem := Down(s.tab[p].ssem, pid)));
    OthersStay(s, s', p);
    hide Callers, Messages, QueueTables.Separate, Total;
    assert PortOk(s, p, 0, 0);
  }

  lemma PassReceiver(s: Ports, p: nat, pid: int)
    requires Inv(s) && p < NPORTS && s.tab[p].state.Alloc? && s.tab[p].hasR && s.tab[p].rsem.count > 0
    ensures InvOff(WithPort(s, p, s.tab[p].(rsem := Down(s.tab[p].rsem, pid))), p, 0, 1)
  {
    var s' := WithPort(s, p, s.tab[p].(rsem := Down(s.tab[p].rsem, pid)));
    OthersStay(s, s', p);
    hide Callers, Messages, QueueTables.Separate, Total;
    assert PortOk(s, p, 0, 0);
  }

  /** A step that changes only port `p` and calls on it leaves the other ports in order. */
  lemma OthersStay(s: Ports, s': Ports, p: nat)
    requires Inv(s) && WellFormed(s') && p < NPORTS
    requires forall q :: 0 <= q < NPORTS && q != p ==> SamePort(s, s', q)
    ensures forall q :: 0 <= q < NPORTS && q != p ==> PortOk(s', q, 0, 0)
  {
    hide PortOk;
    forall q | 0 <= q < NPORTS && q != p
      ensures PortOk(s', q, 0, 0)
    {
      PortFrame(s, s', q);
    }
  }

  /** A caller joins those who wait on a semaphore. */
  lemma DownOk(sem: PSem, calls: map<int, Pending>, pid: int, c: Pending)
    requires SemOk(sem) && sem.count <= 0 && pid !in calls
    requires WaitersAre(calls, sem.waiting, c.port, c.epoch, c.Sending?)
    ensures SemOk(Down(sem, pid)) && Down(sem, pid).count == sem.count - 1
    ensures WaitersAre(calls[pid := c], Down(sem, pid).waiting, c.port, c.epoch, c.Sending?)
  {
    WaitersAdd(calls, pid, c, sem.waiting, c.port, c.epoch, c.Sending?);
    hide Callers;
    var w := sem.waiting + [pid];
    assert forall i :: 0 <= i < |w| ==> w[i] == if i < |sem.waiting| then sem.waiting[i] else pid;
    assert forall i :: 0 <= i < |sem.waiting| ==> sem.waiting[i] in sem.waiting;
  }

  lemma BlockedSenderPort(s: Ports, p: nat, pid: int, m: int)
    requires Inv(s) && p < NPORTS && s.tab[p].state.Alloc? && s.tab[p].hasS && s.tab[p].ssem.count <= 0
    requires pid !in s.calls
    ensures PortOk(SendCall(s, pid, p, m).0, p, 0, 0)
  {
    var port, c := s.tab[p], Sending(p, s.tab[p].epoch, m);
    assert PortOk(s, p, 0, 0);
    DownOk(port.ssem, s.calls, pid, c);
    WaitersAdd(s.calls, pid, c, port.rsem.waiting, p, port.epoch, false);
    CallersAdd(s.calls, pid, c, p, port.epoch, true);
    CallersAdd(s.calls, pid, c, p, port.epoch, false);
    hide Callers, Messages, Base, SemOk, WaitersAre, Down;
  }

  lemma BlockSender(s: Ports, p: nat, pid: int, m: int)
    requires Inv(s) && p < NPORTS && s.tab[p].state.Alloc? && s.tab[p].hasS && s.tab[p].ssem.count <= 0
    requires pid !in s.calls
    ensures Inv(SendCall(s, pid, p, m).0)
  {
    BlockedSenderPort(s, p, pid, m);
    OthersStay(s, SendCall(s, pid, p, m).0, p);
    hide PortOk, QueueTables.Separate, Total;
  }

  lemma BlockedReceiverPort(s: Ports, p: nat, pid: int)
    requires Inv(s) && p < NPORTS && s.tab[p].state.Alloc? && s.tab[p].hasR && s.tab[p].rsem.count <= 0
    requires pid !in s.calls
    ensures PortOk(RecvCall(s, pid, p).0, p, 0, 0)
  {
    hide Callers, Messages, SemOk, WaitersAre, Down, QueueTables.Separate, Total;
    var port, c := s.tab[p], Receiving(p, s.tab[p].epoch);
    assert PortOk(s, p, 0, 0);
    DownOk(port.rsem, s.calls, pid, c);
    WaitersAdd(s.calls, pid, c, port.ssem.waiting, p, port.epoch, true);
    CallersAdd(s.calls, pid, c, p, port.epoch, true);
    CallersAdd(s.calls, pid, c, p, port.epoch, false);
  }

  lemma BlockReceiver(s: Ports, p: nat, pid: int)
    requires Inv(s) && p < NPORTS && s.tab[p].state.Alloc? && s.tab[p].hasR && s.tab[p].rsem.count <= 0
    requires pid !in s.calls
    ensures Inv(RecvCall(s, pid, p).0)
  {
    BlockedReceiverPort(s, p, pid);
    OthersStay(s, RecvCall(s, pid, p).0, p);
    hide PortOk, QueueTables.Separate, Total;
  }

  /** A released caller runs again, before it acts. */
  function Awake(s: Ports, pid: int): (s': Ports)
    requires WellFormed(s)
    ensures WellFormed(s')
  {
    s.(calls := s.calls - {pid})
  }

  ghost predicate Current(s: Ports, c: Pending)
    requires WellFormed(s) && c.port < NPORTS
  {
    s.tab[c.port].state.Alloc? && s.tab[c.port].epoch == c.epoch
  }

  lemma AwakePort(s: Ports, pid: int)
    requires Inv(s) && Released(s, pid)
    ensures var c := s.calls[pid];
            PortOk(Awake(s, pid), c.port, if Current(s, c) && c.Sending? then 1 else 0,
                   if Current(s, c) && c.Receiving? then 1 else 0)
  {
    var s', c, p := Awake(s, pid), s.calls[pid], s.calls[pid].port;
    var port, e := s.tab[p], s.tab[p].epoch;
    assert PortOk(s, p, 0, 0);
    CallersRemove(s.calls, pid, p, e, true);
    CallersRemove(s.calls, pid, p, e, false);
    if c.Sending? {
      WaitersRemove(s.calls, pid, port.ssem.waiting, p, e, true);
    } else {
      OtherKind(s.calls, pid, port.ssem.waiting, p, e, true);
    }
    if !port.state.Free? {
      var e' := if port.state.Alloc? then e else e - 1;
      if c.Sending? { OtherKind(s.calls, pid, port.rsem.waiting, p, e', false); }
      WaitersRemove(s.calls, pid, port.rsem.waiting, p, e', false);
    }
    hide Callers, Messages;
  }

  lemma OtherKind(calls: map<int, Pending>, pid: int, w: seq<int>, p: nat, epoch: nat, sending: bool)
    requires pid in calls && WaitersAre(calls, w, p, epoch, sending) && calls[pid].Sending? != sending
    ensures pid !in w && WaitersAre(calls - {pid}, w, p, epoch, sending)
  {
    forall i | 0 <= i < |w|
      ensures w[i] != pid
    {
      assert w[i] in Callers(calls, p, epoch, sending);
    }
    WaitersRemove(calls, pid, w, p, epoch, sending);
  }

  lemma AwakeInv(s: Ports, pid: int)
    requires Inv(s) && Released(s, pid)
    ensures var c, s' := s.calls[pid], Awake(s, pid);
            && (!Current(s, c) ==> Inv(s'))
            && (Current(s, c) && c.Sending? ==> InvOff(s', c.port, 1, 0))
            && (Current(s, c) && c.Receiving? ==> InvOff(s', c.port, 0, 1))
  {
    AwakePort(s, pid);
    OthersStay(s, Awake(s, pid), s.calls[pid].port);
    hide PortOk, QueueTables.Separate, Total;
  }

  /** What the ports may hold together. */
  function Capacity(tab: seq<Port>, n: nat): int
    requires n <= |tab|
  {
    if n == 0 then 0 else Capacity(tab, n - 1) + if tab[n - 1].state.Alloc? then tab[n - 1].cap else 0
  }

  /** No port holds more than its capacity; one that a sender has passed into has room. */
  lemma {:induction false} WithinCapacity(s: Ports, p: nat, ds: nat, n: nat)
    requires InvOff(s, p, ds, 0) && n <= NPORTS
    ensures Total(s.lists, n) + (if p < n then ds else 0) <= Capacity(s.tab, n)
  {
    if n > 0 {
      WithinCapacity(s, p, ds, n - 1);
      var q := n - 1;
      assert PortOk(s, q, if q == p then ds else 0, 0);
      if s.tab[q].state.Alloc? {
        CallersCount(s, q, if q == p then ds else 0, 0);
      }
    }
  }

  /** A sender that passed its semaphore finds a node if the nodes suffice for all ports. */
  lemma FindsNode(s: Ports, p: nat)
    requires InvOff(s, p, 1, 0) && Capacity(s.tab, NPORTS) <= |s.msg|
    ensures s.lists[FREELIST] != []
  {
    WithinCapacity(s, p, 1, NPORTS);
    hide PortOk;
  }

  lemma {:induction false} CapacitySame(tab: seq<Port>, tab': seq<Port>, n: nat)
    requires |tab| == |tab'| && n <= |tab|
    requires forall q :: 0 <= q < n ==> tab'[q].state == tab[q].state && tab'[q].cap == tab[q].cap
    ensures Capacity(tab', n) == Capacity(tab, n)
  {
    if n > 0 {
      CapacitySame(tab, tab', n - 1);
    }
  }

  /** What a step leaves, unless the nodes ran out. */
  ghost predicate Sound(s: Ports, r: (Ports, Outcome))
  {
    && (r.1 != Panic ==> Inv(r.0)) && r.1 != Fault
    && (r.1 == Panic ==> |s.tab| == NPORTS && Capacity(s.tab, NPORTS) > |s.msg|)
  }

  lemma EnqueueSound(s: Ports, s1: Ports, p: nat, m: int)
    requires InvOff(s1, p, 1, 0) && |s.tab| == NPORTS && |s.msg| == |s1.msg|
    requires forall q :: 0 <= q < NPORTS ==> s1.tab[q].state == s.tab[q].state && s1.tab[q].cap == s.tab[q].cap
    ensures Sound(s, Enqueue(s1, p, m))
  {
    CapacitySame(s.tab, s1.tab, NPORTS);
    if s1.lists[FREELIST] == [] {
      if Capacity(s1.tab, NPORTS) <= |s1.msg| { FindsNode(s1, p); }
    } else {
      EnqueueInv(s1, p, m);
    }
    hide InvOff, Inv;
  }

  lemma SendInv(s: Ports, pid: int, p: int, m: int)
    requires Inv(s) && May(s, Send(pid, p, m))
    ensures Sound(s, SendCall(s, pid, p, m))
  {
    hide InvOff, PortOk, Base, Capacity, Enqueue;
    InvFormed(s);
    if !BadPort(s, p) && s.tab[p].hasS {
      if s.tab[p].ssem.count <= 0 {
        BlockSender(s, p, pid, m);
      } else {
        PassSender(s, p, pid);
        EnqueueSound(s, WithPort(s, p, s.tab[p].(ssem := Down(s.tab[p].ssem, pid))), p, m);
      }
    }
  }

  lemma RecvInv(s: Ports, pid: int, p: int)
    requires Inv(s) && May(s, Recv(pid, p))
    ensures Sound(s, RecvCall(s, pid, p))
  {
    hide InvOff, PortOk, Base, Capacity;
    InvFormed(s);
    if !BadPort(s, p) && s.tab[p].hasR {
      if s.tab[p].rsem.count <= 0 {
        BlockReceiver(s, p, pid);
      } else {
        PassReceiver(s, p, pid);
        DequeueInv(WithPort(s, p, s.tab[p].(rsem := Down(s.tab[p].rsem, pid))), p);
      }
    }
  }

  lemma ResumeInv(s: Ports, pid: int)
    requires Inv(s) && May(s, Resume(pid))
    ensures Sound(s, ResumeCall(s, pid))
  {
    hide InvOff, PortOk, Base, Capacity, Enqueue, Dequeue;
    InvFormed(s);
    AwakeInv(s, pid);
    var c := s.calls[pid];
    if Current(s, c) {
      match c {
        case Sending(p, _, m) => EnqueueSound(s, Awake(s, pid), p, m);
        case Receiving(p, _) => DequeueInv(Awake(s, pid), p);
      }
    }
  }

  /** Nobody is in the middle of a call of an epoch to come. */
  lemma NoneYet(s: Ports, p: nat, epoch: nat, sending: bool)
    requires Base(s) && p < NPORTS && epoch > s.tab[p].epoch
    ensures Callers(s.calls, p, epoch, sending) == {}
  {
    assert forall pid :: pid in s.calls ==> !IsCaller(s.calls[pid], p, epoch, sending);
  }

  /** The nodes of a list go to the front of another. */
  lemma NodesJoin(lists: seq<seq<int>>, j: nat, k: nat)
    requires QueueTables.Separate(lists) && j < |lists| && k < |lists| && j != k
    ensures var lists' := lists[k := lists[j] + lists[k]][j := []];
            QueueTables.Separate(lists') && Total(lists', |lists|) == Total(lists, |lists|)
  {
    var both := lists[j] + lists[k];
    var lists' := lists[k := both][j := []];
    TotalUpdate(lists, k, both, |lists|);
    TotalUpdate(lists[k := both], j, [], |lists|);
    assert forall i :: 0 <= i < |both| ==> both[i] == if i < |lists[j]| then lists[j][i] else lists[k][i - |lists[j]|];
    assert QueueTables.Disjoint(lists[j], lists[k]) && QueueSpec.NoDup(lists[j]) && QueueSpec.NoDup(lists[k]);
    assert QueueSpec.NoDup(both);
    forall q | 0 <= q < |lists| && q != j && q != k
      ensures QueueTables.Disjoint(both, lists'[q]) && QueueTables.Disjoint(lists'[q], both)
    {
      assert QueueTables.Disjoint(lists[j], lists[q]) && QueueTables.Disjoint(lists[k], lists[q]);
      assert QueueTables.Disjoint(lists[q], lists[j]) && QueueTables.Disjoint(lists[q], lists[k]);
    }
  }

  lemma ClearInv(s: Ports, p: int, reset: bool)
    requires Inv(s)
    ensures Inv(ClearCall(s, p, reset).0)
  {
    InvFormed(s);
    if !BadPort(s, p) {
      var s', port := ClearCall(s, p, reset).0, s.tab[p];
      OthersStay(s, s', p);
      NodesJoin(s.lists, p, FREELIST);
      NoneYet(s, p, port.epoch + 1, true);
      NoneYet(s, p, port.epoch + 1, false);
      assert PortOk(s, p, 0, 0);
      hide Callers, Messages, QueueTables.Separate, Total;
      assert PortOk(s', p, 0, 0);
    }
  }

  lemma ClearOnInv(s: Ports, p: nat)
    requires Inv(s) && p < NPORTS && s.tab[p].state.Limbo?
    ensures Inv(ClearOn(s, p).0)
  {
    var s' := ClearOn(s, p).0;
    OthersStay(s, s', p);
    assert PortOk(s, p, 0, 0);
    hide Callers, QueueTables.Separate, Total;
    assert PortOk(s', p, 0, 0);
  }

  lemma CreateInv(s: Ports, count: int32, hasS: bool, hasR: bool)
    requires Inv(s)
    ensures Inv(CreateCall(s, count, hasS, hasR).0)
  {
    InvFormed(s);
    if count >= 0 {
      var p, s' := FreePort(s.tab, s.nextid, NPORTS), CreateCall(s, count, hasS, hasR).0;
      if p != SYSERR {
        OthersStay(s, s', p);
        NoneYet(s, p, s.tab[p].epoch + 1, true);
        NoneYet(s, p, s.tab[p].epoch + 1, false);
        assert PortOk(s, p, 0, 0);
        hide Callers, QueueTables.Separate, Total, FreePort;
        assert PortOk(s', p, 0, 0);
      }
    }
  }

  /** Every step keeps the invariant, unless the system stops for want of a node; that happens only when the
      ports may hold more messages together than there are nodes. No receiver finds a port empty. */
  lemma DoInv(s: Ports, st: Step)
    requires Inv(s) && May(s, st)
    ensures Sound(s, Do(s, st))
  {
    hide Inv, SendCall, RecvCall, ResumeCall, FreePort;
    match st
    case Send(pid, p, m) => SendInv(s, pid, p, m);
    case Recv(pid, p) => RecvInv(s, pid, p);
    case Resume(pid) => ResumeInv(s, pid);
    case Clear(p, reset) => ClearInv(s, p, reset);
    case Clearing(p) => ClearOnInv(s, p);
    case Create(count, hasS, hasR) => CreateInv(s, count, hasS, hasR);
  }
}
