/** What holds of the ports in every reachable state. */
module PortInv {
  import opened Codes
  import opened PortSpec
  import QueueSpec
  import QueueTables

  predicate IsCaller(c: Pending, p: nat, epoch: nat, sending: bool)
  {
    c.port == p && c.epoch == epoch && c.Sending? == sending
  }

  /** Those in the middle of a send (or a receive) on port `p` that began in the given epoch. */
  function Callers(calls: map<int, Pending>, p: nat, epoch: nat, sending: bool): set<int>
  {
    set pid | pid in calls && IsCaller(calls[pid], p, epoch, sending)
  }

  ghost predicate SemOk(sem: PSem)
  {
    QueueSpec.NoDup(sem.waiting) && |sem.waiting| == if sem.count < 0 then -sem.count else 0
  }

  ghost predicate WaitersAre(calls: map<int, Pending>, waiting: seq<int>, p: nat, epoch: nat, sending: bool)
  {
    forall i :: 0 <= i < |waiting| ==> waiting[i] in Callers(calls, p, epoch, sending)
  }

  function Messages(msg: seq<int>, nodes: seq<int>): (r: seq<int>)
    requires forall i :: 0 <= i < |nodes| ==> 0 <= nodes[i] < |msg|
    ensures |r| == |nodes|
  {
    seq(|nodes|, i requires 0 <= i < |nodes| => msg[nodes[i]])
  }

  /** The counts of an allocated port: free places, senders on their way and messages make up its capacity; the
      messages are as many as receivers may take and receivers on their way. `ds` senders and `dr` receivers
      have passed the semaphore and not yet acted. Nobody passes a semaphore that is missing. */
  ghost predicate Balanced(s: Ports, p: nat, ds: nat, dr: nat)
    requires WellFormed(s) && p < NPORTS
  {
    var port := s.tab[p];
    && (if port.hasS then port.ssem.count + |Callers(s.calls, p, port.epoch, true)| + |s.lists[p]| + ds == port.cap
        else Missing(s.calls, port.ssem, p, port.epoch, true) && ds == 0 && s.lists[p] == [])
    && (if port.hasR then port.rsem.count + |Callers(s.calls, p, port.epoch, false)| + dr == |s.lists[p]|
        else Missing(s.calls, port.rsem, p, port.epoch, false) && dr == 0)
    && port.sent == port.got + Messages(s.msg, s.lists[p])
    && port.maxcnt == port.cap % 0x1_0000 && port.cap <= MAXINT
  }

  predicate Missing(calls: map<int, Pending>, sem: PSem, p: nat, epoch: nat, sending: bool)
  {
    sem == PSem(0, []) && Callers(calls, p, epoch, sending) == {}
  }

  ghost predicate Waiting(s: Ports, p: nat)
    requires WellFormed(s) && p < NPORTS
  {
    var port := s.tab[p];
    && SemOk(port.ssem) && SemOk(port.rsem)
    && WaitersAre(s.calls, port.ssem.waiting, p, port.epoch, true)
    && (port.state.Alloc? ==> WaitersAre(s.calls, port.rsem.waiting, p, port.epoch, false))
    && (port.state.Limbo? ==> port.epoch > 0 && WaitersAre(s.calls, port.rsem.waiting, p, port.epoch - 1, false))
  }

  /** A port not allocated has no messages and nobody in the middle of a call of its epoch. */
  ghost predicate Cleared(s: Ports, p: nat)
    requires WellFormed(s) && p < NPORTS
  {
    var port := s.tab[p];
    && s.lists[p] == [] && port.sent == [] && port.got == [] && port.maxcnt < 0x1_0000
    && port.ssem.waiting == []
    && (port.state.Limbo? && port.state.reset ==> port.ssem.count == if port.hasS then port.maxcnt else 0)
    && ((port.state.Limbo? && port.state.receiversLeft && port.hasR) || port.rsem == PSem(0, []))
    && Callers(s.calls, p, port.epoch, true) == {} && Callers(s.calls, p, port.epoch, false) == {}
  }

  ghost predicate PortOk(s: Ports, p: nat, ds: nat, dr: nat)
    requires WellFormed(s) && p < NPORTS
  {
    && Waiting(s, p)
    && if s.tab[p].state.Alloc? then Balanced(s, p, ds, dr) else Cleared(s, p)
  }

  function Total(lists: seq<seq<int>>, n: nat): nat
    requires n <= |lists|
  {
    if n == 0 then 0 else Total(lists, n - 1) + |lists[n - 1]|
  }

  ghost predicate Base(s: Ports)
  {
    && WellFormed(s) && QueueTables.Separate(s.lists)
    && Total(s.lists, NPORTS + 1) == |s.msg|
    && forall pid :: pid in s.calls ==> s.calls[pid].epoch <= s.tab[s.calls[pid].port].epoch
  }

  /** All is in order, but for callers of port `p` that have passed a semaphore. */
  ghost predicate InvOff(s: Ports, p: nat, ds: nat, dr: nat)
  {
    && Base(s) && p < NPORTS && s.tab[p].state.Alloc? && PortOk(s, p, ds, dr)
    && forall q :: 0 <= q < NPORTS && q != p ==> PortOk(s, q, 0, 0)
  }

  ghost predicate Inv(s: Ports)
  {
    Base(s) && forall q :: 0 <= q < NPORTS ==> PortOk(s, q, 0, 0)
  }

  lemma InvFormed(s: Ports)
    requires Inv(s)
    ensures WellFormed(s) && QueueTables.Separate(s.lists)
    ensures forall q :: 0 <= q < NPORTS ==> PortOk(s, q, 0, 0)
  {
  }

  /** What a port's condition depends on. */
  ghost predicate SamePort(s: Ports, s': Ports, q: nat)
    requires WellFormed(s) && WellFormed(s') && q < NPORTS
  {
    && s'.tab[q] == s.tab[q] && s'.lists[q] == s.lists[q]
    && (forall i :: 0 <= i < |s.lists[q]| ==> s'.msg[s.lists[q][i]] == s.msg[s.lists[q][i]])
    && (forall pid :: pid in s'.calls && s'.calls[pid].port == q ==> pid in s.calls && s.calls[pid] == s'.calls[pid])
    && (forall pid :: pid in s.calls && s.calls[pid].port == q ==> pid in s'.calls && s.calls[pid] == s'.calls[pid])
  }

  lemma CallersSame(s: Ports, s': Ports, q: nat, epoch: nat, sending: bool)
    requires WellFormed(s) && WellFormed(s') && q < NPORTS && SamePort(s, s', q)
    ensures Callers(s'.calls, q, epoch, sending) == Callers(s.calls, q, epoch, sending)
  {
    forall pid
      ensures pid in Callers(s'.calls, q, epoch, sending) <==> pid in Callers(s.calls, q, epoch, sending)
    {
    }
  }

  lemma PortFrame(s: Ports, s': Ports, q: nat)
    requires WellFormed(s) && WellFormed(s') && q < NPORTS && SamePort(s, s', q) && PortOk(s, q, 0, 0)
    ensures PortOk(s', q, 0, 0)
  {
    var e := s.tab[q].epoch;
    CallersSame(s, s', q, e, true);
    CallersSame(s, s', q, e, false);
    if e > 0 { CallersSame(s, s', q, e - 1, false); }
    assert Messages(s'.msg, s'.lists[q]) == Messages(s.msg, s.lists[q]);
    hide Callers, Messages, SemOk;
  }

  lemma {:induction false} TotalUpdate(lists: seq<seq<int>>, k: nat, l: seq<int>, n: nat)
    requires k < |lists| && n <= |lists|
    ensures Total(lists[k := l], n) == Total(lists, n) + if k < n then |l| - |lists[k]| else 0
  {
    if n > 0 {
      TotalUpdate(lists, k, l, n - 1);
    }
  }

  /** At least as many are in the middle of a call as its semaphore counts below zero. */
  lemma CallersCount(s: Ports, p: nat, ds: nat, dr: nat)
    requires WellFormed(s) && p < NPORTS && s.tab[p].state.Alloc? && PortOk(s, p, ds, dr)
    ensures s.tab[p].ssem.count + |Callers(s.calls, p, s.tab[p].epoch, true)| >= 0
    ensures s.tab[p].rsem.count + |Callers(s.calls, p, s.tab[p].epoch, false)| >= 0
  {
    var port := s.tab[p];
    QueueSpec.NoMoreThan(port.ssem.waiting, Callers(s.calls, p, port.epoch, true));
    QueueSpec.NoMoreThan(port.rsem.waiting, Callers(s.calls, p, port.epoch, false));
  }

  /** No count is at its greatest where a signal comes. */
  lemma RoomToCount(s: Ports, p: nat, ds: nat, dr: nat)
    requires InvOff(s, p, ds, dr)
    ensures ds == 1 && dr == 0 ==> s.tab[p].rsem.count < MAXINT
    ensures ds == 0 && dr == 1 ==> s.tab[p].ssem.count < MAXINT
  {
    CallersCount(s, p, ds, dr);
    hide Callers, Messages;
  }

  lemma UpOk(sem: PSem, calls: map<int, Pending>, p: nat, epoch: nat, sending: bool)
    requires SemOk(sem) && WaitersAre(calls, sem.waiting, p, epoch, sending)
    ensures SemOk(Up(sem)) && WaitersAre(calls, Up(sem).waiting, p, epoch, sending) && Up(sem).count == sem.count + 1
  {
    hide Callers;
    if sem.count < 0 {
      assert forall i :: 0 <= i < |sem.waiting| - 1 ==> Up(sem).waiting[i] == sem.waiting[i + 1];
    }
  }

  /** Taking a node off one list and putting it on another. */
  lemma NodeMoves(lists: seq<seq<int>>, j: nat, k: nat, i: nat)
    requires QueueTables.Separate(lists) && j < |lists| && k < |lists| && j != k && lists[j] != [] && i <= |lists[k]|
    ensures var x := lists[j][0];
            var lists' := lists[j := lists[j][1..]][k := QueueSpec.InsertAt(lists[k], i, x)];
            && QueueTables.Separate(lists') && Total(lists', |lists|) == Total(lists, |lists|)
            && forall q :: 0 <= q < |lists| && q != j ==> x !in lists[q]
  {
    var x := lists[j][0];
    assert QueueSpec.RemoveAt(lists[j], 0) == lists[j][1..];
    QueueTables.RemoveSeparate(lists, j, 0);
    var lists1 := lists[j := lists[j][1..]];
    QueueTables.InsertSeparate(lists1, k, i, x);
    TotalUpdate(lists, j, lists[j][1..], |lists|);
    TotalUpdate(lists1, k, QueueSpec.InsertAt(lists[k], i, x), |lists|);
    forall q | 0 <= q < |lists| && q != j
      ensures x !in lists[q]
    {
      assert QueueTables.Disjoint(lists[j], lists[q]);
    }
  }

  lemma MessagesAppend(msg: seq<int>, nodes: seq<int>, x: int, m: int)
    requires 0 <= x < |msg| && x !in nodes && forall i :: 0 <= i < |nodes| ==> 0 <= nodes[i] < |msg|
    ensures Messages(msg[x := m], nodes + [x]) == Messages(msg, nodes) + [m]
  {
    assert forall i :: 0 <= i < |nodes| ==> nodes[i] != x;
  }

  /** A sender that passed its semaphore finds room, if there is a node, and leaves all in order. */
  lemma EnqueueInv(s: Ports, p: nat, m: int)
    requires InvOff(s, p, 1, 0) && s.lists[FREELIST] != []
    ensures Inv(Enqueue(s, p, m).0) && Enqueue(s, p, m).1 == Done(OK)
  {
    var free, l, port := s.lists[FREELIST], s.lists[p], s.tab[p];
    var x, s' := free[0], Enqueue(s, p, m).0;
    assert QueueSpec.InsertAt(l, |l|, x) == l + [x];
    NodeMoves(s.lists, FREELIST, p, |l|);
    UpOk(port.rsem, s.calls, p, port.epoch, false);
    MessagesAppend(s.msg, l, x, m);
    hide Callers, Messages, SemOk, Up, Total, QueueTables.Separate, QueueSpec.InsertAt;
    assert PortOk(s', p, 0, 0);
    forall q | 0 <= q < NPORTS && q != p
      ensures PortOk(s', q, 0, 0)
    {
      assert forall i :: 0 <= i < |s.lists[q]| ==> s.lists[q][i] in s.lists[q];
      PortFrame(s, s', q);
    }
  }

  lemma MessagesTail(msg: seq<int>, l: seq<int>)
    requires l != [] && forall i :: 0 <= i < |l| ==> 0 <= l[i] < |msg|
    ensures Messages(msg, l) == [msg[l[0]]] + Messages(msg, l[1..])
  {
  }

  /** A port after its first message was taken. */
  lemma DequeuePort(s: Ports, p: nat)
    requires InvOff(s, p, 0, 1)
    ensures s.lists[p] != [] && s.tab[p].hasS && PortOk(Dequeue(s, p).0, p, 0, 0)
  {
    CallersCount(s, p, 0, 1);
    hide Callers, Messages, SemOk, Up, Base, WaitersAre, Missing;
    var l, port := s.lists[p], s.tab[p];
    assert l != [];
    UpOk(port.ssem, s.calls, p, port.epoch, true);
    MessagesTail(s.msg, l);
  }

  /** A receiver that passed its semaphore finds a message, and leaves all in order. */
  lemma DequeueInv(s: Ports, p: nat)
    requires InvOff(s, p, 0, 1)
    ensures s.lists[p] != [] && Inv(Dequeue(s, p).0) && Dequeue(s, p).1 == Done(s.msg[s.lists[p][0]])
  {
    DequeuePort(s, p);
    var free, l := s.lists[FREELIST], s.lists[p];
    var s' := Dequeue(s, p).0;
    assert QueueSpec.InsertAt(free, 0, l[0]) == [l[0]] + free;
    NodeMoves(s.lists, p, FREELIST, 0);
    hide PortOk, Messages, Signalled, Total, QueueTables.Separate, QueueSpec.InsertAt;
    forall q | 0 <= q < NPORTS && q != p
      ensures PortOk(s', q, 0, 0)
    {
      PortFrame(s, s', q);
    }
  }
}
