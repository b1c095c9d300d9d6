/** What the invariant means for callers, over every interleaving of their steps. */
module PortRuns {
  import opened Codes
  import opened PortSpec
  import opened PortInv
  import opened PortCalls
  import QueueSpec

  function Elements(w: seq<int>): set<int>
  {
    set i | 0 <= i < |w| :: w[i]
  }

  /** Those past the semaphore of their call, not having acted yet. */
  function OnTheirWay(s: Ports, p: nat, sending: bool): set<int>
    requires WellFormed(s) && p < NPORTS
  {
    Callers(s.calls, p, s.tab[p].epoch, sending)
    - Elements(if sending then s.tab[p].ssem.waiting else s.tab[p].rsem.waiting)
  }

  lemma {:induction false} ElementsCount(w: seq<int>)
    requires QueueSpec.NoDup(w)
    ensures |Elements(w)| == |w|
  {
    if w == [] {
      assert Elements(w) == {};
    } else {
      var n := |w| - 1;
      ElementsCount(w[..n]);
      assert Elements(w) == Elements(w[..n]) + {w[n]};
    }
  }

  lemma Without(all: set<int>, w: seq<int>)
    requires QueueSpec.NoDup(w) && forall i :: 0 <= i < |w| ==> w[i] in all
    ensures |all - Elements(w)| == |all| - |w|
  {
    ElementsCount(w);
    assert Elements(w) <= all;
    assert all == (all - Elements(w)) + Elements(w);
  }

  function Max0(n: int): nat { if n < 0 then 0 else n }

  /** The counts of an allocated port. */
  lemma PortCounts(s: Ports, p: nat)
    requires Inv(s) && p < NPORTS && s.tab[p].state.Alloc?
    ensures if s.tab[p].hasS then Max0(s.tab[p].ssem.count) + |OnTheirWay(s, p, true)| + |s.lists[p]| == s.tab[p].cap
            else OnTheirWay(s, p, true) == {} && s.lists[p] == []
    ensures if s.tab[p].hasR then Max0(s.tab[p].rsem.count) + |OnTheirWay(s, p, false)| == |s.lists[p]|
            else OnTheirWay(s, p, false) == {}
    ensures |s.lists[p]| <= s.tab[p].cap
  {
    assert PortOk(s, p, 0, 0);
    var port := s.tab[p];
    Without(Callers(s.calls, p, port.epoch, true), port.ssem.waiting);
    Without(Callers(s.calls, p, port.epoch, false), port.rsem.waiting);
    hide Callers, Elements;
  }

  /** Nodes are neither lost nor made: those in use and those free are all there are, and none is in two places. */
  lemma NodesConserved(s: Ports)
    requires Inv(s)
    ensures Total(s.lists, NPORTS) + |s.lists[FREELIST]| == |s.msg|
    ensures forall p, q, i, j :: 0 <= p < q <= NPORTS && 0 <= i < |s.lists[p]| && 0 <= j < |s.lists[q]| ==>
              s.lists[p][i] != s.lists[q][j]
  {
    hide PortOk;
    forall p, q | 0 <= p < q <= NPORTS
      ensures QueueTables.Disjoint(s.lists[p], s.lists[q])
    {
    }
  }

  /** Messages are received in the order they were sent, each once: what was received in this epoch is a prefix
      of what was enqueued, and the rest is waiting. */
  lemma FirstInFirstOut(s: Ports, p: nat)
    requires Inv(s) && p < NPORTS && s.tab[p].state.Alloc?
    ensures s.tab[p].got <= s.tab[p].sent
    ensures Messages(s.msg, s.lists[p]) == s.tab[p].sent[|s.tab[p].got|..]
  {
    assert PortOk(s, p, 0, 0);
  }

  /** A reset keeps the capacity just when it fits the port's 16-bit field. */
  lemma ResetKeepsCapacity(s: Ports, p: nat)
    requires Inv(s) && p < NPORTS && s.tab[p].state.Alloc?
    ensures var s1 := ClearCall(s, p, true).0;
            s1.tab[p].state.Limbo? &&
            var s2 := ClearOn(s1, p).0;
            s2.tab[p].state.Limbo? &&
            var s3 := ClearOn(s2, p).0;
            && s3.tab[p].state.Alloc?
            && s3.tab[p].ssem == PSem(if s3.tab[p].hasS then s3.tab[p].cap else 0, [])
            && s3.tab[p].rsem == PSem(0, []) && s3.lists[p] == []
            && (s3.tab[p].cap == s.tab[p].cap <==> s.tab[p].cap <= 0xFFFF)
  {
    assert PortOk(s, p, 0, 0);
    CallersCount(s, p, 0, 0);
  }

  lemma {:induction false} InitialTotal(s: Ports, n: nat)
    requires |s.lists| == NPORTS + 1 && n <= NPORTS && forall p :: 0 <= p < NPORTS ==> s.lists[p] == []
    ensures Total(s.lists, n) == 0
  {
    if n > 0 {
      InitialTotal(s, n - 1);
    }
  }

  lemma InitialInv(nodes: nat)
    ensures Inv(Initial(nodes))
  {
    var s := Initial(nodes);
    InitialTotal(s, NPORTS);
    forall p | 0 <= p < NPORTS
      ensures PortOk(s, p, 0, 0)
    {
      assert Callers(map[], p, 0, true) == {} && Callers(map[], p, 0, false) == {};
    }
  }

  /** The states of a run, with a given number of nodes; a run does not go on after the system stopped. */
  ghost predicate IsRun(nodes: nat, states: seq<Ports>, steps: seq<Step>)
  {
    && |states| == |steps| + 1 && states[0] == Initial(nodes)
    && forall i :: 0 <= i < |steps| ==>
         && WellFormed(states[i]) && May(states[i], steps[i])
         && Do(states[i], steps[i]).1 != Panic && states[i + 1] == Do(states[i], steps[i]).0
  }

  lemma {:induction false} RunInv(nodes: nat, states: seq<Ports>, steps: seq<Step>, i: nat)
    requires IsRun(nodes, states, steps) && i <= |steps|
    ensures |states| == |steps| + 1 && Inv(states[i])
    ensures i < |steps| ==> May(states[i], steps[i]) && states[i + 1] == Do(states[i], steps[i]).0
  {
    hide Inv, Do, May;
    if i == 0 {
      InitialInv(nodes);
    } else {
      RunInv(nodes, states, steps, i - 1);
      DoInv(states[i - 1], steps[i - 1]);
    }
  }

  /** While the ports may not hold more messages together than there are nodes, the system cannot run out. */
  lemma NeverOutOfNodes(nodes: nat, states: seq<Ports>, steps: seq<Step>, i: nat, st: Step)
    requires IsRun(nodes, states, steps) && i <= |steps| && WellFormed(states[i]) && May(states[i], st)
    requires Capacity(states[i].tab, NPORTS) <= nodes
    ensures Do(states[i], st).1 != Panic && Do(states[i], st).1 != Fault
  {
    hide Inv, Do, May, IsRun, Capacity;
    RunInv(nodes, states, steps, i);
    NodesStay(nodes, states, steps, i);
    DoInv(states[i], st);
  }

  lemma StepNodes(s: Ports, st: Step)
    requires WellFormed(s) && May(s, st)
    ensures |Do(s, st).0.msg| == |s.msg|
  {
  }

  lemma {:induction false} NodesStay(nodes: nat, states: seq<Ports>, steps: seq<Step>, i: nat)
    requires IsRun(nodes, states, steps) && i <= |steps|
    ensures |states[i].msg| == nodes
  {
    hide Inv, Do, May;
    if i > 0 {
      NodesStay(nodes, states, steps, i - 1);
      StepNodes(states[i - 1], steps[i - 1]);
    }
  }

  /** The step begins to clear port `p`. */
  predicate Clears(s: Ports, st: Step, p: nat)
    requires WellFormed(s)
  {
    st.Clear? && st.port == p && !BadPort(s, p)
  }

  lemma EpochKept(s: Ports, q: nat, m: int, p: nat)
    requires WellFormed(s) && q < NPORTS && p < NPORTS
    ensures var port, port1, port2 := s.tab[p], Enqueue(s, q, m).0.tab[p], Dequeue(s, q).0.tab[p];
            && (port1.state, port1.epoch) == (port.state, port.epoch)
            && (port2.state, port2.epoch) == (port.state, port.epoch)
  {
  }

  /** Epochs only grow; only clearing ends one. */
  lemma StepEpoch(s: Ports, st: Step, p: nat)
    requires WellFormed(s) && May(s, st) && p < NPORTS
    ensures var port, port' := s.tab[p], Do(s, st).0.tab[p];
            && port'.epoch >= port.epoch
            && (Clears(s, st, p) ==> port'.epoch == port.epoch + 1)
            && (port.state.Alloc? && !Clears(s, st, p) ==> port'.state.Alloc? && port'.epoch == port.epoch)
  {
    hide Enqueue, Dequeue, FreePort;
    match st
    case Send(pid, q, m) =>
      if !BadPort(s, q) { EpochKept(WithPort(s, q, s.tab[q].(ssem := Down(s.tab[q].ssem, pid))), q, m, p); }
    case Recv(pid, q) =>
      if !BadPort(s, q) { EpochKept(WithPort(s, q, s.tab[q].(rsem := Down(s.tab[q].rsem, pid))), q, 0, p); }
    case Resume(pid) =>
      var c := s.calls[pid];
      EpochKept(s.(calls := s.calls - {pid}), c.port, if c.Sending? then c.msg else 0, p);
    case _ =>
  }

  /** A caller that is blocked stays so until it is resumed. */
  lemma StepCall(s: Ports, st: Step, pid: int)
    requires WellFormed(s) && May(s, st) && pid in s.calls && st != Resume(pid)
    ensures var s' := Do(s, st).0; pid in s'.calls && s'.calls[pid] == s.calls[pid]
  {
  }

  lemma {:induction false} StaysBlocked(nodes: nat, states: seq<Ports>, steps: seq<Step>, i: nat, j: nat, pid: int)
    requires IsRun(nodes, states, steps) && i <= j <= |steps|
    requires pid in states[i].calls && forall k :: i <= k < j ==> steps[k] != Resume(pid)
    ensures pid in states[j].calls && states[j].calls[pid] == states[i].calls[pid]
    decreases j
  {
    hide Inv, Do, May;
    if i < j {
      StaysBlocked(nodes, states, steps, i, j - 1, pid);
      StepCall(states[j - 1], steps[j - 1], pid);
    }
  }

  /** The port is as it was at `i`, if nothing began to clear it since; otherwise it is in a later epoch. */
  lemma {:induction false} EpochSince(nodes: nat, states: seq<Ports>, steps: seq<Step>, i: nat, j: nat, p: nat)
    requires IsRun(nodes, states, steps) && i <= j <= |steps| && p < NPORTS
    requires WellFormed(states[i]) && WellFormed(states[j]) && states[i].tab[p].state.Alloc?
    ensures if exists k :: i <= k < j && Clears(states[k], steps[k], p) then
              states[j].tab[p].epoch > states[i].tab[p].epoch
            else states[j].tab[p].state.Alloc? && states[j].tab[p].epoch == states[i].tab[p].epoch
    decreases j
  {
    hide Inv, Do, May, WellFormed, Clears;
    if i < j {
      EpochSince(nodes, states, steps, i, j - 1, p);
      StepEpoch(states[j - 1], steps[j - 1], p);
      if Clears(states[j - 1], steps[j - 1], p) {
        assert exists k :: i <= k < j && Clears(states[k], steps[k], p);
      } else if k :| i <= k < j && Clears(states[k], steps[k], p) {
        assert i <= k < j - 1;
      }
    }
  }

  /** A caller of port `p` blocks at step `i` and runs again at step `j`. If the port began to be cleared in
      between, by a reset or a deletion, the caller returns SYSERR and nothing else changes, even if the port
      has been created anew; otherwise the port is still allocated in the same epoch, and a sender enqueues its
      message, a receiver takes the first one. */
  lemma StaleCallersFail(nodes: nat, states: seq<Ports>, steps: seq<Step>, i: nat, j: nat, pid: int)
    requires IsRun(nodes, states, steps) && i < j < |steps| && WellFormed(states[i]) && WellFormed(states[j])
    requires steps[i].Send? || steps[i].Recv?
    requires steps[i].pid == pid && Do(states[i], steps[i]).1 == Blocked
    requires steps[j] == Resume(pid) && forall k :: i < k < j ==> steps[k] != Resume(pid)
    ensures pid in states[j].calls && 0 <= steps[i].port < NPORTS
    ensures var s, p := states[j], steps[i].port;
            var s1 := s.(calls := s.calls - {pid});
            if exists k :: i < k < j && Clears(states[k], steps[k], p) then
              Do(s, steps[j]) == (s1, Done(SYSERR))
            else
              && s.tab[p].state.Alloc?
              && Do(s, steps[j]) == if steps[i].Send? then Enqueue(s1, p, steps[i].msg) else Dequeue(s1, p)
  {
    var p := steps[i].port;
    RunInv(nodes, states, steps, i + 1);
    assert states[i + 1] == Do(states[i], steps[i]).0;
    BlockedCall(states[i], steps[i]);
    hide Inv, IsRun, May, Enqueue, Dequeue;
    StaysBlocked(nodes, states, steps, i + 1, j, pid);
    EpochSince(nodes, states, steps, i + 1, j, p);
  }

  lemma BlockedCall(s: Ports, st: Step)
    requires WellFormed(s) && (st.Send? || st.Recv?) && Do(s, st).1 == Blocked
    ensures var s', pid, p := Do(s, st).0, st.pid, st.port;
            && 0 <= p < NPORTS && s'.tab[p].state.Alloc? && pid in s'.calls
            && s'.calls[pid] == if st.Send? then Sending(p, s'.tab[p].epoch, st.msg) else Receiving(p, s'.tab[p].epoch)
  {
  }

  /** Where the search for a free port fails, all it went by are in use. */
  lemma {:induction false} SearchedPorts(tab: seq<Port>, at: nat, n: nat)
    requires |tab| == NPORTS && at < NPORTS && n <= NPORTS && FreePort(tab, at, n) == SYSERR
    ensures forall p :: 0 <= p < NPORTS && (at <= p < at + n || p + NPORTS < at + n) ==> !tab[p].state.Free?
    decreases n
  {
    if n > 0 {
      SearchedPorts(tab, if at + 1 >= NPORTS then 0 else at + 1, n - 1);
    }
  }

  /** A port can be created as long as one is free. */
  lemma CreateFails(s: Ports, count: int, hasS: bool, hasR: bool)
    requires WellFormed(s)
    ensures CreateCall(s, count, hasS, hasR).1 == Done(SYSERR) <==>
            count < 0 || forall p :: 0 <= p < NPORTS ==> !s.tab[p].state.Free?
  {
    if count >= 0 && FreePort(s.tab, s.nextid, NPORTS) == SYSERR {
      SearchedPorts(s.tab, s.nextid, NPORTS);
    }
    hide FreePort;
  }
}
