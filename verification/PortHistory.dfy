/** What goes through a port, told by what its callers asked for and were answered. */
module PortHistory {
  import opened Codes
  import opened PortSpec
  import opened PortInv
  import opened PortCalls
  import opened PortRuns
  import QueueTables

  // --- one step ---

  /** A message enters the port behind all others. */
  ghost predicate Added(s: Ports, s': Ports, p: nat, m: int)
    requires WellFormed(s) && WellFormed(s') && p < NPORTS
  {
    && s'.tab[p].sent == s.tab[p].sent + [m] && s'.tab[p].got == s.tab[p].got
    && Messages(s'.msg, s'.lists[p]) == Messages(s.msg, s.lists[p]) + [m]
  }

  /** The first message of the port leaves it. */
  ghost predicate Removed(s: Ports, s': Ports, p: nat, r: int)
    requires WellFormed(s) && WellFormed(s') && p < NPORTS
  {
    && s'.tab[p].got == s.tab[p].got + [r] && s'.tab[p].sent == s.tab[p].sent
    && Messages(s.msg, s.lists[p]) == [r] + Messages(s'.msg, s'.lists[p])
  }

  ghost predicate Untouched(s: Ports, s': Ports, p: nat)
    requires WellFormed(s) && WellFormed(s') && p < NPORTS
  {
    && s'.tab[p].sent == s.tab[p].sent && s'.tab[p].got == s.tab[p].got
    && Messages(s'.msg, s'.lists[p]) == Messages(s.msg, s.lists[p])
  }

  ghost predicate Emptied(s: Ports, p: nat)
    requires WellFormed(s) && p < NPORTS
  {
    s.tab[p].sent == [] && s.tab[p].got == [] && Messages(s.msg, s.lists[p]) == []
  }

  /** The port is allocated, with the semaphore that a send (or a receive) needs. */
  predicate Serves(s: Ports, p: int, sending: bool)
    requires WellFormed(s)
  {
    !BadPort(s, p) && if sending then s.tab[p].hasS else s.tab[p].hasR
  }

  lemma EnqueueAdds(s: Ports, q: nat, m: int, p: nat)
    requires WellFormed(s) && QueueTables.Separate(s.lists) && q < NPORTS && p < NPORTS && s.lists[FREELIST] != []
    ensures if q == p then Added(s, Enqueue(s, q, m).0, p, m) else Untouched(s, Enqueue(s, q, m).0, p)
  {
    var x, l := s.lists[FREELIST][0], s.lists[p];
    assert QueueTables.Disjoint(s.lists[FREELIST], l);
    assert forall i :: 0 <= i < |l| ==> l[i] != x;
    hide QueueTables.Separate;
    MessagesAppend(s.msg, l, x, m);
    assert Messages(s.msg[x := m], l) == Messages(s.msg, l);
    hide Messages;
  }

  lemma DequeueRemoves(s: Ports, q: nat, p: nat)
    requires WellFormed(s) && q < NPORTS && p < NPORTS && s.lists[q] != []
    ensures var (s', o) := Dequeue(s, q);
            o.Done? && if q == p then Removed(s, s', p, o.r) else Untouched(s, s', p)
  {
    MessagesTail(s.msg, s.lists[q]);
    hide Messages;
  }

  /** A send fails exactly where the port does not serve it; one that works adds its message, and one that blocks
      nothing. */
  lemma SendHistory(s: Ports, pid: int, q: int, m: int, p: nat)
    requires Inv(s) && May(s, Send(pid, q, m)) && p < NPORTS && SendCall(s, pid, q, m).1 != Panic
    ensures var (s', o) := SendCall(s, pid, q, m);
            && (o == Done(OK) || o == Done(SYSERR) || o == Blocked)
            && (o == Done(SYSERR) <==> !Serves(s, q, true))
            && if o == Done(OK) && q == p then Added(s, s', p, m) else Untouched(s, s', p)
  {
    InvFormed(s);
    hide Inv, PortOk, QueueTables.Separate, Enqueue, Messages;
    if !BadPort(s, q) && s.tab[q].hasS && s.tab[q].ssem.count > 0 {
      var s1 := WithPort(s, q, s.tab[q].(ssem := Down(s.tab[q].ssem, pid)));
      EnqueueDone(s1, q, m);
      EnqueueAdds(s1, q, m, p);
    }
  }

  lemma EnqueueDone(s: Ports, q: nat, m: int)
    requires WellFormed(s) && q < NPORTS
    ensures Enqueue(s, q, m).1 == if s.lists[FREELIST] == [] then Panic else Done(OK)
  {
  }

  lemma RecvHistory(s: Ports, pid: int, q: int, p: nat)
    requires Inv(s) && May(s, Recv(pid, q)) && p < NPORTS
    ensures var (s', o) := RecvCall(s, pid, q);
            && (o.Done? || o == Blocked)
            && (!Serves(s, q, false) ==> o == Done(SYSERR))
            && if o.Done? && q == p && Serves(s, q, false) then Removed(s, s', p, o.r) else Untouched(s, s', p)
  {
    InvFormed(s);
    hide Inv, PortOk, QueueTables.Separate, Dequeue, Messages, InvOff;
    if !BadPort(s, q) && s.tab[q].hasR && s.tab[q].rsem.count > 0 {
      PassReceiver(s, q, pid);
      var s1 := WithPort(s, q, s.tab[q].(rsem := Down(s.tab[q].rsem, pid)));
      DequeueInv(s1, q);
      DequeueRemoves(s1, q, p);
    }
  }

  lemma ResumeHistory(s: Ports, pid: int, p: nat)
    requires Inv(s) && May(s, Resume(pid)) && p < NPORTS && ResumeCall(s, pid).1 != Panic
    ensures var (s', o) := ResumeCall(s, pid);
            && o.Done?
            && (!Current(s, s.calls[pid]) ==> o == Done(SYSERR) && Untouched(s, s', p))
            && (Current(s, s.calls[pid]) ==>
                  match s.calls[pid]
                  case Sending(q, _, m) => o == Done(OK) && if q == p then Added(s, s', p, m) else Untouched(s, s', p)
                  case Receiving(q, _) => if q == p then Removed(s, s', p, o.r) else Untouched(s, s', p))
  {
    InvFormed(s);
    AwakeInv(s, pid);
    hide Inv, PortOk, QueueTables.Separate, Enqueue, Dequeue, Messages, InvOff;
    var c, s1 := s.calls[pid], Awake(s, pid);
    if Current(s, c) {
      match c {
        case Sending(q, _, m) =>
          EnqueueDone(s1, q, m);
          EnqueueAdds(s1, q, m, p);
        case Receiving(q, _) =>
          DequeueInv(s1, q);
          DequeueRemoves(s1, q, p);
      }
    }
  }

  /** A new epoch of the port begins: it begins to be cleared, or it is created. */
  predicate Begins(s: Ports, st: Step, p: nat)
    requires WellFormed(s)
  {
    Clears(s, st, p) || (st.Create? && CreateCall(s, st.count, st.hasS, st.hasR).1 == Done(p))
  }

  /** Steps that are no sends and no receives empty the port where a new epoch begins, and otherwise leave it alone. */
  lemma OtherHistory(s: Ports, st: Step, p: nat)
    requires Inv(s) && May(s, st) && p < NPORTS && !st.Send? && !st.Recv? && !st.Resume?
    ensures var s' := Do(s, st).0; if Begins(s, st, p) then Emptied(s', p) else Untouched(s, s', p)
  {
    InvFormed(s);
    assert PortOk(s, p, 0, 0);
    hide Inv, QueueTables.Separate, FreePort, Callers;
  }

  // --- over runs ---

  /** The last send or receive that the process began in the first `i` steps, or -1. */
  function LastCall(steps: seq<Step>, i: nat, pid: int): (c: int)
    requires i <= |steps|
    ensures -1 <= c < i && (c >= 0 ==> (steps[c].Send? || steps[c].Recv?) && steps[c].pid == pid)
  {
    if i == 0 then -1
    else if (steps[i - 1].Send? || steps[i - 1].Recv?) && steps[i - 1].pid == pid then i - 1
    else LastCall(steps, i - 1, pid)
  }

  /** The port began to be cleared between two steps. */
  ghost predicate ClearedBetween(states: seq<Ports>, steps: seq<Step>, c: int, i: nat, p: nat)
    requires -1 <= c && i <= |steps| <= |states|
  {
    exists k :: c < k < i && WellFormed(states[k]) && Clears(states[k], steps[k], p)
  }

  /** A blocked caller goes on with the last call it began, and the port stands as it did then exactly if nothing began
      to clear it since. */
  lemma {:induction false} CallMade(nodes: nat, states: seq<Ports>, steps: seq<Step>, i: nat, pid: int)
    requires IsRun(nodes, states, steps) && |states| == |steps| + 1 && i <= |steps| && WellFormed(states[i])
    requires pid in states[i].calls
    ensures var c, call := LastCall(steps, i, pid), states[i].calls[pid];
            && 0 <= c && WellFormed(states[c + 1]) && call.port == steps[c].port && call.port < NPORTS
            && states[c + 1].tab[call.port].state.Alloc? && states[c + 1].tab[call.port].epoch == call.epoch
            && if steps[c].Send? then call.Sending? && call.msg == steps[c].msg else call.Receiving?
    decreases i
  {
    hide Inv, Do, May;
    if i > 0 {
      RunInv(nodes, states, steps, i - 1);
      var s, st := states[i - 1], steps[i - 1];
      InvFormed(s);
      if (st.Send? || st.Recv?) && st.pid == pid {
        NewCall(s, st);
      } else {
        OldCall(s, st, pid);
        CallMade(nodes, states, steps, i - 1, pid);
      }
    }
  }

  lemma NewCall(s: Ports, st: Step)
    requires WellFormed(s) && May(s, st) && (st.Send? || st.Recv?) && st.pid in Do(s, st).0.calls
    ensures var s' := Do(s, st).0; var c := s'.calls[st.pid];
            && 0 <= st.port < NPORTS && c.port == st.port
            && s'.tab[c.port].state.Alloc? && s'.tab[c.port].epoch == c.epoch
            && if st.Send? then c.Sending? && c.msg == st.msg else c.Receiving?
  {
  }

  lemma OldCall(s: Ports, st: Step, pid: int)
    requires WellFormed(s) && May(s, st) && pid in Do(s, st).0.calls && !((st.Send? || st.Recv?) && st.pid == pid)
    ensures pid in s.calls && s.calls[pid] == Do(s, st).0.calls[pid]
  {
    hide FreePort;
  }

  lemma CallCurrent(nodes: nat, states: seq<Ports>, steps: seq<Step>, i: nat, pid: int)
    requires IsRun(nodes, states, steps) && |states| == |steps| + 1 && i <= |steps| && WellFormed(states[i])
    requires pid in states[i].calls
    ensures var c, call := LastCall(steps, i, pid), states[i].calls[pid];
            && call.port < NPORTS
            && (Current(states[i], call) <==> !ClearedBetween(states, steps, c, i, call.port))
  {
    CallMade(nodes, states, steps, i, pid);
    var c, p := LastCall(steps, i, pid), states[i].calls[pid].port;
    hide LastCall, Clears;
    AllFormed(nodes, states, steps);
    EpochSince(nodes, states, steps, c + 1, i, p);
  }

  lemma AllFormed(nodes: nat, states: seq<Ports>, steps: seq<Step>)
    requires IsRun(nodes, states, steps)
    ensures |states| == |steps| + 1 && forall k :: 0 <= k <= |steps| ==> WellFormed(states[k])
  {
    forall k | 0 <= k <= |steps|
      ensures WellFormed(states[k])
    {
      RunInv(nodes, states, steps, k);
    }
  }

  /** Each step of a run was allowed where it was made. */
  ghost predicate Allowed(states: seq<Ports>, steps: seq<Step>)
  {
    && |states| == |steps| + 1
    && forall k :: 0 <= k < |steps| ==> WellFormed(states[k]) && May(states[k], steps[k])
  }

  lemma RunAllowed(nodes: nat, states: seq<Ports>, steps: seq<Step>)
    requires IsRun(nodes, states, steps)
    ensures Allowed(states, steps)
  {
  }

  /** The messages that sends to port `p` which were answered OK asked for in the first `i` steps, since the port was
      created or last began to be cleared. */
  ghost function Sends(states: seq<Ports>, steps: seq<Step>, i: nat, p: nat): seq<int>
    requires Allowed(states, steps) && i <= |steps|
  {
    if i == 0 then []
    else
      var s, st, before := states[i - 1], steps[i - 1], Sends(states, steps, i - 1, p);
      var o := Do(s, st).1;
      if Begins(s, st, p) then []
      else if st.Send? && st.port == p && o == Done(OK) then before + [st.msg]
      else if st.Resume? && o == Done(OK) then
        var c := LastCall(steps, i - 1, st.pid);
        if c >= 0 && steps[c].Send? && steps[c].port == p then before + [steps[c].msg] else before
      else before
  }

  /** What receives from port `p` were answered in the first `i` steps since then, but for those that failed: where the
      port did not serve them, or was cleared while they were blocked. */
  ghost function Receives(states: seq<Ports>, steps: seq<Step>, i: nat, p: nat): seq<int>
    requires Allowed(states, steps) && i <= |steps|
  {
    if i == 0 then []
    else
      var s, st, before := states[i - 1], steps[i - 1], Receives(states, steps, i - 1, p);
      var o := Do(s, st).1;
      if Begins(s, st, p) then []
      else if st.Recv? && st.port == p && Serves(s, p, false) && o.Done? then before + [o.r]
      else if st.Resume? && o.Done? then
        var c := LastCall(steps, i - 1, st.pid);
        if c >= 0 && steps[c].Recv? && steps[c].port == p && !ClearedBetween(states, steps, c, i - 1, p)
        then before + [o.r] else before
      else before
  }

  /** The histories at step `i` are what the port has kept. */
  ghost predicate Kept(states: seq<Ports>, steps: seq<Step>, i: nat, p: nat)
    requires Allowed(states, steps) && i <= |steps| && p < NPORTS
  {
    && WellFormed(states[i]) && states[i].tab[p].sent == Sends(states, steps, i, p)
    && states[i].tab[p].got == Receives(states, steps, i, p)
  }

  lemma KeptSend(nodes: nat, states: seq<Ports>, steps: seq<Step>, i: nat, p: nat)
    requires IsRun(nodes, states, steps) && Allowed(states, steps) && p < NPORTS && i < |steps|
    requires Kept(states, steps, i, p) && WellFormed(states[i + 1]) && Inv(states[i])
    requires states[i + 1] == Do(states[i], steps[i]).0 && Do(states[i], steps[i]).1 != Panic
    requires steps[i].Send? || steps[i].Recv?
    ensures Kept(states, steps, i + 1, p)
  {
    hide Inv, IsRun, May, WellFormed, LastCall, ClearedBetween, SendCall, RecvCall, ResumeCall, Messages;
    var s, st := states[i], steps[i];
    match st
    case Send(pid, q, m) => SendHistory(s, pid, q, m, p);
    case Recv(pid, q) => RecvHistory(s, pid, q, p);
  }

  lemma KeptResume(nodes: nat, states: seq<Ports>, steps: seq<Step>, i: nat, p: nat)
    requires IsRun(nodes, states, steps) && Allowed(states, steps) && p < NPORTS && i < |steps|
    requires Kept(states, steps, i, p) && WellFormed(states[i + 1]) && Inv(states[i])
    requires states[i + 1] == Do(states[i], steps[i]).0 && Do(states[i], steps[i]).1 != Panic
    requires steps[i].Resume?
    ensures Kept(states, steps, i + 1, p)
  {
    hide Inv, IsRun, WellFormed, LastCall, ClearedBetween, SendCall, RecvCall, ResumeCall, Messages;
    var pid := steps[i].pid;
    ResumeHistory(states[i], pid, p);
    CallMade(nodes, states, steps, i, pid);
    CallCurrent(nodes, states, steps, i, pid);
    hide Current;
  }

  lemma KeptOther(nodes: nat, states: seq<Ports>, steps: seq<Step>, i: nat, p: nat)
    requires IsRun(nodes, states, steps) && Allowed(states, steps) && p < NPORTS && i < |steps|
    requires Kept(states, steps, i, p) && WellFormed(states[i + 1]) && Inv(states[i])
    requires states[i + 1] == Do(states[i], steps[i]).0 && Do(states[i], steps[i]).1 != Panic
    requires !steps[i].Send? && !steps[i].Recv? && !steps[i].Resume?
    ensures Kept(states, steps, i + 1, p)
  {
    hide Inv, IsRun, May, WellFormed, LastCall, ClearedBetween, Messages, Do, Begins;
    OtherHistory(states[i], steps[i], p);
  }

  lemma KeptOn(nodes: nat, states: seq<Ports>, steps: seq<Step>, i: nat, p: nat)
    requires IsRun(nodes, states, steps) && Allowed(states, steps) && p < NPORTS && i < |steps|
    requires Kept(states, steps, i, p)
    ensures Kept(states, steps, i + 1, p)
  {
    assert Do(states[i], steps[i]).1 != Panic && states[i + 1] == Do(states[i], steps[i]).0;
    RunInv(nodes, states, steps, i);
    RunInv(nodes, states, steps, i + 1);
    InvFormed(states[i + 1]);
    hide Inv, IsRun, WellFormed, May, Kept, Do;
    if steps[i].Send? || steps[i].Recv? {
      KeptSend(nodes, states, steps, i, p);
    } else if steps[i].Resume? {
      KeptResume(nodes, states, steps, i, p);
    } else {
      KeptOther(nodes, states, steps, i, p);
    }
  }

  /** The histories that the ports keep are those of their callers. */
  lemma {:induction false} HistoryIs(nodes: nat, states: seq<Ports>, steps: seq<Step>, i: nat, p: nat)
    requires IsRun(nodes, states, steps) && Allowed(states, steps) && p < NPORTS && i <= |steps|
    ensures Kept(states, steps, i, p)
    decreases i
  {
    hide IsRun, Allowed, WellFormed, Kept;
    if i == 0 {
      KeptStart(nodes, states, steps, p);
    } else {
      HistoryIs(nodes, states, steps, i - 1, p);
      KeptOn(nodes, states, steps, i - 1, p);
    }
  }

  lemma KeptStart(nodes: nat, states: seq<Ports>, steps: seq<Step>, p: nat)
    requires IsRun(nodes, states, steps) && Allowed(states, steps) && p < NPORTS
    ensures Kept(states, steps, 0, p)
  {
    assert states[0] == Initial(nodes);
  }

  /** The k-th receive that works is answered the message of the k-th send that worked, counted from when the port was
      created or last began to be cleared; what was sent and not received yet is in the port, in order. */
  lemma FirstSentFirstReceived(nodes: nat, states: seq<Ports>, steps: seq<Step>, i: nat, p: nat)
    requires IsRun(nodes, states, steps) && p < NPORTS && i <= |steps|
    ensures Allowed(states, steps) && WellFormed(states[i])
    ensures var sends, receives := Sends(states, steps, i, p), Receives(states, steps, i, p);
            sends == receives + Messages(states[i].msg, states[i].lists[p])
  {
    RunAllowed(nodes, states, steps);
    HistoryIs(nodes, states, steps, i, p);
    RunInv(nodes, states, steps, i);
    hide IsRun, May, Allowed;
    assert PortOk(states[i], p, 0, 0);
  }

  // --- who waits, and for how many messages there is room ---

  /** A sender blocks exactly where the messages in the port and those on their way to it fill it. */
  lemma SendBlocksExactly(s: Ports, pid: int, p: nat, m: int)
    requires Inv(s) && May(s, Send(pid, p, m)) && p < NPORTS && Serves(s, p, true)
    ensures SendCall(s, pid, p, m).1 == Blocked <==>
            |Messages(s.msg, s.lists[p])| + |OnTheirWay(s, p, true)| == s.tab[p].cap
  {
    InvFormed(s);
    PortCounts(s, p);
    hide Inv, OnTheirWay, PortOk, Messages;
    EnqueueDone(WithPort(s, p, s.tab[p].(ssem := Down(s.tab[p].ssem, pid))), p, m);
    hide Enqueue;
  }

  /** A receiver blocks exactly where receivers on their way take all the messages in the port. */
  lemma RecvBlocksExactly(s: Ports, pid: int, p: nat)
    requires Inv(s) && May(s, Recv(pid, p)) && p < NPORTS && Serves(s, p, false)
    ensures RecvCall(s, pid, p).1 == Blocked <==> |Messages(s.msg, s.lists[p])| == |OnTheirWay(s, p, false)|
  {
    InvFormed(s);
    PortCounts(s, p);
    hide Inv, OnTheirWay, PortOk, Messages;
  }

  /** The number of messages asked for when the port was last created, cut to 16 bits by every reset since. */
  ghost function CapacityOf(states: seq<Ports>, steps: seq<Step>, i: nat, p: nat): nat
    requires Allowed(states, steps) && i <= |steps| && p < NPORTS
  {
    if i == 0 then 0
    else
      var s, st, before := states[i - 1], steps[i - 1], CapacityOf(states, steps, i - 1, p);
      if st.Create? && st.count >= 0 && Do(s, st).1 == Done(p) then st.count
      else if st.Clearing? && st.port == p && s.tab[p].state == Limbo(true, false) then before % 0x1_0000
      else before
  }

  lemma CapacityStep(s: Ports, st: Step, p: nat)
    requires WellFormed(s) && May(s, st) && p < NPORTS
    ensures var (s', o) := Do(s, st);
            (s'.tab[p].cap, s'.tab[p].maxcnt) ==
            if st.Create? && o == Done(p) then (st.count, st.count % 0x1_0000)
            else if st.Clearing? && st.port == p && s.tab[p].state == Limbo(true, false)
            then (s.tab[p].maxcnt, s.tab[p].maxcnt)
            else (s.tab[p].cap, s.tab[p].maxcnt)
    ensures st.Create? && Do(s, st).1 == Done(p) ==> st.count >= 0
  {
    hide FreePort;
  }

  /** The capacity of a port over runs. */
  lemma {:induction false} CapacityIs(nodes: nat, states: seq<Ports>, steps: seq<Step>, i: nat, p: nat)
    requires IsRun(nodes, states, steps) && Allowed(states, steps) && p < NPORTS && i <= |steps|
    ensures WellFormed(states[i]) && states[i].tab[p].cap == CapacityOf(states, steps, i, p)
    ensures states[i].tab[p].maxcnt == CapacityOf(states, steps, i, p) % 0x1_0000
    decreases i
  {
    hide Inv, Do, May, WellFormed;
    RunInv(nodes, states, steps, i);
    InvFormed(states[i]);
    if i == 0 {
      assert states[0] == Initial(nodes);
    } else {
      CapacityIs(nodes, states, steps, i - 1, p);
      CapacityStep(states[i - 1], steps[i - 1], p);
    }
  }

  // --- which port is created ---

  /** Of the free ports, the first from `from` on, going round. */
  ghost predicate FirstFree(tab: seq<Port>, from: nat, r: int)
    requires |tab| == NPORTS
  {
    && 0 <= r < NPORTS && tab[r].state.Free?
    && forall p :: 0 <= p < NPORTS && tab[p].state.Free? ==> Distance(from, r, NPORTS) <= Distance(from, p, NPORTS)
  }

  lemma {:induction false} FreePortIs(tab: seq<Port>, from: nat, n: nat)
    requires |tab| == NPORTS && from < NPORTS && n <= NPORTS
    requires forall p :: 0 <= p < NPORTS && Distance(from, p, NPORTS) < n ==> !tab[p].state.Free?
    ensures var r := FreePort(tab, Wrapped(from + n, NPORTS), NPORTS - n);
            if exists p :: 0 <= p < NPORTS && tab[p].state.Free? then FirstFree(tab, from, r) else r == SYSERR
    decreases NPORTS - n
  {
    if n < NPORTS {
      if !tab[Wrapped(from + n, NPORTS)].state.Free? { FreePortIs(tab, from, n + 1); }
    }
  }

  lemma FreePortFrom(tab: seq<Port>, from: nat)
    requires |tab| == NPORTS && from < NPORTS
    ensures var r := FreePort(tab, from, NPORTS);
            if exists p :: 0 <= p < NPORTS && tab[p].state.Free?
            then FirstFree(tab, from, r) && 0 <= r < NPORTS && (r + 1) % NPORTS == if r + 1 >= NPORTS then 0 else r + 1
            else r == SYSERR
  {
    hide FreePort;
    FreePortIs(tab, from, 0);
  }

  /** A port is created in the first free place, going round from the one behind the last created; it has room for as
      many messages as asked for, and nothing else changes. */
  lemma CreateAnswers(s: Ports, count: int, hasS: bool, hasR: bool)
    requires WellFormed(s)
    ensures var (s', o) := CreateCall(s, count, hasS, hasR);
            if count >= 0 && exists p :: 0 <= p < NPORTS && s.tab[p].state.Free? then
              && o.Done? && FirstFree(s.tab, s.nextid, o.r)
              && s' == s.(tab := s'.tab, nextid := (o.r + 1) % NPORTS) && s'.tab == s.tab[o.r := s'.tab[o.r]]
              && s'.tab[o.r].state.Alloc? && s'.tab[o.r].epoch == s.tab[o.r].epoch + 1 && s'.tab[o.r].cap == count
              && s'.tab[o.r].ssem == PSem(if hasS then count else 0, []) && s'.tab[o.r].rsem == PSem(0, [])
            else (s', o) == (s, Done(SYSERR))
  {
    hide FreePort, FirstFree;
    FreePortFrom(s.tab, s.nextid);
  }

  /** The port deleted last is the first to be created again. */
  lemma DeletedIsNext(s: Ports, p: nat, count: nat, hasS: bool, hasR: bool)
    requires WellFormed(s) && p < NPORTS && s.tab[p].state == Limbo(false, false)
    ensures CreateCall(ClearOn(s, p).0, count, hasS, hasR).1 == Done(p)
  {
  }
}
