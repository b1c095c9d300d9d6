/** The port table and the linked message nodes, updated in place: what the calls on ports do between their calls on
    semaphores. The semaphores are the kernel's, and here only ghost. */
module PortTables {
  import opened Codes
  import opened PortSpec
  import opened PortInv
  import opened PortCalls
  import QueueSpec
  import QueueTables

  const NULL := -1

  datatype PtNode = PtNode(next: int, msg: int)

  datatype PtState = FREE | LIMBO | ALLOC

  /** `ssem` and `rsem` are the identifiers of the port's semaphores, as far as they could be created. */
  datatype PtEntry = PtEntry(ssem: int, rsem: int, state: PtState, maxcnt: nat, seqno: nat, head: int, tail: int)

  function First(l: seq<int>): int { if l == [] then NULL else l[0] }

  function Last(l: seq<int>): int { if l == [] then NULL else l[|l| - 1] }

  ghost predicate ChainedAt(nodes: seq<PtNode>, l: seq<int>, i: nat)
    requires i < |l|
  {
    0 <= l[i] < |nodes| && nodes[l[i]].next == First(l[i + 1..])
  }

  /** Each node points to the next of its list, the last to none. */
  ghost predicate Chained(nodes: seq<PtNode>, l: seq<int>)
  {
    forall i :: 0 <= i < |l| ==> ChainedAt(nodes, l, i)
  }

  lemma ChainFrame(nodes: seq<PtNode>, nodes': seq<PtNode>, l: seq<int>)
    requires Chained(nodes, l) && |nodes'| == |nodes|
    requires forall x :: x in l && 0 <= x < |nodes| ==> nodes'[x].next == nodes[x].next
    ensures Chained(nodes', l)
  {
    forall i | 0 <= i < |l|
      ensures ChainedAt(nodes', l, i)
    {
      assert ChainedAt(nodes, l, i) && l[i] in l;
    }
  }

  lemma ChainPop(nodes: seq<PtNode>, l: seq<int>)
    requires Chained(nodes, l) && l != []
    ensures Chained(nodes, l[1..]) && 0 <= l[0] < |nodes| && nodes[l[0]].next == First(l[1..])
  {
    assert ChainedAt(nodes, l, 0);
    forall i | 0 <= i < |l| - 1
      ensures ChainedAt(nodes, l[1..], i)
    {
      assert ChainedAt(nodes, l, i + 1) && l[1..][i + 1..] == l[i + 2..];
    }
  }

  /** One list joined to the front of another. */
  lemma ChainJoin(nodes: seq<PtNode>, nodes': seq<PtNode>, l: seq<int>, m: seq<int>)
    requires Chained(nodes, l) && Chained(nodes', m) && |nodes'| == |nodes| && QueueSpec.NoDup(l)
    requires l != [] ==> 0 <= Last(l) < |nodes| && nodes'[Last(l)].next == First(m)
    requires forall x :: x in l && x != Last(l) && 0 <= x < |nodes| ==> nodes'[x].next == nodes[x].next
    ensures Chained(nodes', l + m)
  {
    forall i | 0 <= i < |l + m|
      ensures ChainedAt(nodes', l + m, i)
    {
      if i < |l| {
        assert ChainedAt(nodes, l, i) && l[i] in l;
        assert (l + m)[i + 1..] == l[i + 1..] + m;
      } else {
        assert ChainedAt(nodes', m, i - |l|);
        assert (l + m)[i + 1..] == m[i - |l| + 1..];
      }
    }
  }

  lemma ChainOne(nodes: seq<PtNode>, x: int)
    requires 0 <= x < |nodes| && nodes[x].next == NULL
    ensures Chained(nodes, [x])
  {
  }

  ghost predicate AllChained(nodes: seq<PtNode>, lists: seq<seq<int>>)
  {
    forall q :: 0 <= q < |lists| ==> Chained(nodes, lists[q])
  }

  /** The nodes with the first free one put behind the last of a port's list. */
  function LinkLast(nodes: seq<PtNode>, x: nat, last: int, m: int): seq<PtNode>
    requires x < |nodes| && last < |nodes|
  {
    var nodes1 := nodes[x := PtNode(NULL, m)];
    if last < 0 then nodes1 else nodes1[last := nodes1[last].(next := x)]
  }

  lemma LinkLastChains(nodes: seq<PtNode>, lists: seq<seq<int>>, p: nat, m: int)
    requires AllChained(nodes, lists) && QueueTables.Separate(lists) && |lists| == NPORTS + 1 && p < NPORTS
    requires lists[FREELIST] != []
    ensures var x, last := lists[FREELIST][0], Last(lists[p]);
            && 0 <= x < |nodes| && last < |nodes| && nodes[x].next == First(lists[FREELIST][1..])
            && (last < 0 <==> lists[p] == [])
            && AllChained(LinkLast(nodes, x, last, m), lists[FREELIST := lists[FREELIST][1..]][p := lists[p] + [x]])
  {
    var free, l := lists[FREELIST], lists[p];
    var x, last := free[0], Last(l);
    ChainPop(nodes, free);
    if l != [] { assert ChainedAt(nodes, l, |l| - 1); }
    var nodes' := LinkLast(nodes, x, last, m);
    var lists' := lists[FREELIST := free[1..]][p := l + [x]];
    InNoOther(lists, FREELIST, x);
    if l != [] { InNoOther(lists, p, last); }
    assert x !in free[1..] by { FirstOnce(free); }
    hide QueueTables.Separate, Chained;
    forall q | 0 <= q < |lists|
      ensures Chained(nodes', lists'[q])
    {
      if q == p {
        ChainOne(nodes', x);
        assert QueueSpec.NoDup(l) by { OnceEach(lists, p); }
        ChainJoin(nodes, nodes', l, [x]);
      } else if q == FREELIST {
        assert forall y :: y in free[1..] ==> y in free;
        ChainFrame(nodes, nodes', free[1..]);
      } else {
        ChainFrame(nodes, nodes', lists[q]);
      }
    }
  }

  lemma FirstOnce(l: seq<int>)
    requires QueueSpec.NoDup(l) && l != []
    ensures l[0] !in l[1..]
  {
  }

  lemma OnceEach(lists: seq<seq<int>>, q: nat)
    requires QueueTables.Separate(lists) && q < |lists|
    ensures QueueSpec.NoDup(lists[q])
  {
  }

  lemma InNoOther(lists: seq<seq<int>>, j: nat, x: int)
    requires QueueTables.Separate(lists) && j < |lists| && x in lists[j]
    ensures forall q :: 0 <= q < |lists| && q != j ==> x !in lists[q]
  {
    forall q | 0 <= q < |lists| && q != j
      ensures x !in lists[q]
    {
      assert QueueTables.Disjoint(lists[j], lists[q]);
    }
  }

  lemma LinkFirstChains(nodes: seq<PtNode>, lists: seq<seq<int>>, p: nat)
    requires AllChained(nodes, lists) && QueueTables.Separate(lists) && |lists| == NPORTS + 1 && p < NPORTS
    requires lists[p] != []
    ensures var x := lists[p][0];
            && 0 <= x < |nodes| && nodes[x].next == First(lists[p][1..])
            && AllChained(nodes[x := nodes[x].(next := First(lists[FREELIST]))],
                          lists[p := lists[p][1..]][FREELIST := [x] + lists[FREELIST]])
  {
    var free, l := lists[FREELIST], lists[p];
    var x := l[0];
    ChainPop(nodes, l);
    var nodes' := nodes[x := nodes[x].(next := First(free))];
    var lists' := lists[p := l[1..]][FREELIST := [x] + free];
    InNoOther(lists, p, x);
    assert x !in l[1..] by { OnceEach(lists, p); FirstOnce(l); }
    ChainOne(nodes[x := nodes[x].(next := NULL)], x);
    hide QueueTables.Separate, Chained;
    forall q | 0 <= q < |lists|
      ensures Chained(nodes', lists'[q])
    {
      if q == p {
        ChainFrame(nodes, nodes', l[1..]);
      } else if q == FREELIST {
        ChainFrame(nodes, nodes', free);
        ChainJoin(nodes[x := nodes[x].(next := NULL)], nodes', [x], free);
      } else {
        ChainFrame(nodes, nodes', lists[q]);
      }
    }
  }

  lemma SpliceChains(nodes: seq<PtNode>, lists: seq<seq<int>>, p: nat)
    requires AllChained(nodes, lists) && QueueTables.Separate(lists) && |lists| == NPORTS + 1 && p < NPORTS
    requires lists[p] != []
    ensures var last := Last(lists[p]);
            && 0 <= last < |nodes|
            && AllChained(nodes[last := nodes[last].(next := First(lists[FREELIST]))],
                          lists[FREELIST := lists[p] + lists[FREELIST]][p := []])
  {
    var free, l := lists[FREELIST], lists[p];
    var last := Last(l);
    assert ChainedAt(nodes, l, |l| - 1);
    var nodes' := nodes[last := nodes[last].(next := First(free))];
    var lists' := lists[FREELIST := l + free][p := []];
    InNoOther(lists, p, last);
    OnceEach(lists, p);
    hide QueueTables.Separate, Chained;
    forall q | 0 <= q < |lists|
      ensures Chained(nodes', lists'[q])
    {
      if q == p {
        Empty(nodes');
      } else if q == FREELIST {
        ChainFrame(nodes, nodes', free);
        ChainJoin(nodes, nodes', l, free);
      } else {
        ChainFrame(nodes, nodes', lists[q]);
      }
    }
  }

  lemma Empty(nodes: seq<PtNode>)
    ensures Chained(nodes, [])
  {
  }

  function StateOf(st: PortState): PtState
  {
    match st
    case Free => FREE
    case Alloc => ALLOC
    case Limbo(_, _) => LIMBO
  }

  /** A table entry says of a port what its fields hold; head and tail mean something unless it is, or is about
      to be, free. */
  predicate Describes(e: PtEntry, port: Port, l: seq<int>)
  {
    && e.state == StateOf(port.state)
    && (!port.state.Free? ==> (port.hasS <==> e.ssem != SYSERR) && (port.hasR <==> e.rsem != SYSERR))
    && e.maxcnt == port.maxcnt && e.seqno == port.epoch
    && (port.state.Alloc? || (port.state.Limbo? && port.state.reset) ==> e.head == First(l) && e.tail == Last(l))
  }

  /** The entries name the semaphores they named before. */
  ghost predicate SameSems(tab: seq<PtEntry>, tab': seq<PtEntry>)
  {
    |tab'| == |tab| && forall p :: 0 <= p < |tab| ==> tab'[p].ssem == tab[p].ssem && tab'[p].rsem == tab[p].rsem
  }

  class PortTable {
    const nodes: array<PtNode>
    const portTab: array<PtEntry>
    var ptFree: int
    var nextId: nat
    var calls: map<int, Pending>          // what blocked callers have on their stacks
    ghost var s: Ports

    ghost predicate Listed()
      reads this, nodes
    {
      && |s.lists| == NPORTS + 1 && nodes.Length == |s.msg|
      && AllChained(nodes[..], s.lists) && ptFree == First(s.lists[FREELIST])
      && forall x :: 0 <= x < nodes.Length ==> nodes[x].msg == s.msg[x]
    }

    ghost predicate Valid()
      reads this, nodes, portTab
    {
      && WellFormed(s) && Listed() && nextId == s.nextid && calls == s.calls && portTab.Length == NPORTS
      && forall p :: 0 <= p < NPORTS ==> Describes(portTab[p], s.tab[p], s.lists[p])
    }

    /** All ports free, and the nodes linked in order of their addresses. */
    constructor (maxmsgs: nat)
      requires maxmsgs > 0
      ensures Valid() && s == Initial(maxmsgs) && fresh(nodes) && fresh(portTab)
      ensures forall p :: 0 <= p < NPORTS ==> portTab[p].ssem == SYSERR == portTab[p].rsem
    {
      nodes := new PtNode[maxmsgs](_ => PtNode(NULL, 0));
      portTab := new PtEntry[NPORTS](_ => PtEntry(SYSERR, SYSERR, FREE, 0, 0, NULL, NULL));
      ptFree, nextId, calls := 0, 0, map[];
      s := Initial(maxmsgs);
      new;
      var left, curr, next := maxmsgs - 1, 0, 0;
      while left > 0
        invariant left + curr == maxmsgs - 1 && curr == next
        invariant forall x :: 0 <= x < curr ==> nodes[x].next == x + 1
        invariant forall x :: 0 <= x < maxmsgs ==> nodes[x].msg == 0
        modifies nodes
      {
        next := next + 1;
        nodes[curr] := nodes[curr].(next := next);
        curr := next;
        left := left - 1;
      }
      nodes[curr] := nodes[curr].(next := NULL);
      InOrder(nodes[..]);
    }

    predicate IsBadPort(p: int)
      reads portTab
    {
      p < 0 || p >= portTab.Length || portTab[p].state != ALLOC
    }

    /** Takes the first free node and links it in behind the port's last. */
    method Append(p: nat, m: int)
      requires Valid() && p < NPORTS && s.tab[p].state.Alloc? && QueueTables.Separate(s.lists)
      requires s.lists[FREELIST] != []
      modifies this`ptFree, this`s, nodes, portTab
      ensures SameSems(old(portTab[..]), portTab[..])
      ensures Valid()
      ensures var x := old(s).lists[FREELIST][0];
              s == old(s).(lists := old(s).lists[FREELIST := old(s).lists[FREELIST][1..]][p := old(s).lists[p] + [x]],
                           msg := old(s).msg[x := m])
    {
      LinkLastChains(nodes[..], s.lists, p, m);
      hide AllChained, QueueTables.Separate;
      ghost var was, lists := nodes[..], s.lists;
      var msgnode := ptFree;
      ptFree := nodes[msgnode].next;
      nodes[msgnode] := PtNode(NULL, m);
      var tailnode := portTab[p].tail;
      if tailnode == NULL {
        portTab[p] := portTab[p].(tail := msgnode, head := msgnode);
      } else {
        nodes[tailnode] := nodes[tailnode].(next := msgnode);
        portTab[p] := portTab[p].(tail := msgnode);
      }
      assert nodes[..] == LinkLast(was, msgnode, tailnode, m);
      s := s.(lists := lists[FREELIST := lists[FREELIST][1..]][p := lists[p] + [msgnode]], msg := s.msg[msgnode := m]);
    }

    /** What a sender does once past its semaphore. */
    method AddMessage(p: nat, m: int) returns (o: Outcome)
      requires Valid() && InvOff(s, p, 1, 0)
      modifies this`ptFree, this`s, nodes, portTab
      ensures SameSems(old(portTab[..]), portTab[..])
      ensures Valid() && (s, o) == Enqueue(old(s), p, m)
    {
      OffSeparate(s, p, 1, 0);
      hide AllChained, InvOff, WellFormed, Signalled, QueueTables.Separate;
      Sizes(s);
      if ptFree == NULL {
        return Panic;
      }
      Append(p, m);
      Sizes(s);
      s := Enqueue(old(s), p, m).0;
      o := Done(OK);
    }

    /** Takes the first message out of a port and frees its node. */
    method Remove(p: nat) returns (m: int)
      requires Valid() && p < NPORTS && s.tab[p].state.Alloc? && QueueTables.Separate(s.lists) && s.lists[p] != []
      modifies this`ptFree, this`s, nodes, portTab
      ensures SameSems(old(portTab[..]), portTab[..])
      ensures Valid() && m == old(s).msg[old(s).lists[p][0]]
      ensures s == old(s).(lists := old(s).lists[p := old(s).lists[p][1..]]
                                                [FREELIST := [old(s).lists[p][0]] + old(s).lists[FREELIST]])
    {
      LinkFirstChains(nodes[..], s.lists, p);
      EndsMeet(s.lists, p);
      hide AllChained, QueueTables.Separate;
      ghost var was, lists := nodes[..], s.lists;
      var msgnode := portTab[p].head;
      m := nodes[msgnode].msg;
      if portTab[p].head == portTab[p].tail {
        portTab[p] := portTab[p].(head := NULL, tail := NULL);
      } else {
        portTab[p] := portTab[p].(head := nodes[msgnode].next);
      }
      nodes[msgnode] := nodes[msgnode].(next := ptFree);
      ptFree := msgnode;
      assert nodes[..] == was[msgnode := was[msgnode].(next := First(lists[FREELIST]))];
      s := s.(lists := lists[p := lists[p][1..]][FREELIST := [msgnode] + lists[FREELIST]]);
    }

    /** What a receiver does once past its semaphore. */
    method TakeMessage(p: nat) returns (o: Outcome)
      requires Valid() && InvOff(s, p, 0, 1)
      modifies this`ptFree, this`s, nodes, portTab
      ensures SameSems(old(portTab[..]), portTab[..])
      ensures Valid() && (s, o) == Dequeue(old(s), p)
    {
      OffSeparate(s, p, 0, 1);
      hide AllChained, InvOff, WellFormed, Signalled, QueueTables.Separate;
      Sizes(s);
      var m := Remove(p);
      Sizes(s);
      s := Dequeue(old(s), p).0;
      o := Done(m);
    }

    /** The caller has been counted out of the semaphore of the senders, or of the receivers. */
    ghost method Waited(p: nat, pid: int, sending: bool)
      requires Valid() && p < NPORTS
      modifies this`s
      ensures Valid()
      ensures s == WithPort(old(s), p, if sending then old(s).tab[p].(ssem := Down(old(s).tab[p].ssem, pid))
                                       else old(s).tab[p].(rsem := Down(old(s).tab[p].rsem, pid)))
    {
      hide AllChained, Down;
      s := WithPort(s, p, if sending then s.tab[p].(ssem := Down(s.tab[p].ssem, pid))
                          else s.tab[p].(rsem := Down(s.tab[p].rsem, pid)));
    }

    method Save(pid: int, c: Pending)
      requires Valid() && c.port < NPORTS
      modifies this`s, this`calls
      ensures Valid() && s == old(s).(calls := old(s).calls[pid := c])
    {
      hide AllChained;
      calls := calls[pid := c];
      s := s.(calls := s.calls[pid := c]);
    }

    /** A caller that was blocked runs again: does the port still stand as it did? */
    method Recall(pid: int) returns (c: Pending, current: bool)
      requires Valid() && pid in s.calls
      modifies this`s, this`calls
      ensures Valid() && c == old(s).calls[pid] && s == Awake(old(s), pid)
      ensures c.port < NPORTS && current == Current(s, c)
    {
      hide AllChained;
      c := calls[pid];
      calls := calls - {pid};
      s := Awake(s, pid);
      current := portTab[c.port].state == ALLOC && portTab[c.port].seqno == c.epoch;
    }

    /** Walks the messages of a port in order and hands each one over for disposal. */
    method Dispose(p: nat) returns (disposed: seq<int>)
      requires Valid() && p < NPORTS && portTab[p].head == First(s.lists[p])
      ensures disposed == Messages(s.msg, s.lists[p])
    {
      disposed := [];
      var walk := portTab[p].head;
      ghost var l, i := s.lists[p], 0;
      assert Chained(nodes[..], l);
      assert l[0..] == l;
      while walk != NULL
        invariant i <= |l| && walk == First(l[i..])
        invariant disposed == Messages(s.msg, l[..i])
        decreases |l| - i
      {
        assert ChainedAt(nodes[..], l, i);
        disposed := disposed + [nodes[walk].msg];
        walk := nodes[walk].next;
        i := i + 1;
      }
      assert l[..i] == l;
    }

    /** Links the whole list of a port in limbo in front of the free nodes. */
    method Splice(p: nat, reset: bool)
      requires Valid() && p < NPORTS && s.tab[p].state == Limbo(reset, true) && QueueTables.Separate(s.lists)
      requires portTab[p].head == First(s.lists[p]) && portTab[p].tail == Last(s.lists[p])
      modifies this`ptFree, this`s, nodes, portTab
      ensures SameSems(old(portTab[..]), portTab[..])
      ensures Valid()
      ensures s == old(s).(lists := old(s).lists[FREELIST := old(s).lists[p] + old(s).lists[FREELIST]][p := []])
    {
      hide AllChained, QueueTables.Separate, First, Last;
      FirstIs([]);
      var head := portTab[p].head;
      var tail := portTab[p].tail;
      if reset {
        portTab[p] := portTab[p].(head := NULL, tail := NULL);
      }
      SpliceNodes(p, head, tail);
    }

    method SpliceNodes(p: nat, head: int, tail: int)
      requires WellFormed(s) && Listed() && p < NPORTS && QueueTables.Separate(s.lists)
      requires head == First(s.lists[p]) && tail == Last(s.lists[p])
      modifies this`ptFree, this`s, nodes
      ensures Listed()
      ensures s == old(s).(lists := old(s).lists[FREELIST := old(s).lists[p] + old(s).lists[FREELIST]][p := []])
    {
      if s.lists[p] != [] { SpliceChains(nodes[..], s.lists, p); } else { SpliceNothing(s.lists, p); }
      hide AllChained, QueueTables.Separate;
      ghost var was, lists := nodes[..], s.lists;
      if head != NULL {
        nodes[tail] := nodes[tail].(next := ptFree);
        ptFree := head;
        assert nodes[..] == was[tail := was[tail].(next := First(lists[FREELIST]))];
      }
      s := s.(lists := lists[FREELIST := lists[p] + lists[FREELIST]][p := []]);
    }

    /** Puts a port in limbo under a new sequence number. */
    method EnterLimbo(p: nat, ghost reset: bool)
      requires Valid() && p < NPORTS && s.tab[p].state.Alloc?
      modifies this`s, portTab
      ensures SameSems(old(portTab[..]), portTab[..])
      ensures Valid() && portTab[p].head == old(portTab[p].head) && portTab[p].tail == old(portTab[p].tail)
      ensures s == WithPort(old(s), p, old(s).tab[p].(state := Limbo(reset, true), epoch := old(s).tab[p].epoch + 1,
                                                      sent := [], got := []))
    {
      hide AllChained;
      portTab[p] := portTab[p].(state := LIMBO, seqno := portTab[p].seqno + 1);
      s := WithPort(s, p, s.tab[p].(state := Limbo(reset, true), epoch := s.tab[p].epoch + 1, sent := [], got := []));
    }

    /** Clearing, up to where the blocked senders are released. */
    method Clear(p: int, reset: bool) returns (o: Outcome, disposed: seq<int>)
      requires Valid() && Inv(s)
      modifies this`ptFree, this`s, nodes, portTab
      ensures SameSems(old(portTab[..]), portTab[..])
      ensures Valid() && (s, o) == ClearCall(old(s), p, reset)
      ensures disposed == if BadPort(old(s), p) then [] else Messages(old(s).msg, old(s).lists[p])
    {
      InvFormed(s);
      hide Inv, PortOk, AllChained, QueueTables.Separate, Messages;
      if IsBadPort(p) {
        return Done(SYSERR), [];
      }
      EnterLimbo(p, reset);
      disposed := Dispose(p);
      Splice(p, reset);
      s := ClearCall(old(s), p, reset).0;
      o := Blocked;
    }

    /** The clearing process runs on: the blocked receivers are released. */
    ghost method ReceiversReleased(p: nat)
      requires Valid() && p < NPORTS && s.tab[p].state.Limbo? && s.tab[p].state.receiversLeft
      modifies this`s
      ensures Valid() && s == ClearOn(old(s), p).0
    {
      hide AllChained;
      s := ClearOn(s, p).0;
    }

    /** And on: the port takes its new state; after a deletion it is the first to be tried for a new port. */
    method ClearEnd(p: nat, reset: bool)
      requires Valid() && Inv(s) && p < NPORTS && s.tab[p].state == Limbo(reset, false)
      modifies this`s, this`nextId, portTab
      ensures Valid() && s == ClearOn(old(s), p).0
      ensures SameSems(old(portTab[..]), portTab[..])
    {
      assert PortOk(s, p, 0, 0);
      hide AllChained, Inv;
      portTab[p] := portTab[p].(state := if reset then ALLOC else FREE);
      if !reset {
        nextId := p;
      }
      s := ClearOn(s, p).0;
    }

    method Allocate(p: nat, count: nat, ssem: int, rsem: int)
      requires Valid() && p < NPORTS && s.lists[p] == []
      modifies this`s, portTab
      ensures Valid()
      ensures s == WithPort(old(s), p, NewPort(old(s).tab[p].epoch + 1, count, ssem != SYSERR, rsem != SYSERR))
      ensures portTab[p].ssem == ssem && portTab[p].rsem == rsem
      ensures forall q :: 0 <= q < NPORTS && q != p ==> portTab[q] == old(portTab[q])
    {
      hide AllChained;
      portTab[p] := PtEntry(ssem, rsem, ALLOC, count % 0x1_0000, portTab[p].seqno + 1, NULL, NULL);
      s := WithPort(s, p, NewPort(s.tab[p].epoch + 1, count, ssem != SYSERR, rsem != SYSERR));
    }

    /** Looks for a free port from where the last search ended, round the whole table. */
    method FindFree() returns (p: int)
      requires Valid()
      modifies this`s, this`nextId
      ensures Valid() && p == FreePort(s.tab, old(s).nextid, NPORTS)
      ensures s == old(s).(nextid := if p == SYSERR then old(s).nextid else if p + 1 >= NPORTS then 0 else p + 1)
    {
      hide AllChained, FreePort;
      ghost var s0 := s;
      for i := 0 to NPORTS
        invariant Valid()
        invariant s == s0.(nextid := if s0.nextid + i >= NPORTS then s0.nextid + i - NPORTS else s0.nextid + i)
        invariant FreePort(s0.tab, s0.nextid, NPORTS) == FreePort(s0.tab, s.nextid, NPORTS - i)
      {
        FreePortStep(s0.tab, s.nextid, NPORTS - i);
        p := nextId;
        nextId := nextId + 1;
        if nextId >= NPORTS {
          nextId := 0;
        }
        s := s.(nextid := nextId);
        if portTab[p].state == FREE {
          return;
        }
      }
      FreePortStep(s0.tab, s.nextid, 0);
      p := SYSERR;
    }
  }

  lemma SpliceNothing(lists: seq<seq<int>>, p: nat)
    requires |lists| == NPORTS + 1 && p < NPORTS && lists[p] == []
    ensures lists[FREELIST := lists[p] + lists[FREELIST]][p := []] == lists
  {
    assert [] + lists[FREELIST] == lists[FREELIST];
  }

  lemma FreePortStep(tab: seq<Port>, at: nat, n: nat)
    requires |tab| == NPORTS && at < NPORTS
    ensures FreePort(tab, at, n) == if n == 0 then SYSERR else if tab[at].state.Free? then at
                                    else FreePort(tab, if at + 1 >= NPORTS then 0 else at + 1, n - 1)
  {
  }

  lemma FreeIsEmpty(s: Ports, p: nat)
    requires Inv(s) && p < NPORTS && s.tab[p].state.Free?
    ensures s.lists[p] == []
  {
    assert PortOk(s, p, 0, 0);
  }

  lemma InOrder(nodes: seq<PtNode>)
    requires nodes != []
    requires forall x :: 0 <= x < |nodes| ==> nodes[x].next == if x + 1 < |nodes| then x + 1 else NULL
    ensures AllChained(nodes, Initial(|nodes|).lists)
  {
    var lists := Initial(|nodes|).lists;
    forall q, i | 0 <= q < |lists| && 0 <= i < |lists[q]|
      ensures ChainedAt(nodes, lists[q], i)
    {
    }
  }

  lemma EndsMeet(lists: seq<seq<int>>, p: nat)
    requires QueueTables.Separate(lists) && p < |lists| && lists[p] != []
    ensures First(lists[p]) == Last(lists[p]) <==> lists[p][1..] == []
    ensures lists[p][1..] != [] ==> Last(lists[p][1..]) == Last(lists[p])
  {
  }

  lemma OffSeparate(s: Ports, p: nat, ds: nat, dr: nat)
    requires InvOff(s, p, ds, dr)
    ensures WellFormed(s) && QueueTables.Separate(s.lists) && p < NPORTS && s.tab[p].state.Alloc?
    ensures dr > 0 ==> s.lists[p] != []
  {
    CallersCount(s, p, ds, dr);
  }

  lemma Sizes(s: Ports)
    requires WellFormed(s)
    ensures |s.tab| == NPORTS && |s.lists| == NPORTS + 1 && s.nextid < NPORTS
    ensures forall x :: 0 <= x < |s.lists[FREELIST]| ==> 0 <= s.lists[FREELIST][x] < |s.msg|
  {
  }

  lemma FirstIs(l: seq<int>)
    ensures First(l) == if l == [] then NULL else l[0]
    ensures Last(l) == if l == [] then NULL else l[|l| - 1]
  {
  }
}
