/** Ports: bounded buffers of messages kept by two semaphores, as a value. A call is one step up to where its
    caller blocks; what it does when it runs again is a step of its own. */
module PortSpec {
  import opened Codes

  const NPORTS := 30
  const FREELIST := NPORTS                // place of the list of unused message nodes among the lists

  /** A semaphore as its callers see it: the count and those who wait, longest first. */
  datatype PSem = PSem(count: int, waiting: seq<int>)

  /** A port in limbo is being cleared: its senders are released, perhaps its receivers too, and it will be
      allocated again (a reset) or free (a deletion). */
  datatype PortState = Free | Alloc | Limbo(reset: bool, receiversLeft: bool)

  /** `cap` is the number of messages the port may hold; `maxcnt` what its 16-bit field keeps of that. `sent`
      and `got` are the messages enqueued and received since the epoch (the sequence number) last changed. `hasS`
      and `hasR` tell whether the two semaphores could be created: a port is made all the same, and waits on one
      that is missing fail. */
  datatype Port = Port(state: PortState, epoch: nat, maxcnt: nat, cap: nat, ssem: PSem, rsem: PSem,
                       sent: seq<int>, got: seq<int>, hasS: bool, hasR: bool)

  /** What a blocked caller has on its stack. */
  datatype Pending = Sending(port: nat, epoch: nat, msg: int) | Receiving(port: nat, epoch: nat)

  /** `lists[p]` are the nodes that hold the messages of port `p`, `msg` what each node holds. */
  datatype Ports = Ports(tab: seq<Port>, lists: seq<seq<int>>, msg: seq<int>, calls: map<int, Pending>, nextid: nat)

  datatype Outcome = Done(r: int) | Blocked | Panic | Fault

  predicate WellFormed(s: Ports)
  {
    && |s.tab| == NPORTS && |s.lists| == NPORTS + 1 && s.nextid < NPORTS
    && (forall p, i :: 0 <= p < |s.lists| && 0 <= i < |s.lists[p]| ==> 0 <= s.lists[p][i] < |s.msg|)
    && forall pid :: pid in s.calls ==> s.calls[pid].port < NPORTS
  }

  predicate BadPort(s: Ports, p: int)
    requires |s.tab| == NPORTS
  {
    p < 0 || p >= NPORTS || !s.tab[p].state.Alloc?
  }

  function WithPort(s: Ports, p: nat, port: Port): Ports
    requires p < |s.tab|
  {
    s.(tab := s.tab[p := port])
  }

  function Down(sem: PSem, pid: int): PSem
  {
    PSem(sem.count - 1, if sem.count - 1 < 0 then sem.waiting + [pid] else sem.waiting)
  }

  function Up(sem: PSem): PSem
  {
    PSem(sem.count + 1, if sem.count < 0 && sem.waiting != [] then sem.waiting[1..] else sem.waiting)
  }

  /** A signal, which does nothing to a semaphore that is missing. */
  function Signalled(sem: PSem, there: bool): PSem
  {
    if there then Up(sem) else sem
  }

  /** A message enters the queue of a port: the first free node takes it, and a receiver may go on. */
  function Enqueue(s: Ports, p: nat, m: int): (r: (Ports, Outcome))
    requires WellFormed(s) && p < NPORTS
    ensures WellFormed(r.0)
  {
    var free := s.lists[FREELIST];
    if free == [] then (s, Panic)
    else
      var port := s.tab[p];
      (s.(tab := s.tab[p := port.(rsem := Signalled(port.rsem, port.hasR), sent := port.sent + [m])],
          lists := s.lists[FREELIST := free[1..]][p := s.lists[p] + [free[0]]],
          msg := s.msg[free[0] := m]), Done(OK))
  }

  /** The first message leaves the queue of a port: its node is freed, and a sender may go on. */
  function Dequeue(s: Ports, p: nat): (r: (Ports, Outcome))
    requires WellFormed(s) && p < NPORTS
    ensures WellFormed(r.0)
  {
    if s.lists[p] == [] then (s, Fault)
    else
      var port, node := s.tab[p], s.lists[p][0];
      (s.(tab := s.tab[p := port.(ssem := Signalled(port.ssem, port.hasS), got := port.got + [s.msg[node]])],
          lists := s.lists[p := s.lists[p][1..]][FREELIST := [node] + s.lists[FREELIST]]), Done(s.msg[node]))
  }

  function SendCall(s: Ports, pid: int, p: int, m: int): (r: (Ports, Outcome))
    requires WellFormed(s)
    ensures WellFormed(r.0)
  {
    if BadPort(s, p) || !s.tab[p].hasS then (s, Done(SYSERR))
    else
      var s1 := WithPort(s, p, s.tab[p].(ssem := Down(s.tab[p].ssem, pid)));
      if s1.tab[p].ssem.count < 0 then (s1.(calls := s1.calls[pid := Sending(p, s.tab[p].epoch, m)]), Blocked)
      else Enqueue(s1, p, m)
  }

  function RecvCall(s: Ports, pid: int, p: int): (r: (Ports, Outcome))
    requires WellFormed(s)
    ensures WellFormed(r.0)
  {
    if BadPort(s, p) || !s.tab[p].hasR then (s, Done(SYSERR))
    else
      var s1 := WithPort(s, p, s.tab[p].(rsem := Down(s.tab[p].rsem, pid)));
      if s1.tab[p].rsem.count < 0 then (s1.(calls := s1.calls[pid := Receiving(p, s.tab[p].epoch)]), Blocked)
      else Dequeue(s1, p)
  }

  /** A caller that was blocked runs again: the port must be allocated and not have been cleared since. */
  function ResumeCall(s: Ports, pid: int): (r: (Ports, Outcome))
    requires WellFormed(s) && pid in s.calls
    ensures WellFormed(r.0)
  {
    var c := s.calls[pid];
    var s1 := s.(calls := s.calls - {pid});
    if !s.tab[c.port].state.Alloc? || s.tab[c.port].epoch != c.epoch then (s1, Done(SYSERR))
    else match c
      case Sending(p, _, m) => Enqueue(s1, p, m)
      case Receiving(p, _) => Dequeue(s1, p)
  }

  /** Clearing begins: the port is in limbo under a new epoch, its nodes are freed, and all blocked senders
      are released. */
  function ClearCall(s: Ports, p: int, reset: bool): (r: (Ports, Outcome))
    requires WellFormed(s)
    ensures WellFormed(r.0)
  {
    if BadPort(s, p) then (s, Done(SYSERR))
    else
      var port := s.tab[p];
      (s.(tab := s.tab[p := port.(state := Limbo(reset, true), epoch := port.epoch + 1,
                                  ssem := if port.hasS then PSem(if reset then port.maxcnt else 0, []) else port.ssem,
                                  sent := [], got := [])],
          lists := s.lists[FREELIST := s.lists[p] + s.lists[FREELIST]][p := []]), Blocked)
  }

  /** Clearing goes on: first the blocked receivers are released, then the port takes its new state. */
  function ClearOn(s: Ports, p: nat): (r: (Ports, Outcome))
    requires WellFormed(s) && p < NPORTS && s.tab[p].state.Limbo?
    ensures WellFormed(r.0)
  {
    var port := s.tab[p];
    if port.state.receiversLeft then
      (WithPort(s, p, port.(state := port.state.(receiversLeft := false), rsem := PSem(0, []))), Blocked)
    else if port.state.reset then (WithPort(s, p, port.(state := Alloc, cap := port.maxcnt)), Done(OK))
    else (WithPort(s, p, port.(state := Free)).(nextid := p), Done(OK))
  }

  /** The first free port from `at` on, going round at most `n` places. */
  function FreePort(tab: seq<Port>, at: nat, n: nat): (p: int)
    requires |tab| == NPORTS && at < NPORTS
    ensures p == SYSERR || (0 <= p < NPORTS && tab[p].state.Free?)
    decreases n
  {
    if n == 0 then SYSERR
    else if tab[at].state.Free? then at
    else FreePort(tab, if at + 1 >= NPORTS then 0 else at + 1, n - 1)
  }

  function NewPort(epoch: nat, count: nat, hasS: bool, hasR: bool): Port
  {
    Port(Alloc, epoch, count % 0x1_0000, count, PSem(if hasS then count else 0, []), PSem(0, []), [], [], hasS, hasR)
  }

  /** A port is created; its semaphores, if `hasS` and `hasR`. */
  function CreateCall(s: Ports, count: int, hasS: bool, hasR: bool): (r: (Ports, Outcome))
    requires WellFormed(s)
    ensures WellFormed(r.0)
  {
    if count < 0 then (s, Done(SYSERR))
    else
      var p := FreePort(s.tab, s.nextid, NPORTS);
      if p == SYSERR then (s, Done(SYSERR))
      else
        (WithPort(s, p, NewPort(s.tab[p].epoch + 1, count, hasS, hasR)).(
           nextid := if p + 1 >= NPORTS then 0 else p + 1), Done(p))
  }

  datatype Step =
    | Send(pid: int, port: int, msg: int) | Recv(pid: int, port: int) | Resume(pid: int)
    | Clear(port: int, reset: bool) | Clearing(port: int)
    | Create(count: int32, hasS: bool, hasR: bool)

  /** The process is not in the middle of a call. */
  ghost predicate Idle(s: Ports, pid: int)
    requires WellFormed(s)
  {
    pid !in s.calls
  }

  /** The queue of the semaphore a blocked caller waits on. */
  function QueueOf(s: Ports, c: Pending): seq<int>
    requires WellFormed(s) && c.port < NPORTS
  {
    if c.Sending? then s.tab[c.port].ssem.waiting else s.tab[c.port].rsem.waiting
  }

  /** The process has been released from its semaphore and not run since. */
  predicate Released(s: Ports, pid: int)
    requires WellFormed(s)
  {
    pid in s.calls && pid !in QueueOf(s, s.calls[pid])
  }

  ghost predicate May(s: Ports, st: Step)
    requires WellFormed(s)
  {
    match st
    case Send(pid, _, _) => Idle(s, pid)
    case Recv(pid, _) => Idle(s, pid)
    case Resume(pid) => Released(s, pid)
    case Clear(_, _) => true
    case Clearing(p) => 0 <= p < NPORTS && s.tab[p].state.Limbo?
    case Create(_, _, _) => true
  }

  function Do(s: Ports, st: Step): (r: (Ports, Outcome))
    requires WellFormed(s)
    requires st.Resume? ==> st.pid in s.calls
    requires st.Clearing? ==> 0 <= st.port < NPORTS && s.tab[st.port].state.Limbo?
    ensures WellFormed(r.0)
  {
    match st
    case Send(pid, p, m) => SendCall(s, pid, p, m)
    case Recv(pid, p) => RecvCall(s, pid, p)
    case Resume(pid) => ResumeCall(s, pid)
    case Clear(p, reset) => ClearCall(s, p, reset)
    case Clearing(p) => ClearOn(s, p)
    case Create(count, hasS, hasR) => CreateCall(s, count, hasS, hasR)
  }

  /** All ports free, and all nodes. */
  function Initial(nodes: nat): (s: Ports)
    ensures WellFormed(s)
  {
    Ports(seq(NPORTS, p => Port(Free, 0, 0, 0, PSem(0, []), PSem(0, []), [], [], false, false)),
          seq(NPORTS, p => [])+ [seq(nodes, n => n)], seq(nodes, n => 0), map[], 0)
  }
}
