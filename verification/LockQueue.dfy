/** The queues of locks: linked in the table of queues like any other, with a type beside each entry. */
module LockQueues {
  import opened Codes
  import opened QueueSpec
  import opened QueueTables

  datatype LockType = READ | WRITE

  datatype Waiter = Waiter(pid: int, key: int, kind: LockType)

  /** The first waiter that has a lower key or wants to write. */
  function LockPlace(l: seq<Waiter>, key: int): (i: nat)
    ensures i <= |l|
    ensures i < |l| ==> l[i].key < key || l[i].kind != READ
    ensures forall j :: 0 <= j < i ==> l[j].key >= key && l[j].kind == READ
  {
    if l == [] || l[0].key < key || l[0].kind != READ then 0 else 1 + LockPlace(l[1..], key)
  }

  lemma LockPlaceIs(l: seq<Waiter>, key: int, i: nat)
    requires i <= |l| && (i < |l| ==> l[i].key < key || l[i].kind != READ)
    requires forall j :: 0 <= j < i ==> l[j].key >= key && l[j].kind == READ
    ensures LockPlace(l, key) == i
  {
  }

  function Enter(l: seq<Waiter>, w: Waiter): seq<Waiter>
  {
    l[..LockPlace(l, w.key)] + [w] + l[LockPlace(l, w.key)..]
  }

  predicate AllRead(l: seq<Waiter>)
  {
    forall k :: 0 <= k < |l| ==> l[k].kind == READ
  }

  predicate Descending(l: seq<Waiter>)
  {
    forall i, j :: 0 <= i < j < |l| ==> l[i].key >= l[j].key
  }

  /** Up to the first writer, waiters stand in descending order of their keys. */
  ghost predicate ReadersInOrder(l: seq<Waiter>)
  {
    forall n :: 0 <= n <= |l| && AllRead(l[..n]) ==> Descending(l[..n])
  }

  lemma EnterAt(l: seq<Waiter>, w: Waiter, i: nat)
    requires i <= |l|
    ensures var n := LockPlace(l, w.key);
            |Enter(l, w)| == |l| + 1 && Enter(l, w)[i] == if i < n then l[i] else if i == n then w else l[i - 1]
  {
  }

  lemma EnterPrefix(l: seq<Waiter>, w: Waiter, m: nat)
    requires m <= LockPlace(l, w.key)
    ensures |Enter(l, w)| == |l| + 1 && Enter(l, w)[..m] == l[..m]
  {
  }

  /** A new waiter stands behind the leading readers of its key or higher and before the rest, which keep their
      order. */
  lemma EnterKeepsOrder(l: seq<Waiter>, w: Waiter)
    requires ReadersInOrder(l)
    ensures ReadersInOrder(Enter(l, w))
    ensures exists n :: 0 <= n <= |l| && Enter(l, w) == l[..n] + [w] + l[n..]
              && (forall i :: 0 <= i < n ==> l[i].kind == READ && l[i].key >= w.key)
              && (n < |l| ==> l[n].kind != READ || l[n].key < w.key)
  {
    hide LockPlace;
    var n, r := LockPlace(l, w.key), Enter(l, w);
    assert r == l[..n] + [w] + l[n..];
    forall m | 0 <= m <= |r| && AllRead(r[..m])
      ensures Descending(r[..m])
    {
      if m <= n {
        EnterPrefix(l, w, m);
      } else {
        WithoutNew(l, w, m);
        WithNew(l, w, m);
      }
    }
  }

  lemma WithoutNew(l: seq<Waiter>, w: Waiter, m: nat)
    requires LockPlace(l, w.key) < m <= |Enter(l, w)| && AllRead(Enter(l, w)[..m])
    ensures m - 1 <= |l| && AllRead(l[..m - 1])
  {
    hide LockPlace;
    var n, r := LockPlace(l, w.key), Enter(l, w);
    forall k | 0 <= k < m - 1
      ensures l[k].kind == READ
    {
      var j := if k < n then k else k + 1;
      EnterAt(l, w, j);
      assert r[..m][j].kind == READ;
    }
  }

  lemma WithNew(l: seq<Waiter>, w: Waiter, m: nat)
    requires LockPlace(l, w.key) < m <= |l| + 1 && Descending(l[..m - 1]) && AllRead(l[..m - 1])
    ensures m <= |Enter(l, w)| && Descending(Enter(l, w)[..m])
  {
    var n, q, r := LockPlace(l, w.key), l[..m - 1], Enter(l, w);
    hide LockPlace, Enter;
    EnterAt(l, w, 0);
    forall i, j | 0 <= i < j < m
      ensures r[i].key >= r[j].key
    {
      EnterAt(l, w, i);
      EnterAt(l, w, j);
      if j < n { assert q[i].key >= q[j].key; }
      else if i > n { assert q[i - 1].key >= q[j - 1].key; }
      else if i == n {
        assert q[n].kind == READ;
        assert j - 1 > n ==> q[n].key >= q[j - 1].key;
      } else if j > n {
        assert l[i].key >= w.key && q[n].kind == READ && q[i].key >= q[j - 1].key;
      }
    }
  }

  /** Who waits in a queue, with what key and type. */
  function WaitersOf(l: seq<int>, keys: seq<int>, kinds: seq<LockType>): (r: seq<Waiter>)
    requires |keys| == NPROC <= |kinds| && Pids(l)
    ensures |r| == |l| && forall i :: 0 <= i < |l| ==> r[i] == Waiter(l[i], keys[l[i]], kinds[l[i]])
  {
    seq(|l|, i requires 0 <= i < |l| => Waiter(l[i], keys[l[i]], kinds[l[i]]))
  }

  /** A process put at a place of a queue is a waiter put there. */
  lemma WaitersInsert(l: seq<int>, keys: seq<int>, kinds: seq<LockType>, i: nat, p: int, key: int, kind: LockType)
    requires |keys| == NPROC <= |kinds| && Pids(l) && i <= |l| && 0 <= p < NPROC && p !in l
    ensures Pids(InsertAt(l, i, p))
    ensures WaitersOf(InsertAt(l, i, p), keys[p := key], kinds[p := kind])
            == WaitersOf(l, keys, kinds)[..i] + [Waiter(p, key, kind)] + WaitersOf(l, keys, kinds)[i..]
  {
    var r := InsertAt(l, i, p);
    assert forall j :: 0 <= j < |r| ==> r[j] == if j < i then l[j] else if j == i then p else l[j - 1];
    hide InsertAt;
    var w, w' := WaitersOf(l, keys, kinds), WaitersOf(r, keys[p := key], kinds[p := kind]);
    hide WaitersOf;
    forall j | 0 <= j < |r|
      ensures w'[j] == (w[..i] + [Waiter(p, key, kind)] + w[i..])[j]
    {
    }
  }

  lemma WaitersSame(l: seq<int>, keys: seq<int>, kinds: seq<LockType>, p: int, key: int, kind: LockType)
    requires |keys| == NPROC <= |kinds| && Pids(l) && 0 <= p < NPROC && p !in l
    ensures WaitersOf(l, keys[p := key], kinds[p := kind]) == WaitersOf(l, keys, kinds)
  {
  }

  lemma QueueFacts(t: QueueTable, k: nat)
    requires t.Valid() && k < |t.lists|
    ensures Pids(t.lists[k]) && Head(k) + 1 < t.tab.Length == NQENT
  {
    LinkedEnds(t.tab[..], Head(k), t.lists[k], 0);
  }

  class LockQueueTable {
    const queues: QueueTable
    const qtype: array<LockType>      // type of each entry of the table of queues

    ghost predicate Valid()
      reads this, queues, queues.tab
    {
      queues.Valid() && qtype.Length == NQENT
    }

    /** Who waits in the k-th queue, first in line first. */
    ghost function Waiters(k: nat): seq<Waiter>
      requires Valid() && k < |queues.lists|
      reads this, queues, queues.tab, qtype
    {
      QueueFacts(queues, k);
      WaitersOf(queues.lists[k], queues.Keys(), qtype[..])
    }

    constructor (queues: QueueTable)
      requires queues.Valid()
      ensures Valid() && this.queues == queues && fresh(qtype)
    {
      this.queues := queues;
      qtype := new LockType[NQENT](_ => READ);
      new;
      assert queues.tab.Length == NQENT;
    }

    /** The first node whose key is below `key` or that is of another type than READ; the tail's key is below. */
    method Search(q: nat, key: int, ghost k: nat) returns (next: nat, ghost i: nat)
      requires Valid() && k < |queues.lists| && q == Head(k) && key > MINKEY
      ensures i == LockPlace(Waiters(k), key) && i <= |queues.lists[k]|
      ensures next == Next(queues.lists[k], q, i) && next < queues.tab.Length
    {
      hide Separate, LockPlace;
      i := 0;
      ghost var l, w := queues.lists[k], Waiters(k);
      QueueFacts(queues, k);
      LinkedEnds(queues.tab[..], q, l, 0);
      next := queues.tab[q].qnext;
      while queues.tab[next].qkey >= key && qtype[next] == READ
        invariant i <= |l| && next == Next(l, q, i) && next < queues.tab.Length
        invariant forall j :: 0 <= j < i ==> w[j].key >= key && w[j].kind == READ
        decreases |l| - i
      {
        LinkedAt(queues.tab[..], q, l, i);
        LinkedEnds(queues.tab[..], q, l, i + 1);
        next := queues.tab[next].qnext;
        i := i + 1;
      }
      LinkedEnds(queues.tab[..], q, l, i);
      LockPlaceIs(w, key, i);
    }

    /** Puts a process in the queue of a lock. */
    method InsertLockQ(pid: nat, head: nat, key: int, kind: LockType, ghost k: nat) returns (r: int)
      requires Valid() && k < |queues.lists| && head == Head(k) && key > MINKEY
      requires pid < NPROC && Absent(pid, queues.lists)
      modifies queues`lists, queues.tab, qtype
      ensures Valid() && r == OK && |queues.lists| == |old(queues.lists)|
      ensures Waiters(k) == Enter(old(Waiters(k)), Waiter(pid, key, kind))
      ensures forall j :: 0 <= j < |queues.lists| && j != k ==> Waiters(j) == old(Waiters(j))
    {
      var next;
      ghost var i;
      next, i := Search(head, key, k);
      ghost var lists, keys, kinds := queues.lists, queues.Keys(), qtype[..];
      LinkedEnds(queues.tab[..], head, lists[k], i);
      hide LockPlace, Linked, Represents, Separate;
      WaitersInsert(lists[k], keys, kinds, i, pid, key, kind);
      var prev := queues.tab[next].qprev;
      queues.Link(pid, key, prev, next, k, i);
      qtype[pid] := kind;
      assert qtype[..] == kinds[pid := kind];
      forall j | 0 <= j < |lists| && j != k
        ensures Waiters(j) == old(Waiters(j))
      {
        QueueFacts(queues, j);
        WaitersSame(lists[j], keys, kinds, pid, key, kind);
      }
      r := OK;
    }
  }
}
