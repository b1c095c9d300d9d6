/** The table of queues: one array of links, with a head and a tail entry for each queue. */
module QueueTables {
  import opened Codes
  import opened QueueSpec

  predicate Disjoint(l: seq<int>, m: seq<int>)
  {
    forall i, j :: 0 <= i < |l| && 0 <= j < |m| ==> l[i] != m[j]
  }

  /** The lists are without repetition and share no process. */
  ghost predicate Separate(lists: seq<seq<int>>)
  {
    && (forall k :: 0 <= k < |lists| ==> NoDup(lists[k]))
    && forall j, k :: 0 <= j < |lists| && 0 <= k < |lists| && j != k ==> Disjoint(lists[j], lists[k])
  }

  ghost predicate Represents(t: seq<QEntry>, lists: seq<seq<int>>)
  {
    forall k :: 0 <= k < |lists| ==> Linked(t, Head(k), lists[k])
  }

  /** The process is on none of the lists. */
  ghost predicate Absent(p: int, lists: seq<seq<int>>)
  {
    forall k :: 0 <= k < |lists| ==> p !in lists[k]
  }

  lemma InsertRepresents(t: seq<QEntry>, lists: seq<seq<int>>, k: nat, i: nat, p: nat, key: int)
    requires Represents(t, lists) && Separate(lists) && k < |lists| && i <= |lists[k]|
    requires p < NPROC && Absent(p, lists)
    ensures var q, l := Head(k), lists[k];
            && 0 <= Prev(l, q, i) < |t| && 0 <= Next(l, q, i) < |t| && p < |t|
            && Represents(Linking(t, p, key, Prev(l, q, i), Next(l, q, i)), lists[k := InsertAt(l, i, p)])
            && Separate(lists[k := InsertAt(l, i, p)])
  {
    var q, l := Head(k), lists[k];
    InsertLinked(t, q, l, i, p, key);
    LinkedEnds(t, q, l, i);
    var prev, next := Prev(l, q, i), Next(l, q, i);
    var t' := Linking(t, p, key, prev, next);
    forall j | 0 <= j < |lists| && j != k
      ensures Linked(t', Head(j), lists[j])
    {
      OtherList(t, lists, k, j, i);
      hide Linked, Linking, Separate, Absent, Prev, Next;
      forall x: nat | x < |t| && x != p && x != prev && x != next
        ensures t'[x] == t[x]
      {
        LinkingAt(t, p, key, prev, next, x);
      }
      LinkingAt(t, p, key, prev, next, p);
      assert p !in lists[j] by { AbsentFrom(p, lists, j); }
      OtherEnds(t, lists, j);
      LinkedFrame(t, t', Head(j), lists[j]);
    }
    InsertSeparate(lists, k, i, p);
  }

  lemma AbsentFrom(p: int, lists: seq<seq<int>>, j: nat)
    requires Absent(p, lists) && j < |lists|
    ensures p !in lists[j]
  {
  }

  lemma OtherEnds(t: seq<QEntry>, lists: seq<seq<int>>, j: nat)
    requires Represents(t, lists) && j < |lists|
    ensures Head(j) + 1 < |t| && Pids(lists[j])
  {
  }

  /** The neighbours of a place of one list belong to no other. */
  lemma OtherList(t: seq<QEntry>, lists: seq<seq<int>>, k: nat, j: nat, i: nat)
    requires Represents(t, lists) && Separate(lists) && k < |lists| && j < |lists| && j != k && i <= |lists[k]|
    ensures var prev, next := Prev(lists[k], Head(k), i), Next(lists[k], Head(k), i);
            && prev !in lists[j] && next !in lists[j]
            && prev != Head(j) && prev != Head(j) + 1 && next != Head(j) && next != Head(j) + 1
  {
    assert Linked(t, Head(j), lists[j]) && Linked(t, Head(k), lists[k]);
    assert Disjoint(lists[k], lists[j]);
  }

  lemma InsertSeparate(lists: seq<seq<int>>, k: nat, i: nat, p: int)
    requires Separate(lists) && k < |lists| && i <= |lists[k]| && Absent(p, lists)
    ensures Separate(lists[k := InsertAt(lists[k], i, p)])
  {
    var l, r := lists[k], InsertAt(lists[k], i, p);
    assert forall x :: 0 <= x < |r| ==> r[x] == if x < i then l[x] else if x == i then p else l[x - 1];
  }

  lemma RemoveSeparate(lists: seq<seq<int>>, k: nat, i: nat)
    requires Separate(lists) && k < |lists| && i < |lists[k]|
    ensures Separate(lists[k := RemoveAt(lists[k], i)])
    ensures Absent(lists[k][i], lists[k := RemoveAt(lists[k], i)])
  {
    var l, r := lists[k], RemoveAt(lists[k], i);
    assert forall x :: 0 <= x < |r| ==> r[x] == if x < i then l[x] else l[x + 1];
    var lists' := lists[k := r];
    forall j | 0 <= j < |lists'|
      ensures l[i] !in lists'[j]
    {
      if j != k { assert lists'[j] == lists[j] && Disjoint(l, lists[j]); }
    }
  }

  lemma RemoveRepresents(t: seq<QEntry>, lists: seq<seq<int>>, k: nat, i: nat)
    requires Represents(t, lists) && Separate(lists) && k < |lists| && i < |lists[k]|
    ensures var p := lists[k][i];
            && 0 <= p < NPROC <= |t|
            && t[p].qprev == Prev(lists[k], Head(k), i) && t[p].qnext == Next(lists[k], Head(k), i + 1)
            && 0 <= t[p].qprev < |t| && 0 <= t[p].qnext < |t|
            && Represents(Unlinking(t, p), lists[k := RemoveAt(lists[k], i)])
  {
    var q, l := Head(k), lists[k];
    var p := l[i];
    RemoveLinked(t, q, l, i);
    LinkedAt(t, q, l, i);
    LinkedEnds(t, q, l, i);
    LinkedEnds(t, q, l, i + 1);
    var t' := Unlinking(t, p);
    forall j | 0 <= j < |lists| && j != k
      ensures Linked(t', Head(j), lists[j])
    {
      OtherList(t, lists, k, j, i);
      OtherList(t, lists, k, j, i + 1);
      hide Linked, Unlinking, Separate, Prev, Next;
      forall x: nat | x < |t| && x != t[p].qprev && x != t[p].qnext
        ensures t'[x] == t[x]
      {
        UnlinkingAt(t, p, x);
      }
      UnlinkingAt(t, p, p);
      OtherEnds(t, lists, j);
      LinkedFrame(t, t', Head(j), lists[j]);
    }
  }

  predicate BadQid(q: int) { q < 0 || q >= NQENT - 1 }

  predicate BadPid(p: int) { p < 0 || p >= NPROC }

  ghost function KeysOf(t: seq<QEntry>): (r: seq<int>)
    requires |t| >= NPROC
    ensures |r| == NPROC
    ensures forall p :: 0 <= p < NPROC ==> r[p] == t[p].qkey
  {
    seq(NPROC, p requires 0 <= p < NPROC => t[p].qkey)
  }

  class QueueTable {
    const tab: array<QEntry>
    var nextqid: nat
    ghost var lists: seq<seq<int>>

    ghost predicate Valid()
      reads this, tab
    {
      && tab.Length == NQENT && nextqid == Head(|lists|) <= NQENT
      && Represents(tab[..], lists) && Separate(lists)
    }

    ghost function Keys(): (r: seq<int>)
      requires Valid()
      reads this, tab
      ensures |r| == NPROC
    {
      KeysOf(tab[..])
    }

    constructor ()
      ensures Valid() && lists == [] && fresh(tab)
      ensures forall p :: 0 <= p < NPROC ==> Keys()[p] == 0
    {
      tab := new QEntry[NQENT](_ => QEntry(0, 0, 0));
      nextqid := NPROC;
      lists := [];
    }

    /** Takes the next two entries as head and tail of an empty queue. The test for a full table stops only
        past its end, so callers must leave room for both entries. */
    method NewQueue() returns (q: int)
      requires Valid() && nextqid + 1 < NQENT
      modifies this, tab
      ensures Valid() && q == Head(old(|lists|))
      ensures lists == old(lists) + [[]] && Keys() == old(Keys())
    {
      q := nextqid;
      if q > NQENT {
        return SYSERR;
      }
      ghost var t := tab[..];
      nextqid := nextqid + 2;
      tab[q] := QEntry(MAXKEY, q + 1, EMPTY);
      tab[q + 1] := QEntry(MINKEY, EMPTY, q);
      forall k | 0 <= k < |lists|
        ensures Linked(tab[..], Head(k), lists[k])
      {
        OtherEnds(t, lists, k);
        hide Linked;
        LinkedFrame(t, tab[..], Head(k), lists[k]);
      }
      hide Linked, Represents;
      lists := lists + [[]];
    }

    function FirstId(q: nat): int
      requires q < tab.Length
      reads tab
    {
      tab[q].qnext
    }

    predicate NonEmpty(q: nat)
      requires q < tab.Length
      reads tab
    {
      FirstId(q) < NPROC
    }

    function FirstKey(q: nat): int
      requires q < tab.Length && 0 <= FirstId(q) < tab.Length
      reads tab
    {
      tab[FirstId(q)].qkey
    }

    /** The first key of an empty queue is the least. */
    lemma FirstKeySays(k: nat)
      requires Valid() && k < |lists|
      ensures Head(k) + 1 < tab.Length && Pids(lists[k]) && 0 <= FirstId(Head(k)) < tab.Length
      ensures FirstKey(Head(k)) == if lists[k] == [] then MINKEY else Keys()[lists[k][0]]
    {
      HeadSays(k);
    }

    /** What the head of a queue says of its list. */
    lemma HeadSays(k: nat)
      requires Valid() && k < |lists|
      ensures Head(k) + 1 < tab.Length && Pids(lists[k])
      ensures NonEmpty(Head(k)) <==> lists[k] != []
      ensures lists[k] != [] ==> FirstId(Head(k)) == lists[k][0]
      ensures lists[k] == [] ==> FirstId(Head(k)) == Head(k) + 1 && tab[Head(k) + 1].qkey == MINKEY
    {
    }

    /** Makes the links that put `pid` at place `i` of the k-th list. */
    method Link(pid: nat, key: int, prev: nat, next: nat, ghost k: nat, ghost i: nat)
      requires Valid() && k < |lists| && i <= |lists[k]| && pid < NPROC && Absent(pid, lists)
      requires prev == Prev(lists[k], Head(k), i) && next == Next(lists[k], Head(k), i)
      modifies this`lists, tab
      ensures Valid() && lists == old(lists)[k := InsertAt(old(lists)[k], i, pid)]
      ensures Keys() == old(Keys())[pid := key]
    {
      ghost var t := tab[..];
      InsertRepresents(t, lists, k, i, pid, key);
      tab[pid] := QEntry(key, next, prev);
      tab[prev] := tab[prev].(qnext := pid);
      tab[next] := tab[next].(qprev := pid);
      hide Represents, Separate, Absent, Prev, Next, InsertAt;
      assert tab[..] == Linking(t, pid, key, prev, next);
      lists := lists[k := InsertAt(lists[k], i, pid)];
    }

    /** Puts a process at the end of a queue. */
    method Enqueue(pid: int, q: int, ghost k: nat) returns (r: int)
      requires Valid() && (!BadQid(q) ==> k < |lists| && q == Head(k))
      requires !BadPid(pid) ==> Absent(pid, lists)
      modifies this`lists, tab
      ensures Valid()
      ensures BadQid(q) || BadPid(pid) ==> r == SYSERR && unchanged(this) && unchanged(tab)
      ensures !BadQid(q) && !BadPid(pid) ==>
                r == pid && lists == old(lists)[k := old(lists)[k] + [pid]] && Keys() == old(Keys())
    {
      if BadQid(q) || BadPid(pid) {
        return SYSERR;
      }
      LinkedEnds(tab[..], q, lists[k], |lists[k]|);
      assert InsertAt(lists[k], |lists[k]|, pid) == lists[k] + [pid];
      ghost var keys := Keys();
      Link(pid, tab[pid].qkey, tab[q + 1].qprev, q + 1, k, |lists[k]|);
      assert keys == keys[pid := keys[pid]];
      r := pid;
    }

    /** The first node of a queue whose key is below `key`; the tail's is. */
    method Search(q: nat, key: int, ghost k: nat) returns (curr: nat, ghost i: nat)
      requires Valid() && k < |lists| && q == Head(k) && key > MINKEY
      ensures Pids(lists[k]) && i == Place(lists[k], Keys(), key) && curr == Next(lists[k], q, i) && curr < tab.Length
    {
      i := 0;
      ghost var l, keys := lists[k], Keys();
      LinkedEnds(tab[..], q, l, 0);
      curr := tab[q].qnext;
      while tab[curr].qkey >= key
        invariant i <= |l| && curr == Next(l, q, i) && curr < tab.Length
        invariant forall j :: 0 <= j < i ==> keys[l[j]] >= key
        decreases |l| - i
      {
        LinkedAt(tab[..], q, l, i);
        LinkedEnds(tab[..], q, l, i + 1);
        curr := tab[curr].qnext;
        i := i + 1;
      }
      LinkedEnds(tab[..], q, l, i);
      PlaceIs(l, keys, key, i);
    }

    /** Puts a process in a queue before the first one whose key is smaller: in descending order of keys, last
        among equals. */
    method Insert(pid: int, q: int, key: int, ghost k: nat) returns (r: int)
      requires Valid() && (!BadQid(q) ==> k < |lists| && q == Head(k))
      requires !BadPid(pid) ==> Absent(pid, lists)
      requires key > MINKEY
      modifies this`lists, tab
      ensures Valid()
      ensures BadQid(q) || BadPid(pid) ==> r == SYSERR && unchanged(this) && unchanged(tab)
      ensures !BadQid(q) && !BadPid(pid) ==>
                && r == OK && Pids(old(lists)[k])
                && lists == old(lists)[k := InsertAt(old(lists)[k], Place(old(lists)[k], old(Keys()), key), pid)]
                && Keys() == old(Keys())[pid := key]
    {
      if BadQid(q) || BadPid(pid) {
        return SYSERR;
      }
      var curr;
      ghost var i;
      curr, i := Search(q, key, k);
      LinkedEnds(tab[..], q, lists[k], i);
      var prev := tab[curr].qprev;
      Link(pid, key, prev, curr, k, i);
      r := OK;
    }

    /** Walks a list of relative delays to where `delay` goes, spending it on the way. */
    method SearchDelta(q: nat, delay: int, ghost k: nat) returns (prev: nat, next: nat, key: int, ghost i: nat)
      requires Valid() && k < |lists| && q == Head(k)
      ensures Pids(lists[k]) && (i, key) == DeltaPlace(lists[k], Keys(), delay)
      ensures prev == Prev(lists[k], q, i) && next == Next(lists[k], q, i)
      ensures prev < tab.Length && next < tab.Length && (i < |lists[k]| ==> next < NPROC)
    {
      hide Separate, ToInt32, DeltaPlace;
      i := 0;
      ghost var l, keys := lists[k], Keys();
      LinkedEnds(tab[..], q, l, 0);
      key := delay;
      prev := q;
      next := tab[q].qnext;
      assert l[0..] == l;
      DeltaEnds(l, keys, 0, key);
      while next != q + 1 && tab[next].qkey <= key
        invariant i <= |l| && prev == Prev(l, q, i) && next == Next(l, q, i)
        invariant next < tab.Length && prev < tab.Length && (i < |l| ==> next < NPROC)
        invariant DeltaPlace(l, keys, delay) == (i + DeltaPlace(l[i..], keys, key).0, DeltaPlace(l[i..], keys, key).1)
        invariant i == |l| || keys[l[i]] > key ==> DeltaPlace(l[i..], keys, key) == (0, key)
        decreases |l| - i
      {
        LinkedAt(tab[..], q, l, i);
        LinkedEnds(tab[..], q, l, i + 1);
        DeltaStep(l, keys, i, key);
        key := ToInt32(key - tab[next].qkey);
        prev := next;
        next := tab[next].qnext;
        i := i + 1;
        DeltaEnds(l, keys, i, key);
      }
    }

    /** Puts a process on a list of relative delays. */
    method InsertDelta(pid: int, q: int, delay: int, ghost k: nat) returns (r: int)
      requires Valid() && (!BadQid(q) ==> k < |lists| && q == Head(k))
      requires !BadPid(pid) ==> Absent(pid, lists)
      modifies this`lists, tab
      ensures Valid()
      ensures BadQid(q) || BadPid(pid) ==> r == SYSERR && unchanged(this) && unchanged(tab)
      ensures !BadQid(q) && !BadPid(pid) ==>
                && r == OK && Pids(old(lists)[k])
                && var (i, y) := DeltaPlace(old(lists)[k], old(Keys()), delay);
                   && lists == old(lists)[k := InsertAt(old(lists)[k], i, pid)]
                   && Keys() == DeltaKeys(old(Keys()), old(lists)[k], i, pid, y)
    {
      hide Represents, Separate, Absent, InsertAt, DeltaPlace, Prev;
      if BadQid(q) || BadPid(pid) {
        return SYSERR;
      }
      var prev, next, key;
      ghost var i;
      prev, next, key, i := SearchDelta(q, delay, k);
      Link(pid, key, prev, next, k, i);
      if next != q + 1 {
        AddKey(next, -key);
      }
      r := OK;
    }

    /** Adds to a key, a signed word. */
    method AddKey(pid: nat, x: int)
      requires Valid() && pid < NPROC
      modifies tab
      ensures Valid() && Keys() == old(Keys())[pid := ToInt32(old(Keys())[pid] + x)]
    {
      ghost var t := tab[..];
      tab[pid] := tab[pid].(qkey := ToInt32(tab[pid].qkey + x));
      Rekey(t, lists, pid, tab[pid].qkey);
      hide Represents, Separate;
      assert tab[..] == t[pid := t[pid].(qkey := tab[pid].qkey)];
    }

    /** Takes a process out of the queue it is in. */
    method GetItem(pid: nat, ghost k: nat, ghost i: nat) returns (r: nat)
      requires Valid() && k < |lists| && i < |lists[k]| && lists[k][i] == pid
      modifies this`lists, tab
      ensures Valid() && r == pid < NPROC
      ensures lists == old(lists)[k := RemoveAt(old(lists)[k], i)] && Keys() == old(Keys()) && Absent(pid, lists)
    {
      RemoveRepresents(tab[..], lists, k, i);
      RemoveSeparate(lists, k, i);
      hide Represents, Separate, RemoveAt, Absent;
      ghost var t := tab[..];
      var next := tab[pid].qnext;
      var prev := tab[pid].qprev;
      tab[prev] := tab[prev].(qnext := next);
      tab[next] := tab[next].(qprev := prev);
      assert tab[..] == Unlinking(t, pid);
      lists := lists[k := RemoveAt(lists[k], i)];
      r := pid;
    }

    /** Takes out the first process of a queue. */
    method GetFirst(q: nat, ghost k: nat) returns (r: int)
      requires Valid() && k < |lists| && q == Head(k)
      modifies this`lists, tab
      ensures Valid() && Keys() == old(Keys())
      ensures old(lists[k]) == [] ==> r == EMPTY && lists == old(lists)
      ensures old(lists[k]) != [] ==>
                && r == old(lists[k][0]) && 0 <= r < NPROC
                && lists == old(lists)[k := old(lists[k])[1..]] && Absent(r, lists)
    {
      HeadSays(k);
      if !NonEmpty(q) {
        return EMPTY;
      }
      assert RemoveAt(lists[k], 0) == lists[k][1..];
      r := GetItem(tab[q].qnext, k, 0);
    }

    /** Takes out the last process of a queue. */
    method GetLast(q: nat, ghost k: nat) returns (r: int)
      requires Valid() && k < |lists| && q == Head(k)
      modifies this`lists, tab
      ensures Valid() && Keys() == old(Keys())
      ensures old(lists[k]) == [] ==> r == EMPTY && lists == old(lists)
      ensures old(lists[k]) != [] ==>
                r == old(lists[k][|lists[k]| - 1]) && 0 <= r < NPROC
                && lists == old(lists)[k := old(lists[k])[..old(|lists[k]|) - 1]] && Absent(r, lists)
    {
      HeadSays(k);
      if !NonEmpty(q) {
        return EMPTY;
      }
      LinkedEnds(tab[..], q, lists[k], |lists[k]|);
      assert RemoveAt(lists[k], |lists[k]| - 1) == lists[k][..|lists[k]| - 1];
      r := GetItem(tab[q + 1].qprev, k, |lists[k]| - 1);
    }

    /** Takes out the first process of a queue and clears its links. */
    method Dequeue(q: int, ghost k: nat) returns (r: int)
      requires Valid() && (!BadQid(q) ==> k < |lists| && q == Head(k))
      modifies this`lists, tab
      ensures Valid() && Keys() == old(Keys())
      ensures BadQid(q) ==> r == SYSERR && lists == old(lists)
      ensures !BadQid(q) && old(lists[k]) == [] ==> r == EMPTY && lists == old(lists)
      ensures !BadQid(q) && old(lists[k]) != [] ==>
                && r == old(lists[k][0]) && 0 <= r < NPROC
                && lists == old(lists)[k := old(lists[k])[1..]] && Absent(r, lists)
    {
      if BadQid(q) {
        return SYSERR;
      }
      HeadSays(k);
      if !NonEmpty(q) {
        return EMPTY;
      }
      r := GetFirst(q, k);
      ghost var t := tab[..];
      tab[r] := tab[r].(qnext := EMPTY, qprev := EMPTY);
      Clear(t, lists, r);
      hide Represents, Separate, Absent;
      assert tab[..] == t[r := t[r].(qnext := EMPTY, qprev := EMPTY)];
    }
  }

  lemma DeltaStep(l: seq<int>, keys: seq<int>, i: nat, x: int)
    requires |keys| == NPROC && Pids(l) && i < |l| && keys[l[i]] <= x
    ensures var (j, y) := DeltaPlace(l[i + 1..], keys, ToInt32(x - keys[l[i]]));
            DeltaPlace(l[i..], keys, x) == (j + 1, y)
  {
    assert l[i..][1..] == l[i + 1..];
    hide ToInt32;
  }

  lemma DeltaEnds(l: seq<int>, keys: seq<int>, i: nat, x: int)
    requires |keys| == NPROC && Pids(l) && i <= |l|
    ensures i == |l| || keys[l[i]] > x ==> DeltaPlace(l[i..], keys, x) == (0, x)
  {
  }

  /** The entry of a process on no list is no part of the links. */
  lemma Clear(t: seq<QEntry>, lists: seq<seq<int>>, p: nat)
    requires Represents(t, lists) && p < NPROC && p < |t| && Absent(p, lists)
    ensures Represents(t[p := t[p].(qnext := EMPTY, qprev := EMPTY)], lists)
  {
    var t' := t[p := t[p].(qnext := EMPTY, qprev := EMPTY)];
    forall k | 0 <= k < |lists|
      ensures Linked(t', Head(k), lists[k])
    {
      OtherEnds(t, lists, k);
      AbsentFrom(p, lists, k);
      hide Linked;
      LinkedFrame(t, t', Head(k), lists[k]);
    }
  }

  /** Keys of processes are no part of the links. */
  lemma Rekey(t: seq<QEntry>, lists: seq<seq<int>>, p: nat, key: int)
    requires Represents(t, lists) && p < NPROC && p < |t|
    ensures Represents(t[p := t[p].(qkey := key)], lists)
  {
    var t' := t[p := t[p].(qkey := key)];
    forall k | 0 <= k < |lists|
      ensures Linked(t', Head(k), lists[k])
    {
      OtherEnds(t, lists, k);
      hide Linked;
      LinkedFrame(t, t', Head(k), lists[k]);
    }
  }
}
