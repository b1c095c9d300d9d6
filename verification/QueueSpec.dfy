/** Queues of processes as sequences, and the table of links that represents them. */
module QueueSpec {
  import opened Codes

  const NPROC := 100
  const NSEM := 100
  const NLOCKS := 50
  const NQENT := NPROC + 4 + NSEM * 2 + NLOCKS * 4

  const MAXKEY := MAXINT
  const MINKEY := -MAXINT - 1
  const EMPTY := -1

  datatype QEntry = QEntry(qkey: int, qnext: int, qprev: int)

  predicate NoDup(l: seq<int>)
  {
    forall i, j :: 0 <= i < j < |l| ==> l[i] != l[j]
  }

  predicate Pids(l: seq<int>)
  {
    forall i :: 0 <= i < |l| ==> 0 <= l[i] < NPROC
  }

  lemma {:induction false} NoMoreThan(l: seq<int>, all: set<int>)
    requires NoDup(l) && forall i :: 0 <= i < |l| ==> l[i] in all
    ensures |l| <= |all|
  {
    if l != [] {
      var n := |l| - 1;
      NoMoreThan(l[..n], all - {l[n]});
    }
  }

  ghost function Below(n: nat): (s: set<int>)
    ensures |s| == n && forall x :: x in s <==> 0 <= x < n
  {
    if n == 0 then {} else Below(n - 1) + {n - 1}
  }

  /** A queue holds no more processes than there are. */
  lemma FewPids(l: seq<int>)
    requires NoDup(l) && Pids(l)
    ensures |l| <= NPROC
  {
    NoMoreThan(l, Below(NPROC));
  }

  function InsertAt(l: seq<int>, i: nat, x: int): (r: seq<int>)
    requires i <= |l|
    ensures |r| == |l| + 1
  {
    l[..i] + [x] + l[i..]
  }

  function RemoveAt(l: seq<int>, i: nat): (r: seq<int>)
    requires i < |l|
    ensures |r| == |l| - 1
  {
    l[..i] + l[i + 1..]
  }

  /** The first place whose key is below `x`. */
  function Place(l: seq<int>, key: seq<int>, x: int): (i: nat)
    requires |key| == NPROC && Pids(l)
    ensures i <= |l|
    ensures i < |l| ==> key[l[i]] < x
    ensures forall k :: 0 <= k < i ==> key[l[k]] >= x
  {
    if l == [] || key[l[0]] < x then 0 else 1 + Place(l[1..], key, x)
  }

  lemma PlaceIs(l: seq<int>, key: seq<int>, x: int, i: nat)
    requires |key| == NPROC && Pids(l) && i <= |l|
    requires forall k :: 0 <= k < i ==> key[l[k]] >= x
    requires i < |l| ==> key[l[i]] < x
    ensures Place(l, key, x) == i
  {
  }

  /** Where a delay of `x` goes on a list of delays relative to the one before, and what is left of it there, in
      signed words. */
  function DeltaPlace(l: seq<int>, key: seq<int>, x: int): (r: (nat, int))
    requires |key| == NPROC && Pids(l)
    ensures r.0 <= |l|
  {
    if l == [] || key[l[0]] > x then (0, x)
    else
      var (i, y) := DeltaPlace(l[1..], key, ToInt32(x - key[l[0]]));
      (i + 1, y)
  }

  /** The keys after process `p` with key `y` is put at place `i`: its successor's delay counts from it. */
  function DeltaKeys(keys: seq<int>, l: seq<int>, i: nat, p: int, y: int): (r: seq<int>)
    requires |keys| == NPROC && Pids(l) && i <= |l| && 0 <= p < NPROC
    ensures |r| == NPROC
  {
    var keys1 := keys[p := y];
    if i < |l| then keys1[l[i] := ToInt32(keys1[l[i]] - y)] else keys1
  }

  // --- the table of links ---

  /** The head of the k-th queue; its tail is the next entry. */
  function Head(k: nat): nat { NPROC + 2 * k }

  /** The node before and the node after place `i` of the list with head `q`. */
  function Prev(l: seq<int>, q: int, i: nat): int
    requires i <= |l|
  {
    if i == 0 then q else l[i - 1]
  }

  function Next(l: seq<int>, q: int, i: nat): int
    requires i <= |l|
  {
    if i == |l| then q + 1 else l[i]
  }

  /** Place `i` of a list is linked to its neighbours in both directions. */
  ghost predicate LinkedPlace(t: seq<QEntry>, q: int, l: seq<int>, i: nat)
    requires i < |l| && NPROC <= |t|
  {
    0 <= l[i] < NPROC && t[l[i]].qprev == Prev(l, q, i) && t[l[i]].qnext == Next(l, q, i + 1)
  }

  /** The entries of `t` link head, list and tail in both directions. */
  ghost predicate Linked(t: seq<QEntry>, q: int, l: seq<int>)
  {
    && NPROC <= q < q + 1 < |t| && Pids(l)
    && t[q].qkey == MAXKEY && t[q + 1].qkey == MINKEY
    && t[q].qnext == Next(l, q, 0)
    && t[q + 1].qprev == Prev(l, q, |l|)
    && forall i :: 0 <= i < |l| ==> LinkedPlace(t, q, l, i)
  }

  /** Entry `p` put between `prev` and `next`. */
  function Linking(t: seq<QEntry>, p: nat, key: int, prev: nat, next: nat): seq<QEntry>
    requires p < |t| && prev < |t| && next < |t|
  {
    var t1 := t[p := QEntry(key, next, prev)];
    var t2 := t1[prev := t1[prev].(qnext := p)];
    t2[next := t2[next].(qprev := p)]
  }

  lemma InsertedAt(l: seq<int>, q: int, i: nat, p: int, k: nat)
    requires i <= |l| && k <= |l|
    ensures var r := InsertAt(l, i, p);
            && (k < i ==> r[k] == l[k] && Prev(r, q, k) == Prev(l, q, k)
                          && Next(r, q, k + 1) == if k + 1 == i then p else Next(l, q, k + 1))
            && (k == i ==> r[k] == p && Prev(r, q, k) == Prev(l, q, i) && Next(r, q, k + 1) == Next(l, q, i))
            && (k > i ==> r[k] == l[k - 1] && Next(r, q, k + 1) == Next(l, q, k)
                          && Prev(r, q, k) == if k == i + 1 then p else Prev(l, q, k - 1))
  {
  }

  /** Distinct nodes have distinct neighbours. */
  lemma Neighbours(l: seq<int>, q: int, i: nat, k: nat)
    requires Pids(l) && NoDup(l) && q >= NPROC && i <= |l| && k < |l|
    ensures l[k] == Prev(l, q, i) <==> k + 1 == i
    ensures l[k] == Next(l, q, i) <==> k == i
    ensures Prev(l, q, i) != Next(l, q, i)
  {
  }

  lemma LinkingAt(t: seq<QEntry>, p: nat, key: int, prev: nat, next: nat, x: nat)
    requires p < |t| && prev < |t| && next < |t| && x < |t| && p != prev && p != next
    ensures |Linking(t, p, key, prev, next)| == |t|
    ensures Linking(t, p, key, prev, next)[x] ==
            QEntry(if x == p then key else t[x].qkey,
                   if x == prev then p else if x == p then next else t[x].qnext,
                   if x == next then p else if x == p then prev else t[x].qprev)
  {
  }

  lemma LinkedAt(t: seq<QEntry>, q: int, l: seq<int>, i: nat)
    requires Linked(t, q, l) && i < |l|
    ensures 0 <= l[i] < NPROC && t[l[i]].qprev == Prev(l, q, i) && t[l[i]].qnext == Next(l, q, i + 1)
  {
    assert LinkedPlace(t, q, l, i);
  }

  lemma LinkedEnds(t: seq<QEntry>, q: int, l: seq<int>, i: nat)
    requires Linked(t, q, l) && i <= |l|
    ensures NPROC <= q < q + 1 < |t| && Pids(l)
    ensures 0 <= Prev(l, q, i) < |t| && 0 <= Next(l, q, i) < |t|
    ensures t[Prev(l, q, i)].qnext == Next(l, q, i) && t[Next(l, q, i)].qprev == Prev(l, q, i)
  {
    if i > 0 { LinkedAt(t, q, l, i - 1); }
    if i < |l| { LinkedAt(t, q, l, i); }
  }

  lemma InsertLinkedAt(t: seq<QEntry>, q: int, l: seq<int>, i: nat, p: nat, key: int, k: nat)
    requires Linked(t, q, l) && NoDup(l) && i <= |l| && p < NPROC && p !in l && k <= |l|
    ensures 0 <= Prev(l, q, i) < |t| && 0 <= Next(l, q, i) < |t|
    ensures var t', r := Linking(t, p, key, Prev(l, q, i), Next(l, q, i)), InsertAt(l, i, p);
            0 <= r[k] < NPROC && t'[r[k]].qprev == Prev(r, q, k) && t'[r[k]].qnext == Next(r, q, k + 1)
  {
    LinkedEnds(t, q, l, i);
    InsertedAt(l, q, i, p, k);
    if k != i {
      var j := if k < i then k else k - 1;
      LinkedAt(t, q, l, j);
      Neighbours(l, q, i, j);
    }
    hide Linked, Linking, InsertAt, NoDup, Pids, Next, Prev;
    var prev, next := Prev(l, q, i), Next(l, q, i);
    LinkingAt(t, p, key, prev, next, InsertAt(l, i, p)[k]);
  }

  lemma InsertedEnds(l: seq<int>, q: int, i: nat, p: int)
    requires Pids(l) && q >= NPROC && i <= |l| && 0 <= p < NPROC
    ensures var r := InsertAt(l, i, p);
            && Pids(r)
            && Next(r, q, 0) == (if i == 0 then p else Next(l, q, 0))
            && Prev(r, q, |r|) == (if i == |l| then p else Prev(l, q, |l|))
    ensures Prev(l, q, i) == q <==> i == 0
    ensures Next(l, q, i) == q + 1 <==> i == |l|
    ensures Prev(l, q, i) != q + 1 && Next(l, q, i) != q
  {
  }

  lemma InsertLinked(t: seq<QEntry>, q: int, l: seq<int>, i: nat, p: nat, key: int)
    requires Linked(t, q, l) && NoDup(l) && i <= |l| && p < NPROC && p !in l
    ensures 0 <= Prev(l, q, i) < |t| && 0 <= Next(l, q, i) < |t|
    ensures Linked(Linking(t, p, key, Prev(l, q, i), Next(l, q, i)), q, InsertAt(l, i, p))
  {
    LinkedEnds(t, q, l, i);
    var prev, next := Prev(l, q, i), Next(l, q, i);
    var t', r := Linking(t, p, key, prev, next), InsertAt(l, i, p);
    LinkingAt(t, p, key, prev, next, q);
    LinkingAt(t, p, key, prev, next, q + 1);
    InsertedEnds(l, q, i, p);
    hide Linking, InsertAt, NoDup, Prev, Next;
    forall k | 0 <= k < |r|
      ensures LinkedPlace(t', q, r, k)
    {
      InsertLinkedAt(t, q, l, i, p, key, k);
    }
  }

  /** The entry of place `i` taken out. */
  function Unlinking(t: seq<QEntry>, p: nat): seq<QEntry>
    requires p < |t| && 0 <= t[p].qprev < |t| && 0 <= t[p].qnext < |t|
  {
    var t1 := t[t[p].qprev := t[t[p].qprev].(qnext := t[p].qnext)];
    t1[t[p].qnext := t1[t[p].qnext].(qprev := t[p].qprev)]
  }

  lemma RemovedAt(l: seq<int>, q: int, i: nat, k: nat)
    requires i < |l| && k < |l| - 1
    ensures var r := RemoveAt(l, i);
            && (k < i ==> r[k] == l[k] && Prev(r, q, k) == Prev(l, q, k)
                          && Next(r, q, k + 1) == if k + 1 == i then Next(l, q, i + 1) else Next(l, q, k + 1))
            && (k >= i ==> r[k] == l[k + 1] && Next(r, q, k + 1) == Next(l, q, k + 2)
                           && Prev(r, q, k) == if k == i then Prev(l, q, i) else Prev(l, q, k + 1))
  {
  }

  lemma UnlinkingAt(t: seq<QEntry>, p: nat, x: nat)
    requires p < |t| && 0 <= t[p].qprev < |t| && 0 <= t[p].qnext < |t| && x < |t|
    ensures |Unlinking(t, p)| == |t|
    ensures Unlinking(t, p)[x] ==
            QEntry(t[x].qkey, if x == t[p].qprev then t[p].qnext else t[x].qnext,
                   if x == t[p].qnext then t[p].qprev else t[x].qprev)
  {
  }

  lemma RemoveLinkedAt(t: seq<QEntry>, q: int, l: seq<int>, i: nat, k: nat)
    requires Linked(t, q, l) && NoDup(l) && i < |l| && k < |l| - 1
    ensures 0 <= l[i] < |t| && 0 <= t[l[i]].qprev < |t| && 0 <= t[l[i]].qnext < |t|
    ensures var t', r := Unlinking(t, l[i]), RemoveAt(l, i);
            0 <= r[k] < NPROC && t'[r[k]].qprev == Prev(r, q, k) && t'[r[k]].qnext == Next(r, q, k + 1)
  {
    LinkedEnds(t, q, l, i);
    LinkedEnds(t, q, l, i + 1);
    LinkedAt(t, q, l, i);
    RemovedAt(l, q, i, k);
    var j := if k < i then k else k + 1;
    LinkedAt(t, q, l, j);
    Neighbours(l, q, i, j);
    Neighbours(l, q, i + 1, j);
    hide Linked, Unlinking, RemoveAt, NoDup, Pids, Next, Prev;
    UnlinkingAt(t, l[i], l[j]);
  }

  lemma RemovedEnds(l: seq<int>, q: int, i: nat)
    requires Pids(l) && q >= NPROC && i < |l|
    ensures var r := RemoveAt(l, i);
            && Pids(r)
            && Next(r, q, 0) == (if i == 0 then Next(l, q, 1) else Next(l, q, 0))
            && Prev(r, q, |r|) == (if i + 1 == |l| then Prev(l, q, i) else Prev(l, q, |l|))
    ensures Prev(l, q, i) == q <==> i == 0
    ensures Next(l, q, i + 1) == q + 1 <==> i + 1 == |l|
    ensures Prev(l, q, i) != q + 1 && Next(l, q, i + 1) != q
  {
  }

  lemma RemoveLinked(t: seq<QEntry>, q: int, l: seq<int>, i: nat)
    requires Linked(t, q, l) && NoDup(l) && i < |l|
    ensures 0 <= l[i] < |t| && 0 <= t[l[i]].qprev < |t| && 0 <= t[l[i]].qnext < |t|
    ensures Linked(Unlinking(t, l[i]), q, RemoveAt(l, i))
  {
    LinkedEnds(t, q, l, i);
    LinkedEnds(t, q, l, i + 1);
    LinkedAt(t, q, l, i);
    var t', r := Unlinking(t, l[i]), RemoveAt(l, i);
    UnlinkingAt(t, l[i], q);
    UnlinkingAt(t, l[i], q + 1);
    RemovedEnds(l, q, i);
    hide Unlinking, RemoveAt, NoDup, Prev, Next;
    forall k | 0 <= k < |r|
      ensures LinkedPlace(t', q, r, k)
    {
      RemoveLinkedAt(t, q, l, i, k);
    }
  }

  /** A list is untouched by changes elsewhere. */
  lemma LinkedFrame(t: seq<QEntry>, t': seq<QEntry>, q: int, l: seq<int>)
    requires Linked(t, q, l) && |t'| == |t|
    requires t'[q] == t[q] && t'[q + 1] == t[q + 1]
    requires forall i :: 0 <= i < |l| ==> t'[l[i]].qprev == t[l[i]].qprev && t'[l[i]].qnext == t[l[i]].qnext
    ensures Linked(t', q, l)
  {
    forall i | 0 <= i < |l|
      ensures LinkedPlace(t', q, l, i)
    {
      assert LinkedPlace(t, q, l, i);
    }
  }
}
