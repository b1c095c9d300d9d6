/** The free list in memory: each free block starts with the address of the next one and its own length. */
module HeapMemory {
  import opened Codes
  import opened HeapSpec
  import opened HeapLaws
  import opened HeapRuns

  const NULL := 0
  const MEMLIST := -8                    // where the head of the list lies, outside the heap

  /** The address of block `i`, or of none. */
  function AddrOf(bs: seq<Block>, i: nat): int
  {
    if i < |bs| then bs[i].addr else NULL
  }

  /** The node before place `i`: a block, or the head. */
  function NodeBefore(bs: seq<Block>, i: nat): int
    requires i <= |bs|
  {
    if i == 0 then MEMLIST else bs[i - 1].addr
  }

  ghost predicate LinkedAt(mnext: map<int, int>, mlength: map<int, int>, bs: seq<Block>, i: nat)
    requires i < |bs|
  {
    && bs[i].addr in mnext && mnext[bs[i].addr] == AddrOf(bs, i + 1)
    && bs[i].addr in mlength && mlength[bs[i].addr] == bs[i].len
  }

  ghost predicate Linked(mnext: map<int, int>, mlength: map<int, int>, bs: seq<Block>)
  {
    && MEMLIST in mnext && mnext[MEMLIST] == AddrOf(bs, 0) && MEMLIST in mlength
    && forall i :: 0 <= i < |bs| ==> LinkedAt(mnext, mlength, bs, i)
  }

  lemma NodeSays(mnext: map<int, int>, mlength: map<int, int>, bs: seq<Block>, i: nat)
    requires Linked(mnext, mlength, bs) && i <= |bs|
    ensures NodeBefore(bs, i) in mnext && mnext[NodeBefore(bs, i)] == AddrOf(bs, i)
    ensures i < |bs| ==> bs[i].addr in mnext && bs[i].addr in mlength && mlength[bs[i].addr] == bs[i].len
  {
    if i > 0 { assert LinkedAt(mnext, mlength, bs, i - 1); }
    if i < |bs| { assert LinkedAt(mnext, mlength, bs, i); }
  }

  lemma Distinct(bs: seq<Block>, i: nat, j: nat)
    requires Canon(bs) && i < |bs| && j < |bs| && i != j
    ensures bs[i].addr != bs[j].addr && bs[i].addr > 0
  {
  }

  predicate Same(m: map<int, int>, m': map<int, int>, a: int)
  {
    a in m ==> a in m' && m'[a] == m[a]
  }

  /** At most one block put in the place of blocks `i` to `j`, and linked in. */
  ghost predicate Relinked(mnext: map<int, int>, mlength: map<int, int>, bs: seq<Block>, i: nat, j: nat,
                           mid: seq<Block>,
                           mnext': map<int, int>, mlength': map<int, int>)
    requires i <= j <= |bs| && |mid| <= 1
  {
    var prev := NodeBefore(bs, i);
    var at := if mid == [] then prev else mid[0].addr;
    && (forall a :: a != prev && a != at ==> Same(mnext, mnext', a))
    && (forall a :: a != MEMLIST && (mid == [] || a != at) ==> Same(mlength, mlength', a))
    && MEMLIST in mlength'
    && prev in mnext' && mnext'[prev] == (if mid == [] then AddrOf(bs, j) else at)
    && (mid != [] ==>
          && at in mnext' && mnext'[at] == AddrOf(bs, j)
          && at in mlength' && mlength'[at] == mid[0].len)
  }

  /** A block outside the gap keeps its length, and its link unless it is the one before the gap. */
  lemma KeptAt(mnext: map<int, int>, mlength: map<int, int>, bs: seq<Block>, i: nat, j: nat, mid: seq<Block>,
               mnext': map<int, int>, mlength': map<int, int>, k: nat)
    requires Linked(mnext, mlength, bs) && Canon(bs) && i <= j <= |bs| && |mid| <= 1
    requires Relinked(mnext, mlength, bs, i, j, mid, mnext', mlength')
    requires k < |bs| && (mid != [] ==> bs[k].addr != mid[0].addr && mid[0].addr > 0)
    ensures bs[k].addr in mlength' && mlength'[bs[k].addr] == bs[k].len && bs[k].addr in mnext'
    ensures if k + 1 == i then mnext'[bs[k].addr] == (if mid == [] then AddrOf(bs, j) else mid[0].addr)
            else mnext'[bs[k].addr] == AddrOf(bs, k + 1)
  {
    assert LinkedAt(mnext, mlength, bs, k);
    Distinct1(bs, k);
    if i > 0 && k + 1 != i { Distinct(bs, k, i - 1); }
    hide Canon, Linked;
    assert Same(mlength, mlength', bs[k].addr);
    if k + 1 != i { assert Same(mnext, mnext', bs[k].addr); }
  }

  lemma RelinkedAt(mnext: map<int, int>, mlength: map<int, int>, bs: seq<Block>, i: nat, j: nat, mid: seq<Block>,
                   mnext': map<int, int>, mlength': map<int, int>, k: nat)
    requires Linked(mnext, mlength, bs) && Canon(bs) && i <= j <= |bs| && |mid| <= 1
    requires Canon(Splice(bs, i, j, mid)) && k < |Splice(bs, i, j, mid)|
    requires Relinked(mnext, mlength, bs, i, j, mid, mnext', mlength')
    ensures LinkedAt(mnext', mlength', Splice(bs, i, j, mid), k)
  {
    hide Splice, Canon, Linked;
    var r := Splice(bs, i, j, mid);
    SpliceAt(bs, i, j, mid, k);
    if k + 1 < |r| { SpliceAt(bs, i, j, mid, k + 1); }
    if mid != [] {
      SpliceAt(bs, i, j, mid, i);
      Distinct1(r, i);
      if k != i { Distinct(r, k, i); }
    }
    if k < i {
      KeptAt(mnext, mlength, bs, i, j, mid, mnext', mlength', k);
    } else if k >= i + |mid| {
      KeptAt(mnext, mlength, bs, i, j, mid, mnext', mlength', k - |mid| + j - i);
    }
  }

  lemma Distinct1(bs: seq<Block>, i: nat)
    requires Canon(bs) && i < |bs|
    ensures bs[i].addr > 0
  {
  }

  lemma RelinkedLinks(mnext: map<int, int>, mlength: map<int, int>, bs: seq<Block>, i: nat, j: nat, mid: seq<Block>,
                      mnext': map<int, int>, mlength': map<int, int>)
    requires Linked(mnext, mlength, bs) && Canon(bs) && i <= j <= |bs| && |mid| <= 1
    requires Canon(Splice(bs, i, j, mid)) && Relinked(mnext, mlength, bs, i, j, mid, mnext', mlength')
    ensures Linked(mnext', mlength', Splice(bs, i, j, mid))
  {
    var r := Splice(bs, i, j, mid);
    if r != [] { SpliceAt(bs, i, j, mid, 0); }
    if mid != [] { SpliceAt(bs, i, j, mid, i); Distinct1(r, i); }
    if i > 0 {
      Distinct1(bs, i - 1);
      assert Same(mnext, mnext', MEMLIST);
    }
    forall k | 0 <= k < |r|
      ensures LinkedAt(mnext', mlength', r, k)
    {
      RelinkedAt(mnext, mlength, bs, i, j, mid, mnext', mlength', k);
    }
    hide Splice, Canon;
  }

  lemma FirstFitIs(bs: seq<Block>, n: int, i: nat)
    requires i <= |bs| && (i < |bs| ==> bs[i].len >= n) && forall j :: 0 <= j < i ==> bs[j].len < n
    ensures FirstFit(bs, n) == i
  {
  }

  lemma LastFitIs(bs: seq<Block>, n: int, i: nat)
    requires i <= |bs| && (i > 0 ==> bs[i - 1].len >= n) && forall j :: i <= j < |bs| ==> bs[j].len < n
    ensures LastFit(bs, n) == i
  {
  }

  lemma BelowIs(bs: seq<Block>, a: int, k: nat)
    requires k <= |bs| && (forall j :: 0 <= j < k ==> bs[j].addr < a) && (k < |bs| ==> bs[k].addr >= a)
    ensures Below(bs, a) == k
  {
  }

  /** The list after `r` bytes are taken from the front of block `i`, or from its end. */
  lemma CutCanon(bs: seq<Block>, i: nat, r: int)
    requires Canon(bs) && i < |bs| && Aligned(r) && 0 <= r <= bs[i].len
    ensures r == bs[i].len ==> Canon(Splice(bs, i, i + 1, []))
    ensures r < bs[i].len ==> Canon(Splice(bs, i, i + 1, [Block(bs[i].addr + r, bs[i].len - r)]))
    ensures r < bs[i].len ==> Canon(Splice(bs, i, i + 1, [Block(bs[i].addr, bs[i].len - r)]))
  {
    AlignedSum(bs[i].addr, r);
    AlignedSum(bs[i].addr, bs[i].len);
    AlignedSum(End(bs[i]), r);
    hide Canon, Splice, Aligned;
    Cut(bs, i, bs[i].addr, bs[i].addr + r, if r == bs[i].len then [] else [Block(bs[i].addr + r, bs[i].len - r)]);
    if 0 < r < bs[i].len {
      Cut(bs, i, End(bs[i]) - r, End(bs[i]), [Block(bs[i].addr, End(bs[i]) - r - bs[i].addr)]);
    }
  }

  class FreeMemory {
    const heap: Heap
    var mnext: map<int, int>
    var mlength: map<int, int>
    ghost var bs: seq<Block>

    ghost predicate Valid()
      reads this
    {
      Canon(bs) && Linked(mnext, mlength, bs) && 0 <= mlength[MEMLIST] < TWO32
    }

    /** A heap of one free block. The length in the head starts at 0, not at what is free. */
    constructor (h: Heap, b: Block)
      requires Proper(b)
      ensures Valid() && heap == h && bs == [b] && mlength[MEMLIST] == 0
    {
      heap := h;
      mnext := map[MEMLIST := b.addr, b.addr := NULL];
      mlength := map[MEMLIST := 0, b.addr := b.len];
      bs := [b];
    }

    /** Adds to the length kept in the head of the list, in 32-bit arithmetic. */
    method AddLength(n: int)
      requires Valid()
      modifies this`mlength
      ensures Valid() && mlength == old(mlength)[MEMLIST := (old(mlength)[MEMLIST] + n) % TWO32]
    {
      hide Canon;
      ghost var was := mlength;
      mlength := mlength[MEMLIST := (mlength[MEMLIST] + n) % TWO32];
      forall i | 0 <= i < |bs|
        ensures LinkedAt(mnext, mlength, bs, i)
      {
        Distinct1(bs, i);
        assert LinkedAt(mnext, was, bs, i);
      }
    }

    /** Unlinks block `i`. */
    method Unlink(prev: int, curr: int, ghost i: nat)
      requires Valid() && i < |bs| && prev == NodeBefore(bs, i) && curr == bs[i].addr
      modifies this`mnext, this`bs
      ensures Valid() && bs == Splice(old(bs), i, i + 1, [])
    {
      NodeSays(mnext, mlength, bs, i);
      NodeSays(mnext, mlength, bs, i + 1);
      AlignedLength(bs, i);
      CutCanon(bs, i, bs[i].len);
      hide Canon, Splice;
      ghost var was := mnext;
      mnext := mnext[prev := mnext[curr]];
      RelinkedLinks(was, mlength, bs, i, i + 1, [], mnext, mlength);
      bs := Splice(bs, i, i + 1, []);
    }

    /** Cuts `n` bytes off the front of block `i`: the rest becomes a block of its own. */
    method Split(prev: int, curr: int, n: nat, ghost i: nat)
      requires Valid() && i < |bs| && prev == NodeBefore(bs, i) && curr == bs[i].addr && Aligned(n) && n < bs[i].len
      modifies this`mnext, this`mlength, this`bs
      ensures Valid() && bs == Splice(old(bs), i, i + 1, [Block(curr + n, old(bs)[i].len - n)])
      ensures mlength[MEMLIST] == old(mlength)[MEMLIST]
    {
      hide Canon, Splice, Linked, Relinked, AddrOf, NodeBefore, Aligned, Proper, End;
      ghost var next0, length0, mid := mnext, mlength, [Block(curr + n, bs[i].len - n)];
      CutCanon(bs, i, n);
      SplitLinks(mnext, mlength, bs, i, n);
      var leftover := curr + n;
      mnext := mnext[prev := leftover];
      mnext := mnext[leftover := mnext[curr]];
      mlength := mlength[leftover := mlength[curr] - n];
      RelinkedLinks(next0, length0, bs, i, i + 1, mid, mnext, mlength);
      bs := Splice(bs, i, i + 1, mid);
    }

    /** The length in the head has changed as the free bytes have, in 32-bit arithmetic. */
    ghost predicate Counted(was: seq<Block>, length: int)
      requires MEMLIST in mlength
      reads this
    {
      mlength[MEMLIST] == (length + Bytes(bs) - Bytes(was)) % TWO32
    }

    method GetMem(nbytes: nat) returns (p: int)
      requires Valid() && nbytes < TWO32
      modifies this
      ensures Valid() && (bs, p) == HeapSpec.GetMem(old(bs), nbytes)
      ensures Counted(old(bs), old(mlength[MEMLIST]))
    {
      TakenBytes(bs, nbytes);
      hide Canon, Linked, Bytes, Round, Aligned, Splice, FirstFit, LastFit;
      LinkedHead(mnext, mlength, bs);
      if nbytes == 0 {
        return SYSERR;
      }
      var n: int := Round(nbytes);
      var prev, curr := MEMLIST, mnext[MEMLIST];
      ghost var i := 0;
      while curr != NULL
        invariant unchanged(this)
        invariant i <= |bs| && prev == NodeBefore(bs, i) && curr == AddrOf(bs, i)
        invariant forall j :: 0 <= j < i ==> bs[j].len < n
        decreases |bs| - i
      {
        OnList(bs, i);
        NodeSays(mnext, mlength, bs, i);
        Distinct1(bs, i);
        if mlength[curr] == n {
          FirstFitIs(bs, n, i);
          Unlink(prev, curr, i);
          AddLength(-n);
          return curr;
        } else if mlength[curr] > n {
          FirstFitIs(bs, n, i);
          Split(prev, curr, n, i);
          AddLength(-n);
          return curr;
        }
        NodeSays(mnext, mlength, bs, i + 1);
        prev := curr;
        curr := mnext[curr];
        i := i + 1;
      }
      NullAtEnd(bs, i);
      FirstFitIs(bs, n, i);
      p := SYSERR;
    }

    /** Cuts `n` bytes off the end of block `i`. */
    method Shorten(curr: int, n: nat, ghost i: nat)
      requires Valid() && i < |bs| && curr == bs[i].addr && Aligned(n) && n < bs[i].len
      modifies this`mlength, this`bs
      ensures Valid() && bs == Splice(old(bs), i, i + 1, [Block(curr, old(bs)[i].len - n)])
      ensures mlength == old(mlength)[curr := old(bs)[i].len - n]
    {
      NodeSays(mnext, mlength, bs, i);
      NodeSays(mnext, mlength, bs, i + 1);
      CutCanon(bs, i, n);
      Distinct1(bs, i);
      hide Canon, Splice;
      ghost var length0 := mlength;
      ghost var mid := [Block(curr, bs[i].len - n)];
      mlength := mlength[curr := mlength[curr] - n];
      RelinkedLinks(mnext, length0, bs, i, i + 1, mid, mnext, mlength);
      bs := Splice(bs, i, i + 1, mid);
    }

    /** Scans the whole list for the last block that fits; `at` counts up to it, 0 for none. */
    method FindLast(n: int) returns (fits: int, fitsprev: int, ghost at: nat)
      requires Valid()
      ensures at == LastFit(bs, n) && (at == 0 <==> fits == NULL)
      ensures at > 0 ==> fits == bs[at - 1].addr && fitsprev == NodeBefore(bs, at - 1)
    {
      hide Canon, Linked, LastFit;
      LinkedHead(mnext, mlength, bs);
      var prev, curr := MEMLIST, mnext[MEMLIST];
      fits, fitsprev := NULL, NULL;
      ghost var i := 0;
      at := 0;
      while curr != NULL
        invariant i <= |bs| && prev == NodeBefore(bs, i) && curr == AddrOf(bs, i)
        invariant at <= i && (at > 0 ==> bs[at - 1].len >= n) && forall j :: at <= j < i ==> bs[j].len < n
        invariant at == 0 <==> fits == NULL
        invariant at > 0 ==> fits == bs[at - 1].addr && fitsprev == NodeBefore(bs, at - 1)
        decreases |bs| - i
      {
        OnList(bs, i);
        NodeSays(mnext, mlength, bs, i);
        NodeSays(mnext, mlength, bs, i + 1);
        Distinct1(bs, i);
        if mlength[curr] >= n {
          fits := curr;
          fitsprev := prev;
          at := i + 1;
        }
        prev := curr;
        curr := mnext[curr];
        i := i + 1;
      }
      NullAtEnd(bs, i);
      LastFitIs(bs, n, at);
    }

    method GetStk(nbytes: nat) returns (p: int)
      requires Valid() && nbytes < TWO32
      modifies this
      ensures Valid() && (bs, p) == HeapSpec.GetStk(old(bs), nbytes)
      ensures Counted(old(bs), old(mlength[MEMLIST]))
    {
      TakenBytes(bs, nbytes);
      hide Canon, Linked, Bytes, Round, Aligned, Splice, FirstFit, LastFit;
      LinkedHead(mnext, mlength, bs);
      if nbytes == 0 {
        return SYSERR;
      }
      var n: int := Round(nbytes);
      var fits, fitsprev;
      ghost var at;
      fits, fitsprev, at := FindLast(n);
      if fits == NULL {
        return SYSERR;
      }
      NodeSays(mnext, mlength, bs, at - 1);
      EndAbove(bs, at - 1);
      if n == mlength[fits] {
        Unlink(fitsprev, fits, at - 1);
      } else {
        Shorten(fits, n, at - 1);
        fits := fits + mlength[fits];
      }
      AddLength(-n);
      p := fits + n - 4;
    }

    /** Makes a block part of the one before, if it touches that, and otherwise links it in. */
    method Attach(prev: int, next: int, block: int, n: nat, ghost k: nat) returns (at: int)
      requires Valid() && k <= |bs| && prev == NodeBefore(bs, k) && next == AddrOf(bs, k)
      requires block > 0 && n > 0 && BetweenNeighbours(bs, k, Block(block, n))
      modifies this`mnext, this`mlength
      ensures at == Merged(bs, k, Block(block, n)).addr
      ensures Relinked(old(mnext), old(mlength), bs, MergeFrom(bs, k, Block(block, n)), k, [Block(at, block + n - at)],
                       mnext, mlength)
      ensures MEMLIST in mlength && mlength[MEMLIST] == old(mlength)[MEMLIST]
      ensures at in mlength && mlength[at] == block + n - at
    {
      ghost var next0, length0 := mnext, mlength;
      if k > 0 { AttachLeft(mnext, mlength, bs, k, n); }
      if k > 0 { Distinct1(bs, k - 1); LongBlock(bs, k - 1); }
      AttachNew(mnext, mlength, bs, k, Block(block, n));
      hide Canon, Linked, Relinked;
      at := block;
      if prev != MEMLIST && prev + mlength[prev] == block {
        mlength := mlength[prev := mlength[prev] + n];
        at := prev;
      } else {
        mnext := mnext[at := next];
        mlength := mlength[at := n];
        mnext := mnext[prev := at];
      }
    }

    /** Makes the block at place `k` part of the one linked in before it, if they touch. */
    method Swallow(at: int, next: int, ghost next0: map<int, int>, ghost length0: map<int, int>, ghost k: nat,
                   ghost b: Block)
      requires Canon(bs) && Linked(next0, length0, bs) && k <= |bs| && next == AddrOf(bs, k)
      requires Proper(b) && BetweenNeighbours(bs, k, b) && at == Merged(bs, k, b).addr
      requires Relinked(next0, length0, bs, MergeFrom(bs, k, b), k, [Block(at, End(b) - at)], mnext, mlength)
      requires at in mlength && mlength[at] == End(b) - at
      modifies this`mnext, this`mlength
      ensures Relinked(next0, length0, bs, MergeFrom(bs, k, b), MergeTo(bs, k, b), [Merged(bs, k, b)], mnext, mlength)
      ensures MEMLIST in old(mlength) ==> MEMLIST in mlength && mlength[MEMLIST] == old(mlength)[MEMLIST]
    {
      AttachedIs(bs, k, b);
      AlignedSum(b.addr, b.len);
      MergedProper(bs, k, b);
      assert at > 0;
      if k < |bs| { FarFromLeft(bs, k, b); }
      hide Canon, Aligned, Relinked, Linked, BetweenNeighbours, Merged, MergeFrom, MergeTo, TouchesLeft;
      if k < |bs| {
        SwallowNext(next0, length0, bs, MergeFrom(bs, k, b), k, Block(at, End(b) - at), mnext, mlength);
      }
      if at + mlength[at] == next {
        mlength := mlength[at := mlength[at] + mlength[next]];
        mnext := mnext[at := mnext[next]];
      }
    }

    /** Links a block in at place `k`, in one with its neighbours where it touches them. */
    method Insert(prev: int, next: int, block: int, n: nat, ghost k: nat)
      requires Valid() && k <= |bs| && prev == NodeBefore(bs, k) && next == AddrOf(bs, k)
      requires Proper(Block(block, n)) && BetweenNeighbours(bs, k, Block(block, n))
      modifies this`mnext, this`mlength, this`bs
      ensures Valid() && bs == Join(old(bs), k, Block(block, n)) && mlength[MEMLIST] == old(mlength)[MEMLIST]
    {
      ghost var next0, length0, b := mnext, mlength, Block(block, n);
      JoinCanon(bs, k, b);
      MergedPlaces(bs, k, b);
      hide Canon, Splice, Relinked, Linked, BetweenNeighbours, Merged, MergeFrom, MergeTo;
      var at := Attach(prev, next, block, n, k);
      Swallow(at, next, next0, length0, k, b);
      RelinkedLinks(next0, length0, bs, MergeFrom(bs, k, b), MergeTo(bs, k, b), [Merged(bs, k, b)], mnext, mlength);
      bs := Join(bs, k, b);
    }

    method FreeMem(blkaddr: int, nbytes: nat) returns (r: int)
      requires Valid() && nbytes < TWO32 && (InHeap(heap, blkaddr) ==> Sensible(blkaddr, nbytes))
      modifies this
      ensures Valid() && (bs, r) == HeapSpec.FreeMem(heap, old(bs), blkaddr, nbytes)
      ensures Counted(old(bs), old(mlength[MEMLIST]))
    {
      GivenBytes(heap, bs, blkaddr, nbytes);
      hide Canon, Linked, Bytes, Round, Aligned, Join, Below;
      LinkedHead(mnext, mlength, bs);
      if nbytes == 0 || blkaddr < heap.low || blkaddr > heap.high {
        return SYSERR;
      }
      var n := Round(nbytes);
      var prev, next;
      ghost var k;
      prev, next, k := FindPlace(blkaddr);
      if k > 0 { NodeSays(mnext, mlength, bs, k - 1); Distinct1(bs, k - 1); }
      if k < |bs| { Distinct1(bs, k); }
      if (prev != MEMLIST && blkaddr < prev + mlength[prev]) || (next != NULL && blkaddr + n > next) {
        return SYSERR;
      }
      AddLength(n);
      Insert(prev, next, blkaddr, n, k);
      r := OK;
    }

    /** The nodes between which a block at `block` belongs. */
    method FindPlace(block: int) returns (prev: int, next: int, ghost k: nat)
      requires Valid()
      ensures k == Below(bs, block) && prev == NodeBefore(bs, k) && next == AddrOf(bs, k)
    {
      hide Canon, Linked, Below;
      LinkedHead(mnext, mlength, bs);
      prev, next := MEMLIST, mnext[MEMLIST];
      k := 0;
      while next != NULL && next < block
        invariant k <= |bs| && prev == NodeBefore(bs, k) && next == AddrOf(bs, k)
        invariant forall j :: 0 <= j < k ==> bs[j].addr < block
        decreases |bs| - k
      {
        OnList(bs, k);
        NodeSays(mnext, mlength, bs, k);
        NodeSays(mnext, mlength, bs, k + 1);
        prev := next;
        next := mnext[next];
        k := k + 1;
      }
      if next == NULL { NullAtEnd(bs, k); }
      BelowIs(bs, block, k);
    }

    /** The macro for stacks: the block whose highest word is at `p`. */
    method FreeStk(p: int, len: nat) returns (r: int)
      requires Valid() && len < TWO32 && (InHeap(heap, p - Round(len) + 4) ==> Sensible(p - Round(len) + 4, Round(len)))
      modifies this
      ensures Valid() && (bs, r) == HeapSpec.FreeStk(heap, old(bs), p, len)
      ensures Counted(old(bs), old(mlength[MEMLIST]))
    {
      RoundBelow(len);
      hide Canon, Linked, Bytes, Round, Aligned, HeapSpec.FreeMem, Sensible, InHeap;
      r := FreeMem(p - Round(len) + 4, Round(len));
    }
  }

  lemma LinkedHead(mnext: map<int, int>, mlength: map<int, int>, bs: seq<Block>)
    requires Linked(mnext, mlength, bs)
    ensures MEMLIST in mnext && mnext[MEMLIST] == AddrOf(bs, 0) && MEMLIST in mlength
  {
  }

  lemma LongBlock(bs: seq<Block>, i: nat)
    requires Canon(bs) && i < |bs|
    ensures bs[i].len > 0 && End(bs[i]) < TWO32
    ensures i + 1 < |bs| ==> End(bs[i]) < bs[i + 1].addr
  {
  }

  /** The block behind the place of insertion is none of those touched on the left. */
  lemma FarFromLeft(bs: seq<Block>, k: nat, b: Block)
    requires Canon(bs) && k < |bs| && b.addr > 0 && b.len > 0 && BetweenNeighbours(bs, k, b)
    ensures bs[k].addr != Merged(bs, k, b).addr && bs[k].addr > 0
    ensures bs[k].addr != NodeBefore(bs, MergeFrom(bs, k, b))
    ensures Merged(bs, k, b).addr != NodeBefore(bs, MergeFrom(bs, k, b))
    ensures Merged(bs, k, b).addr > 0
  {
    Distinct1(bs, k);
    if k > 0 { Distinct1(bs, k - 1); Distinct(bs, k - 1, k); LongBlock(bs, k - 1); }
    if k > 1 { Distinct(bs, k - 2, k - 1); Distinct(bs, k - 2, k); }
    hide Canon;
  }

  /** A block linked in before place `k` that also takes over the block there. */
  lemma SwallowNext(mnext: map<int, int>, mlength: map<int, int>, bs: seq<Block>, i: nat, k: nat, mid: Block,
                    mnext': map<int, int>, mlength': map<int, int>)
    requires Linked(mnext, mlength, bs) && i <= k < |bs| && Relinked(mnext, mlength, bs, i, k, [mid], mnext', mlength')
    requires bs[k].addr != mid.addr && bs[k].addr != NodeBefore(bs, i) && bs[k].addr > 0 && mid.addr > 0
    requires mid.addr != NodeBefore(bs, i)
    ensures mid.addr in mlength' && mlength'[mid.addr] == mid.len
    ensures bs[k].addr in mnext' && bs[k].addr in mlength'
    ensures Relinked(mnext, mlength, bs, i, k + 1, [Block(mid.addr, mid.len + bs[k].len)],
                     mnext'[mid.addr := mnext'[bs[k].addr]],
                     mlength'[mid.addr := mlength'[mid.addr] + mlength'[bs[k].addr]])
  {
    NodeSays(mnext, mlength, bs, k);
    NodeSays(mnext, mlength, bs, k + 1);
    hide Linked;
    assert Same(mnext, mnext', bs[k].addr) && Same(mlength, mlength', bs[k].addr);
    var m := mnext'[mid.addr := mnext'[bs[k].addr]];
    var l := mlength'[mid.addr := mlength'[mid.addr] + mlength'[bs[k].addr]];
    forall a | a != mid.addr
      ensures Same(mnext', m, a) && Same(mlength', l, a)
    {
    }
    forall a | a != NodeBefore(bs, i) && a != mid.addr
      ensures Same(mnext, m, a)
    {
      assert Same(mnext, mnext', a) && Same(mnext', m, a);
    }
    forall a | a != MEMLIST && a != mid.addr
      ensures Same(mlength, l, a)
    {
      assert Same(mlength, mlength', a) && Same(mlength', l, a);
    }
  }

  lemma MergedPlaces(bs: seq<Block>, k: nat, b: Block)
    requires k <= |bs|
    ensures MergeFrom(bs, k, b) <= MergeTo(bs, k, b) <= |bs|
    ensures Join(bs, k, b) == Splice(bs, MergeFrom(bs, k, b), MergeTo(bs, k, b), [Merged(bs, k, b)])
  {
  }

  /** What a block joined on the left becomes, joined on the right too or not. */
  lemma AttachedIs(bs: seq<Block>, k: nat, b: Block)
    requires k <= |bs|
    ensures var at := Merged(bs, k, b).addr;
            Merged(bs, k, b) == Block(at, End(b) - at + if TouchesRight(bs, k, b) then bs[k].len else 0)
    ensures MergeTo(bs, k, b) == if TouchesRight(bs, k, b) then k + 1 else k
    ensures MergeFrom(bs, k, b) <= k
  {
  }

  /** Block `i` unlinked and the rest of it, from its n-th byte on, linked in. */
  lemma SplitLinks(mnext: map<int, int>, mlength: map<int, int>, bs: seq<Block>, i: nat, n: nat)
    requires Linked(mnext, mlength, bs) && Canon(bs) && i < |bs| && n < bs[i].len
    ensures var prev, curr := NodeBefore(bs, i), bs[i].addr;
            var next1 := mnext[prev := curr + n];
            && curr in next1 && curr in mlength && mlength[curr] == bs[i].len
            && MEMLIST in mlength && curr + n != MEMLIST
            && Relinked(mnext, mlength, bs, i, i + 1, [Block(curr + n, bs[i].len - n)],
                        next1[curr + n := next1[curr]], mlength[curr + n := mlength[curr] - n])
  {
    NodeSays(mnext, mlength, bs, i);
    NodeSays(mnext, mlength, bs, i + 1);
    LinkedHead(mnext, mlength, bs);
    Distinct1(bs, i);
    if i > 0 { Distinct1(bs, i - 1); LongBlock(bs, i - 1); }
    hide Canon, Linked;
    var prev, curr := NodeBefore(bs, i), bs[i].addr;
    var next1 := mnext[prev := curr + n];
    var m, l := next1[curr + n := next1[curr]], mlength[curr + n := mlength[curr] - n];
    forall a | a != prev && a != curr + n
      ensures Same(mnext, m, a)
    {
    }
    forall a | a != curr + n
      ensures Same(mlength, l, a)
    {
    }
  }

  /** The block before place `k` made `n` bytes longer. */
  lemma AttachLeft(mnext: map<int, int>, mlength: map<int, int>, bs: seq<Block>, k: nat, n: nat)
    requires Linked(mnext, mlength, bs) && Canon(bs) && 0 < k <= |bs|
    ensures var prev := bs[k - 1].addr;
            && prev in mlength && mlength[prev] == bs[k - 1].len && prev != MEMLIST && MEMLIST in mlength
            && Relinked(mnext, mlength, bs, k - 1, k, [Block(prev, bs[k - 1].len + n)],
                        mnext, mlength[prev := mlength[prev] + n])
  {
    NodeSays(mnext, mlength, bs, k - 1);
    NodeSays(mnext, mlength, bs, k);
    Distinct1(bs, k - 1);
    hide Canon, Linked;
    var prev := bs[k - 1].addr;
    var l := mlength[prev := mlength[prev] + n];
    forall a | a != prev
      ensures Same(mlength, l, a)
    {
    }
  }

  /** A block of its own linked in at place `k`. */
  lemma AttachNew(mnext: map<int, int>, mlength: map<int, int>, bs: seq<Block>, k: nat, b: Block)
    requires Linked(mnext, mlength, bs) && Canon(bs) && k <= |bs| && b.addr > 0 && BetweenNeighbours(bs, k, b)
    ensures MEMLIST in mlength
    ensures var prev := NodeBefore(bs, k);
            && prev != b.addr && (k == 0 <==> prev == MEMLIST)
            && Relinked(mnext, mlength, bs, k, k, [b],
                        mnext[b.addr := AddrOf(bs, k)][prev := b.addr], mlength[b.addr := b.len])
  {
    NodeSays(mnext, mlength, bs, k);
    if k > 0 { Distinct1(bs, k - 1); LongBlock(bs, k - 1); }
    LinkedHead(mnext, mlength, bs);
    hide Canon, Linked;
    var prev := NodeBefore(bs, k);
    var m := mnext[b.addr := AddrOf(bs, k)][prev := b.addr];
    forall a | a != prev && a != b.addr
      ensures Same(mnext, m, a)
    {
    }
    var l := mlength[b.addr := b.len];
    forall a | a != b.addr
      ensures Same(mlength, l, a)
    {
    }
  }

  lemma RoundBelow(n: nat)
    requires n < TWO32
    ensures Round(n) < TWO32
  {
  }

  lemma EndAbove(bs: seq<Block>, i: nat)
    requires Canon(bs) && i < |bs|
    ensures End(bs[i]) >= 8 && bs[i].addr > 0
  {
    AtLeast8(bs[i]);
  }

  lemma OnList(bs: seq<Block>, i: nat)
    requires i <= |bs| && AddrOf(bs, i) != NULL
    ensures i < |bs| && AddrOf(bs, i) == bs[i].addr
  {
  }

  lemma NullAtEnd(bs: seq<Block>, i: nat)
    requires Canon(bs) && i <= |bs| && AddrOf(bs, i) == NULL
    ensures i == |bs|
  {
  }

  lemma AlignedLength(bs: seq<Block>, i: nat)
    requires Canon(bs) && i < |bs|
    ensures Aligned(bs[i].len) && bs[i].len > 0
  {
  }
}
