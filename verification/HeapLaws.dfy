/** What allocation and release promise. */
module HeapLaws {
  import opened Codes
  import opened HeapSpec

  /** `[from, to)` is free no longer; nothing else changed. */
  ghost predicate Takes(bs: seq<Block>, bs': seq<Block>, from: int, to: int)
  {
    && Canon(bs')
    && (forall a :: from <= a < to ==> In(bs, a))
    && forall a :: In(bs', a) <==> In(bs, a) && !(from <= a < to)
  }

  ghost predicate Gives(bs: seq<Block>, bs': seq<Block>, from: int, to: int)
  {
    Canon(bs') && forall a :: In(bs', a) <==> In(bs, a) || from <= a < to
  }

  /** There are `r` bytes free in a row, from `x` on. */
  ghost predicate RunAt(bs: seq<Block>, x: int, r: int)
  {
    forall a :: x <= a < x + r ==> In(bs, a)
  }

  lemma RoundSays(n: nat)
    requires 0 < n <= TWO32 - 8
    ensures Aligned(Round(n)) && 0 < n <= Round(n) < n + 8
  {
  }

  /** The first `r` bytes of a block taken away. */
  lemma FrontTaken(bs: seq<Block>, i: nat, r: int)
    requires Canon(bs) && i < |bs| && Aligned(r) && 0 < r <= bs[i].len
    ensures var x := bs[i].addr;
            && RunAt(bs, x, r) && x > 0 && Proper(Block(x, r))
            && Takes(bs, Splice(bs, i, i + 1, if bs[i].len == r then [] else [Block(x + r, bs[i].len - r)]), x, x + r)
  {
    assert Proper(bs[i]);
    AlignedSum(bs[i].addr, r);
    hide Aligned, Canon, Splice, In;
    TakenWhole(bs, i, bs[i].addr, r);
    Cut(bs, i, bs[i].addr, bs[i].addr + r, if bs[i].len == r then [] else [Block(bs[i].addr + r, bs[i].len - r)]);
  }

  /** The last `r` bytes of a block taken away. */
  lemma EndTaken(bs: seq<Block>, i: nat, r: int)
    requires Canon(bs) && i < |bs| && Aligned(r) && 0 < r <= bs[i].len
    ensures var x := End(bs[i]) - r;
            && RunAt(bs, x, r) && x > 3 && Proper(Block(x, r))
            && Takes(bs, Splice(bs, i, i + 1, if bs[i].len == r then [] else [bs[i].(len := bs[i].len - r)]), x, x + r)
  {
    assert Proper(bs[i]);
    AtLeast8(bs[i]);
    AlignedSum(bs[i].addr, bs[i].len);
    AlignedSum(End(bs[i]), r);
    hide Aligned, Canon, Splice, In;
    TakenWhole(bs, i, End(bs[i]) - r, r);
    Cut(bs, i, End(bs[i]) - r, End(bs[i]),
        if bs[i].len == r then [] else [Block(bs[i].addr, End(bs[i]) - r - bs[i].addr)]);
  }

  lemma TakenWhole(bs: seq<Block>, i: nat, x: int, r: int)
    requires Canon(bs) && i < |bs| && bs[i].addr <= x && x + r <= End(bs[i])
    ensures RunAt(bs, x, r)
  {
    forall a | x <= a < x + r
      ensures In(bs, a)
    {
      InAt(bs, i, a);
    }
  }

  lemma NoRun(bs: seq<Block>, r: int)
    requires Canon(bs) && r > 0 && forall j :: 0 <= j < |bs| ==> bs[j].len < r
    ensures forall x :: !RunAt(bs, x, r)
  {
    forall x
      ensures !RunAt(bs, x, r)
    {
      if RunAt(bs, x, r) {
        var i := RunInBlock(bs, x, r);
        assert false;
      }
    }
  }

  /** A request that does not wrap takes exactly its rounded-up bytes, from the front of the first block that is
      large enough; it fails just when there are not so many free bytes in a row. */
  lemma GetMemTakes(bs: seq<Block>, n: nat)
    requires Canon(bs) && 0 < n <= TWO32 - 8
    ensures var (bs', p) := GetMem(bs, n);
            && (p == SYSERR <==> forall x :: !RunAt(bs, x, Round(n)))
            && (p == SYSERR ==> bs' == bs)
            && (p != SYSERR ==> Takes(bs, bs', p, p + Round(n)) && Proper(Block(p, Round(n))))
  {
    hide Round, Canon, In, RunAt, Takes, Proper, Splice;
    RoundSays(n);
    var i := FirstFit(bs, Round(n));
    if i < |bs| {
      FrontTaken(bs, i, Round(n));
    } else {
      NoRun(bs, Round(n));
    }
  }

  /** Likewise from the end of the last block that is large enough; the address returned is that of the last
      word. */
  lemma GetStkTakes(bs: seq<Block>, n: nat)
    requires Canon(bs) && 0 < n <= TWO32 - 8
    ensures var (bs', p) := GetStk(bs, n);
            && (p == SYSERR <==> forall x :: !RunAt(bs, x, Round(n)))
            && (p == SYSERR ==> bs' == bs)
            && (p != SYSERR ==> Takes(bs, bs', p + 4 - Round(n), p + 4) && Proper(Block(p + 4 - Round(n), Round(n))))
  {
    hide Round, Canon, In, RunAt, Takes, Proper, Splice;
    RoundSays(n);
    var i := LastFit(bs, Round(n)) - 1;
    if i >= 0 {
      EndTaken(bs, i, Round(n));
    } else {
      NoRun(bs, Round(n));
    }
  }

  lemma Addresses(bs: seq<Block>, n: nat)
    requires Canon(bs) && n > 0
    ensures var lo, hi := FirstFit(bs, Round(n)), LastFit(bs, Round(n)) - 1;
            && GetMem(bs, n).1 == (if lo < |bs| then bs[lo].addr else SYSERR)
            && GetStk(bs, n).1 == (if hi >= 0 then End(bs[hi]) - 4 else SYSERR)
            && (lo < |bs| ==> bs[lo].addr > 0) && (hi >= 0 ==> End(bs[hi]) >= 8)
  {
    hide Round, Aligned, Splice, FirstFit, LastFit;
    var lo, hi := FirstFit(bs, Round(n)), LastFit(bs, Round(n)) - 1;
    if lo < |bs| { AtLeast8(bs[lo]); }
    if hi >= 0 { AtLeast8(bs[hi]); }
    hide Canon, Proper;
  }

  /** First fit from below, last fit from above: no run of free bytes that would do starts lower, or ends higher. */
  lemma LowestAndHighest(bs: seq<Block>, n: nat, x: int)
    requires Canon(bs) && 0 < n <= TWO32 - 8 && RunAt(bs, x, Round(n))
    ensures GetMem(bs, n).1 != SYSERR && GetMem(bs, n).1 <= x
    ensures GetStk(bs, n).1 != SYSERR && x + Round(n) <= GetStk(bs, n).1 + 4
  {
    hide Round, GetMem, GetStk, Aligned, Canon, In;
    RoundSays(n);
    Addresses(bs, n);
    var i := RunInBlock(bs, x, Round(n));
    FitsAround(bs, Round(n), i);
  }

  lemma FitsAround(bs: seq<Block>, r: int, i: nat)
    requires Canon(bs) && i < |bs| && bs[i].len >= r
    ensures var lo, hi := FirstFit(bs, r), LastFit(bs, r) - 1;
            lo <= i <= hi && bs[lo].addr <= bs[i].addr && End(bs[i]) <= End(bs[hi])
  {
    hide FirstFit, LastFit, Aligned;
    var lo, hi := FirstFit(bs, r), LastFit(bs, r) - 1;
    Ordered(bs, lo, i);
    Ordered(bs, i, hi);
  }

  lemma Ordered(bs: seq<Block>, i: nat, j: nat)
    requires Canon(bs) && i <= j < |bs|
    ensures bs[i].addr <= bs[j].addr && End(bs[i]) <= End(bs[j])
  {
    hide Aligned;
    assert Proper(bs[i]) && Proper(bs[j]);
    if i < j { assert End(bs[i]) < bs[j].addr; }
  }

  lemma AtLeast8(b: Block)
    requires Proper(b)
    ensures b.addr >= 8 && b.len >= 8
  {
    AlignedSum(b.addr, b.len);
    AlignedSum(b.len, b.addr);
  }

  /** A request within 8 bytes of 2^32 wraps to nothing: it returns a free block that stays free. */
  lemma WrappedRequest(bs: seq<Block>, n: nat)
    requires Canon(bs) && TWO32 - 8 < n < TWO32
    ensures GetMem(bs, n) == (bs, if bs == [] then SYSERR else bs[0].addr)
    ensures GetStk(bs, n) == (bs, if bs == [] then SYSERR else End(bs[|bs| - 1]) - 4)
    ensures bs != [] ==> In(bs, bs[0].addr) && In(bs, End(bs[|bs| - 1]) - 1)
  {
    if bs != [] {
      var k := |bs| - 1;
      InAt(bs, 0, bs[0].addr);
      InAt(bs, k, End(bs[k]) - 1);
      assert Splice(bs, 0, 1, [bs[0]]) == bs;
      assert Splice(bs, k, k + 1, [bs[k]]) == bs;
      assert bs[k].(len := bs[k].len) == bs[k];
    }
  }

  /** All of these bytes were free, and none of them is any longer. */
  ghost predicate Serves(bs: seq<Block>, bs': seq<Block>, from: int, to: int)
  {
    forall a :: from <= a < to ==> In(bs, a) && !In(bs', a)
  }

  /** What an allocation returns is memory of the size asked for, no longer free, if and only if the request does not
      wrap when it is rounded up. */
  lemma ServedUnlessWrapped(bs: seq<Block>, n: nat)
    requires Canon(bs) && 0 < n < TWO32
    ensures var (bs', p) := GetMem(bs, n); p != SYSERR ==> (Serves(bs, bs', p, p + n) <==> n <= TWO32 - 8)
    ensures var (bs', p) := GetStk(bs, n); p != SYSERR ==> (Serves(bs, bs', p + 4 - n, p + 4) <==> n <= TWO32 - 8)
  {
    hide Canon, In, GetMem, GetStk;
    if n <= TWO32 - 8 {
      GetMemTakes(bs, n);
      GetStkTakes(bs, n);
      RoundSays(n);
    } else {
      WrappedRequest(bs, n);
      assert bs == [] || !Serves(bs, bs, bs[0].addr, bs[0].addr + n);
    }
  }

  // --- release ---

  /** Nothing of the block is free. */
  ghost predicate Clear(bs: seq<Block>, b: Block)
  {
    forall a :: Within(b, a) ==> !In(bs, a)
  }

  /** The block overlaps neither of the two it would stand between. */
  predicate BetweenNeighbours(bs: seq<Block>, k: nat, b: Block)
    requires k <= |bs|
  {
    (k > 0 ==> End(bs[k - 1]) <= b.addr) && (k < |bs| ==> End(b) <= bs[k].addr)
  }

  lemma BelowPlace(bs: seq<Block>, b: Block)
    requires Canon(bs) && Proper(b)
    ensures var k := Below(bs, b.addr);
            Clear(bs, b) <==> BetweenNeighbours(bs, k, b)
  {
    var k := Below(bs, b.addr);
    if k > 0 && End(bs[k - 1]) > b.addr {
      InAt(bs, k - 1, b.addr);
      assert Within(b, b.addr);
    } else if k < |bs| && End(b) > bs[k].addr {
      InAt(bs, k, bs[k].addr);
      assert Within(b, bs[k].addr);
    } else {
      forall a | Within(b, a)
        ensures !In(bs, a)
      {
        Between(bs, k, b, a);
      }
    }
  }

  lemma Between(bs: seq<Block>, k: nat, b: Block, a: int)
    requires Canon(bs) && k <= |bs| && Within(b, a) && BetweenNeighbours(bs, k, b)
    ensures !In(bs, a)
  {
    forall j | 0 <= j < |bs|
      ensures !Within(bs[j], a)
    {
      if j < k - 1 { assert End(bs[j]) < bs[k - 1].addr; }
      if j > k { assert End(bs[k]) < bs[j].addr; }
    }
  }

  function LeftPart(bs: seq<Block>, k: nat, b: Block): seq<Block>
    requires k <= |bs|
  {
    if TouchesLeft(bs, k, b) then [bs[k - 1]] else []
  }

  function RightPart(bs: seq<Block>, k: nat, b: Block): seq<Block>
    requires k <= |bs|
  {
    if TouchesRight(bs, k, b) then [bs[k]] else []
  }

  lemma MergedAway(bs: seq<Block>, k: nat, b: Block)
    requires k <= |bs|
    ensures bs[MergeFrom(bs, k, b)..MergeTo(bs, k, b)] == LeftPart(bs, k, b) + RightPart(bs, k, b)
  {
  }

  lemma Middle(bs: seq<Block>, k: nat, b: Block, a: int)
    requires k <= |bs|
    ensures In(bs[MergeFrom(bs, k, b)..MergeTo(bs, k, b)], a) <==>
            (TouchesLeft(bs, k, b) && Within(bs[k - 1], a)) || (TouchesRight(bs, k, b) && Within(bs[k], a))
  {
    MergedAway(bs, k, b);
    InConcat(LeftPart(bs, k, b), RightPart(bs, k, b), a);
    if TouchesLeft(bs, k, b) { InOne(bs[k - 1], a); }
    if TouchesRight(bs, k, b) { InOne(bs[k], a); }
  }

  lemma JoinIn(bs: seq<Block>, k: nat, b: Block, a: int)
    requires Canon(bs) && b.len > 0 && k <= |bs| && BetweenNeighbours(bs, k, b)
    ensures In(Join(bs, k, b), a) <==> In(bs, a) || b.addr <= a < End(b)
  {
    MergedWithin(bs, k, b, a);
    hide Splice, In, Canon, MergeFrom, MergeTo, Merged, Within;
    SpliceIn(bs, MergeFrom(bs, k, b), MergeTo(bs, k, b), [Merged(bs, k, b)], a);
    InOne(Merged(bs, k, b), a);
    Middle(bs, k, b, a);
  }

  lemma MergedWithin(bs: seq<Block>, k: nat, b: Block, a: int)
    requires Canon(bs) && b.len > 0 && k <= |bs| && BetweenNeighbours(bs, k, b)
    ensures Within(Merged(bs, k, b), a) <==>
            || (TouchesLeft(bs, k, b) && Within(bs[k - 1], a))
            || b.addr <= a < End(b)
            || (TouchesRight(bs, k, b) && Within(bs[k], a))
  {
    if k > 0 { assert Proper(bs[k - 1]); }
    if k < |bs| { assert Proper(bs[k]); }
    hide Canon;
  }

  lemma JoinCanon(bs: seq<Block>, k: nat, b: Block)
    requires Canon(bs) && Proper(b) && k <= |bs| && BetweenNeighbours(bs, k, b)
    ensures Canon(Join(bs, k, b))
  {
    Neighbours(bs, k, b);
    SpliceCanon(bs, MergeFrom(bs, k, b), MergeTo(bs, k, b), [Merged(bs, k, b)]);
  }

  /** A block that is clear of the free ones is joined in: it becomes free, and the list stays as it should be. */
  lemma JoinGives(bs: seq<Block>, b: Block)
    requires Canon(bs) && Proper(b) && Clear(bs, b)
    ensures Gives(bs, Join(bs, Below(bs, b.addr), b), b.addr, End(b))
  {
    var k := Below(bs, b.addr);
    BelowPlace(bs, b);
    hide Canon, In, Join, Clear;
    JoinCanon(bs, k, b);
    forall a
      ensures In(Join(bs, k, b), a) <==> In(bs, a) || b.addr <= a < End(b)
    {
      JoinIn(bs, k, b, a);
    }
  }

  lemma Neighbours(bs: seq<Block>, k: nat, b: Block)
    requires Canon(bs) && Proper(b) && k <= |bs| && BetweenNeighbours(bs, k, b)
    ensures Fits(bs, MergeFrom(bs, k, b), MergeTo(bs, k, b), [Merged(bs, k, b)])
  {
    if k > 1 { assert End(bs[k - 2]) < bs[k - 1].addr; }
    if 0 <= k < |bs| - 1 { assert End(bs[k]) < bs[k + 1].addr; }
    MergedProper(bs, k, b);
    hide Proper;
  }

  lemma MergedProper(bs: seq<Block>, k: nat, b: Block)
    requires Canon(bs) && Proper(b) && k <= |bs|
    ensures Proper(Merged(bs, k, b))
  {
    if k > 0 { assert Proper(bs[k - 1]); AlignedSum(b.len, bs[k - 1].len); }
    if k < |bs| { assert Proper(bs[k]); AlignedSum(b.len, bs[k].len); }
    if 0 < k < |bs| { AlignedSum(b.len + bs[k - 1].len, bs[k].len); }
    hide Aligned, Canon;
  }

  predicate InHeap(h: Heap, a: int) { h.low <= a <= h.high }

  /** A block that a caller may have: aligned, and within the 32-bit addresses. */
  predicate Sensible(a: int, n: nat)
  {
    n > 0 ==> n <= TWO32 - 8 && Proper(Block(a, Round(n)))
  }

  /** Giving back a block of the heap works exactly when none of it is free, and makes it free. */
  lemma FreeMemGives(h: Heap, bs: seq<Block>, a: int, n: nat)
    requires Canon(bs) && (InHeap(h, a) ==> Sensible(a, n))
    ensures var (bs', r) := FreeMem(h, bs, a, n);
            && (r == OK <==> n > 0 && InHeap(h, a) && Clear(bs, Block(a, Round(n))))
            && (r == SYSERR ==> bs' == bs) && (r == OK || r == SYSERR)
            && (r == OK ==> Gives(bs, bs', a, a + Round(n)))
  {
    if n > 0 && InHeap(h, a) {
      var b := Block(a, Round(n));
      BelowPlace(bs, b);
      hide Round, In, Canon, Join, Clear, Aligned;
      if BetweenNeighbours(bs, Below(bs, a), b) {
        JoinGives(bs, b);
      }
    }
  }

  /** Giving back what was taken leads back to the very same list. */
  lemma FreeMemUndoesGetMem(h: Heap, bs: seq<Block>, n: nat)
    requires Canon(bs) && 0 < n <= TWO32 - 8 && GetMem(bs, n).1 != SYSERR && InHeap(h, GetMem(bs, n).1)
    ensures FreeMem(h, GetMem(bs, n).0, GetMem(bs, n).1, n) == (bs, OK)
  {
    GetMemTakes(bs, n);
    var (bs1, p) := GetMem(bs, n);
    hide GetMem, Canon, In, FreeMem, Round, Proper;
    FreeMemGives(h, bs1, p, n);
    Unique(FreeMem(h, bs1, p, n).0, bs);
  }

  lemma FreeStkUndoesGetStk(h: Heap, bs: seq<Block>, n: nat)
    requires Canon(bs) && 0 < n <= TWO32 - 8 && GetStk(bs, n).1 != SYSERR && InHeap(h, GetStk(bs, n).1 + 4 - Round(n))
    ensures FreeStk(h, GetStk(bs, n).0, GetStk(bs, n).1, n) == (bs, OK)
  {
    hide GetStk, Canon, In, FreeMem, Round, Proper;
    GetStkTakes(bs, n);
    var (bs1, p) := GetStk(bs, n);
    RoundTwice(n);
    FreeMemGives(h, bs1, p - Round(n) + 4, Round(n));
    Unique(FreeMem(h, bs1, p - Round(n) + 4, Round(n)).0, bs);
  }

  lemma RoundTwice(n: nat)
    requires 0 < n <= TWO32 - 8
    ensures 0 < Round(n) <= TWO32 - 8 && Round(Round(n)) == Round(n)
  {
  }
}
