/** The list of free memory as a sequence of blocks, and allocation and release as functions on it. */
module HeapSpec {
  import opened Codes

  datatype Block = Block(addr: int, len: int)

  predicate Aligned(x: int) { x % 8 == 0 }

  lemma AlignedSum(x: int, y: int)
    requires Aligned(x) && Aligned(y)
    ensures Aligned(x + y) && Aligned(x - y)
    ensures x > 0 ==> x >= 8
  {
  }

  /** A request rounded up to whole memory blocks, in 32-bit arithmetic. */
  function Round(n: nat): (r: nat)
    ensures Aligned(r)
    ensures n <= TWO32 - 8 ==> n <= r < n + 8
    ensures TWO32 - 8 < n < TWO32 ==> r == 0
  {
    (n + 7) % TWO32 / 8 * 8
  }

  function End(b: Block): int { b.addr + b.len }

  predicate Within(b: Block, a: int) { b.addr <= a < End(b) }

  /** Address `a` is free. */
  ghost predicate In(bs: seq<Block>, a: int)
  {
    exists i :: 0 <= i < |bs| && Within(bs[i], a)
  }

  predicate Proper(b: Block)
  {
    b.addr > 0 && b.len > 0 && Aligned(b.addr) && Aligned(b.len) && End(b) < TWO32
  }

  /** In order of addresses, apart from each other, and as large as they can be: no two adjacent. */
  ghost predicate Canon(bs: seq<Block>)
  {
    && (forall i :: 0 <= i < |bs| ==> Proper(bs[i]))
    && forall i, j :: 0 <= i < j < |bs| ==> End(bs[i]) < bs[j].addr
  }

  /** The first block of at least `n` bytes. */
  function FirstFit(bs: seq<Block>, n: int): (i: nat)
    ensures i <= |bs|
    ensures i < |bs| ==> bs[i].len >= n
    ensures forall j :: 0 <= j < i ==> bs[j].len < n
  {
    if bs == [] || bs[0].len >= n then 0 else 1 + FirstFit(bs[1..], n)
  }

  /** One more than the place of the last block of at least `n` bytes; 0 if there is none. */
  function LastFit(bs: seq<Block>, n: int): (i: nat)
    ensures i <= |bs|
    ensures i > 0 ==> bs[i - 1].len >= n
    ensures forall j :: i <= j < |bs| ==> bs[j].len < n
  {
    if bs == [] || bs[|bs| - 1].len >= n then |bs| else LastFit(bs[..|bs| - 1], n)
  }

  /** Blocks `i` to `j` of a list replaced. */
  function Splice(bs: seq<Block>, i: nat, j: nat, mid: seq<Block>): (r: seq<Block>)
    requires i <= j <= |bs|
    ensures |r| == |bs| - (j - i) + |mid|
  {
    bs[..i] + mid + bs[j..]
  }

  /** Takes the lowest fitting bytes: from the front of the first block that is large enough. */
  function GetMem(bs: seq<Block>, n: nat): (seq<Block>, int)
  {
    var r := Round(n);
    var i := FirstFit(bs, r);
    if n == 0 || i == |bs| then (bs, SYSERR)
    else if bs[i].len == r then (Splice(bs, i, i + 1, []), bs[i].addr)
    else (Splice(bs, i, i + 1, [Block(bs[i].addr + r, bs[i].len - r)]), bs[i].addr)
  }

  /** Takes the highest fitting bytes, from the end of the last block that is large enough, and returns the
      address of their highest word. */
  function GetStk(bs: seq<Block>, n: nat): (seq<Block>, int)
  {
    var r := Round(n);
    var i := LastFit(bs, r) - 1;
    if n == 0 || i < 0 then (bs, SYSERR)
    else if bs[i].len == r then (Splice(bs, i, i + 1, []), End(bs[i]) - 4)
    else (Splice(bs, i, i + 1, [bs[i].(len := bs[i].len - r)]), End(bs[i]) - 4)
  }

  /** How many blocks start below address `a`. */
  function Below(bs: seq<Block>, a: int): (k: nat)
    ensures k <= |bs|
    ensures forall j :: 0 <= j < k ==> bs[j].addr < a
    ensures k < |bs| ==> bs[k].addr >= a
  {
    if bs == [] || bs[0].addr >= a then 0 else 1 + Below(bs[1..], a)
  }

  predicate TouchesLeft(bs: seq<Block>, k: nat, b: Block)
    requires k <= |bs|
  {
    k > 0 && End(bs[k - 1]) == b.addr
  }

  predicate TouchesRight(bs: seq<Block>, k: nat, b: Block)
    requires k <= |bs|
  {
    k < |bs| && End(b) == bs[k].addr
  }

  /** The first of the blocks that a block at place `k` is merged with, and the one behind the last. */
  function MergeFrom(bs: seq<Block>, k: nat, b: Block): (i: nat)
    requires k <= |bs|
    ensures i <= k
  {
    if TouchesLeft(bs, k, b) then k - 1 else k
  }

  function MergeTo(bs: seq<Block>, k: nat, b: Block): (j: nat)
    requires k <= |bs|
    ensures k <= j <= |bs|
  {
    if TouchesRight(bs, k, b) then k + 1 else k
  }

  function Merged(bs: seq<Block>, k: nat, b: Block): Block
    requires k <= |bs|
  {
    var from := if TouchesLeft(bs, k, b) then bs[k - 1].addr else b.addr;
    var to := if TouchesRight(bs, k, b) then End(bs[k]) else End(b);
    Block(from, to - from)
  }

  /** A block put between those below and those above it, joined to its neighbours where they touch. */
  function Join(bs: seq<Block>, k: nat, b: Block): seq<Block>
    requires k <= |bs|
  {
    Splice(bs, MergeFrom(bs, k, b), MergeTo(bs, k, b), [Merged(bs, k, b)])
  }

  datatype Heap = Heap(low: int, high: int)

  /** Gives `n` bytes at `a` back, unless they overlap what is free; `a` must lie in the heap. */
  function FreeMem(h: Heap, bs: seq<Block>, a: int, n: nat): (seq<Block>, int)
  {
    if n == 0 || a < h.low || a > h.high then (bs, SYSERR)
    else
      var b := Block(a, Round(n));
      var k := Below(bs, a);
      if (k > 0 && a < End(bs[k - 1])) || (k < |bs| && End(b) > bs[k].addr) then (bs, SYSERR)
      else (Join(bs, k, b), OK)
  }

  /** The stack of `n` bytes whose highest word is at `p`. */
  function FreeStk(h: Heap, bs: seq<Block>, p: int, n: nat): (seq<Block>, int)
  {
    FreeMem(h, bs, p - Round(n) + 4, Round(n))
  }

  // --- a list is determined by what is free ---

  lemma InAt(bs: seq<Block>, i: nat, a: int)
    requires i < |bs| && Within(bs[i], a)
    ensures In(bs, a)
  {
  }

  lemma InFirst(bs: seq<Block>, a: int)
    requires bs != []
    ensures Within(bs[0], a) ==> In(bs, a)
  {
  }

  lemma InCons(bs: seq<Block>, a: int)
    requires bs != []
    ensures In(bs, a) <==> Within(bs[0], a) || In(bs[1..], a)
  {
    if i :| 0 <= i < |bs| && Within(bs[i], a) {
      if i > 0 { assert Within(bs[1..][i - 1], a); }
    }
    if j :| 0 <= j < |bs[1..]| && Within(bs[1..][j], a) {
      assert Within(bs[j + 1], a);
    }
  }

  /** Nothing before the first block is free, nor the address where it ends. */
  lemma Edges(bs: seq<Block>, a: int)
    requires Canon(bs) && bs != [] && (a < bs[0].addr || a == End(bs[0]))
    ensures !In(bs, a)
  {
  }

  lemma FirstSame(b1: seq<Block>, b2: seq<Block>)
    requires Canon(b1) && Canon(b2) && b1 != [] && b2 != []
    requires forall a :: In(b1, a) <==> In(b2, a)
    ensures b1[0] == b2[0]
  {
    InAt(b1, 0, b1[0].addr);
    InAt(b2, 0, b2[0].addr);
    if b1[0].addr < b2[0].addr { Edges(b2, b1[0].addr); }
    if b2[0].addr < b1[0].addr { Edges(b1, b2[0].addr); }
    Edges(b1, End(b1[0]));
    Edges(b2, End(b2[0]));
    InFirst(b2, End(b1[0]));
    InFirst(b1, End(b2[0]));
  }

  /** Two lists in order, apart and fully coalesced, with the same free addresses, are the same list. */
  lemma {:induction false} Unique(b1: seq<Block>, b2: seq<Block>)
    requires Canon(b1) && Canon(b2) && forall a :: In(b1, a) <==> In(b2, a)
    ensures b1 == b2
  {
    if b1 == [] {
      if b2 != [] { InAt(b2, 0, b2[0].addr); }
    } else if b2 == [] {
      InAt(b1, 0, b1[0].addr);
    } else {
      FirstSame(b1, b2);
      forall a
        ensures In(b1[1..], a) <==> In(b2[1..], a)
      {
        InCons(b1, a);
        InCons(b2, a);
        if Within(b1[0], a) {
          Edges1(b1, a);
          Edges1(b2, a);
        }
      }
      Unique(b1[1..], b2[1..]);
    }
  }

  lemma Edges1(bs: seq<Block>, a: int)
    requires Canon(bs) && bs != [] && Within(bs[0], a)
    ensures !In(bs[1..], a)
  {
    forall i | 0 <= i < |bs[1..]|
      ensures !Within(bs[1..][i], a)
    {
      assert bs[1..][i] == bs[i + 1];
    }
  }

  // --- what the operations do to the free addresses ---

  /** A run of free addresses lies in one block. */
  lemma RunInBlock(bs: seq<Block>, x: int, r: int) returns (i: nat)
    requires Canon(bs) && r > 0 && forall a :: x <= a < x + r ==> In(bs, a)
    ensures i < |bs| && bs[i].addr <= x && x + r <= End(bs[i])
  {
    assert In(bs, x);
    i :| 0 <= i < |bs| && Within(bs[i], x);
    EndNotFree(bs, i);
  }

  lemma EndNotFree(bs: seq<Block>, i: nat)
    requires Canon(bs) && i < |bs|
    ensures !In(bs, End(bs[i]))
  {
    forall j | 0 <= j < |bs|
      ensures !Within(bs[j], End(bs[i]))
    {
      if i < j { assert End(bs[i]) < bs[j].addr; }
      if j < i { assert End(bs[j]) < bs[i].addr; }
    }
  }

  lemma InConcat(b1: seq<Block>, b2: seq<Block>, a: int)
    ensures In(b1 + b2, a) <==> In(b1, a) || In(b2, a)
  {
    if i :| 0 <= i < |b1| && Within(b1[i], a) {
      assert Within((b1 + b2)[i], a);
    }
    if i :| 0 <= i < |b2| && Within(b2[i], a) {
      assert Within((b1 + b2)[|b1| + i], a);
    }
  }

  lemma SpliceIn(bs: seq<Block>, i: nat, j: nat, mid: seq<Block>, a: int)
    requires i <= j <= |bs|
    ensures In(Splice(bs, i, j, mid), a) <==> In(bs[..i], a) || In(mid, a) || In(bs[j..], a)
    ensures In(bs, a) <==> In(bs[..i], a) || In(bs[i..j], a) || In(bs[j..], a)
  {
    assert bs == bs[..i] + bs[i..j] + bs[j..];
    InConcat(bs[..i] + mid, bs[j..], a);
    InConcat(bs[..i], mid, a);
    InConcat(bs[..i] + bs[i..j], bs[j..], a);
    InConcat(bs[..i], bs[i..j], a);
  }

  /** At most one block, between the two neighbours and apart from them. */
  predicate Fits(bs: seq<Block>, i: nat, j: nat, mid: seq<Block>)
    requires i <= j <= |bs|
  {
    mid == [] ||
    (&& |mid| == 1 && Proper(mid[0])
     && (i > 0 ==> End(bs[i - 1]) < mid[0].addr) && (j < |bs| ==> End(mid[0]) < bs[j].addr))
  }

  lemma SpliceAt(bs: seq<Block>, i: nat, j: nat, mid: seq<Block>, k: nat)
    requires i <= j <= |bs| && k < |Splice(bs, i, j, mid)|
    ensures Splice(bs, i, j, mid)[k] == if k < i then bs[k] else if k < i + |mid| then mid[k - i]
                                        else bs[k - i - |mid| + j]
  {
  }

  lemma SpliceCanon(bs: seq<Block>, i: nat, j: nat, mid: seq<Block>)
    requires Canon(bs) && i <= j <= |bs| && Fits(bs, i, j, mid)
    ensures Canon(Splice(bs, i, j, mid))
  {
    hide Aligned;
    var r := Splice(bs, i, j, mid);
    forall x | 0 <= x < |r|
      ensures Proper(r[x])
    {
      SpliceAt(bs, i, j, mid, x);
    }
    hide Splice;
    forall x, y | 0 <= x < y < |r|
      ensures End(r[x]) < r[y].addr
    {
      SpliceAt(bs, i, j, mid, x);
      SpliceAt(bs, i, j, mid, y);
    }
  }

  /** What blocks `i` to `j` hold, no other block holds. */
  lemma Apart(bs: seq<Block>, i: nat, j: nat, a: int)
    requires Canon(bs) && i <= j <= |bs| && In(bs[i..j], a)
    ensures !In(bs[..i], a) && !In(bs[j..], a)
  {
    var k :| 0 <= k < |bs[i..j]| && Within(bs[i..j][k], a);
    assert bs[i..j][k] == bs[i + k];
  }

  lemma InOne(b: Block, a: int)
    ensures In([b], a) <==> Within(b, a)
    ensures !In([], a)
  {
    assert Within(b, a) ==> Within([b][0], a);
  }

  /** The bytes `from` to `to` are taken from one end of block `i`: they are free no longer, all else is as before. */
  lemma Cut(bs: seq<Block>, i: nat, from: int, to: int, mid: seq<Block>)
    requires Canon(bs) && i < |bs| && bs[i].addr <= from <= to <= End(bs[i]) && Aligned(from) && Aligned(to)
    requires from == bs[i].addr || to == End(bs[i])
    requires mid == if from == bs[i].addr && to == End(bs[i]) then []
                    else if from == bs[i].addr then [Block(to, End(bs[i]) - to)]
                    else [Block(bs[i].addr, from - bs[i].addr)]
    ensures Canon(Splice(bs, i, i + 1, mid))
    ensures forall a :: In(Splice(bs, i, i + 1, mid), a) <==> In(bs, a) && !(from <= a < to)
  {
    AlignedSum(bs[i].addr, bs[i].len);
    AlignedSum(End(bs[i]), to);
    AlignedSum(from, bs[i].addr);
    hide Aligned;
    SpliceCanon(bs, i, i + 1, mid);
    assert bs[i..i + 1] == [bs[i]];
    hide Splice, In;
    forall a
      ensures In(Splice(bs, i, i + 1, mid), a) <==> In(bs, a) && !(from <= a < to)
    {
      SpliceIn(bs, i, i + 1, mid, a);
      InOne(bs[i], a);
      if mid != [] { InOne(mid[0], a); }
      if Within(bs[i], a) { Apart(bs, i, i + 1, a); }
    }
  }
}
