/** Whole runs of allocation and release. */
module HeapRuns {
  import opened Codes
  import opened HeapSpec
  import opened HeapLaws

  // --- bytes ---

  function Bytes(bs: seq<Block>): int
  {
    if bs == [] then 0 else Bytes(bs[..|bs| - 1]) + bs[|bs| - 1].len
  }

  lemma {:induction false} BytesConcat(b1: seq<Block>, b2: seq<Block>)
    ensures Bytes(b1 + b2) == Bytes(b1) + Bytes(b2)
  {
    if b2 == [] {
      assert b1 + b2 == b1;
    } else {
      var n := |b2| - 1;
      BytesConcat(b1, b2[..n]);
      assert (b1 + b2)[..|b1 + b2| - 1] == b1 + b2[..n];
    }
  }

  lemma SpliceBytes(bs: seq<Block>, i: nat, j: nat, mid: seq<Block>)
    requires i <= j <= |bs|
    ensures Bytes(Splice(bs, i, j, mid)) == Bytes(bs) - Bytes(bs[i..j]) + Bytes(mid)
  {
    assert bs == bs[..i] + bs[i..j] + bs[j..];
    BytesConcat(bs[..i] + bs[i..j], bs[j..]);
    BytesConcat(bs[..i], bs[i..j]);
    BytesConcat(bs[..i] + mid, bs[j..]);
    BytesConcat(bs[..i], mid);
  }

  lemma OneBlock(b: Block)
    ensures Bytes([b]) == b.len && Bytes([]) == 0
  {
    assert [b][..0] == [];
  }

  /** Allocation takes its rounded-up bytes off the free ones. */
  lemma TakenBytes(bs: seq<Block>, n: nat)
    ensures GetMem(bs, n).1 != SYSERR ==> Bytes(GetMem(bs, n).0) == Bytes(bs) - Round(n)
    ensures GetStk(bs, n).1 != SYSERR ==> Bytes(GetStk(bs, n).0) == Bytes(bs) - Round(n)
  {
    hide Round, Bytes, Splice;
    var i, k := FirstFit(bs, Round(n)), LastFit(bs, Round(n)) - 1;
    if i < |bs| { CutBytes(bs, i, Block(bs[i].addr + Round(n), bs[i].len - Round(n))); }
    if k >= 0 { CutBytes(bs, k, bs[k].(len := bs[k].len - Round(n))); }
  }

  lemma CutBytes(bs: seq<Block>, i: nat, b: Block)
    requires i < |bs|
    ensures Bytes(Splice(bs, i, i + 1, [])) == Bytes(bs) - bs[i].len
    ensures Bytes(Splice(bs, i, i + 1, [b])) == Bytes(bs) - bs[i].len + b.len
  {
    assert bs[i..i + 1] == [bs[i]];
    SpliceBytes(bs, i, i + 1, []);
    SpliceBytes(bs, i, i + 1, [b]);
    OneBlock(bs[i]);
    OneBlock(b);
  }

  /** Release adds them. */
  lemma GivenBytes(h: Heap, bs: seq<Block>, a: int, n: nat)
    ensures FreeMem(h, bs, a, n).1 == OK ==> Bytes(FreeMem(h, bs, a, n).0) == Bytes(bs) + Round(n)
  {
    hide Round, Join;
    JoinBytes(bs, Below(bs, a), Block(a, Round(n)));
  }

  lemma JoinBytes(bs: seq<Block>, k: nat, b: Block)
    requires k <= |bs|
    ensures Bytes(Join(bs, k, b)) == Bytes(bs) + b.len
  {
    hide Splice, Bytes, MergeFrom, MergeTo;
    MergedAway(bs, k, b);
    SpliceBytes(bs, MergeFrom(bs, k, b), MergeTo(bs, k, b), [Merged(bs, k, b)]);
    BytesConcat(LeftPart(bs, k, b), RightPart(bs, k, b));
    OneBlock(Merged(bs, k, b));
    if TouchesLeft(bs, k, b) { OneBlock(bs[k - 1]); }
    if TouchesRight(bs, k, b) { OneBlock(bs[k]); }
    OneBlock(b);
  }

  // --- the order of releases ---

  predicate Overlap(b: Block, c: Block)
  {
    b.addr < End(c) && c.addr < End(b)
  }

  /** Gives all of `gs` back, in order, until one fails. */
  function FreeAll(h: Heap, bs: seq<Block>, gs: seq<Block>): (r: (seq<Block>, bool))
    requires forall i :: 0 <= i < |gs| ==> gs[i].len >= 0
  {
    if gs == [] then (bs, true)
    else
      var n := |gs| - 1;
      var (b1, ok) := FreeAll(h, bs, gs[..n]);
      if !ok then (b1, false)
      else
        var (b2, r) := FreeMem(h, b1, gs[n].addr, gs[n].len);
        (b2, r == OK)
  }

  ghost predicate Blocks(h: Heap, gs: seq<Block>)
  {
    forall i :: 0 <= i < |gs| ==> Proper(gs[i]) && InHeap(h, gs[i].addr)
  }

  ghost predicate Covers(gs: seq<Block>, a: int)
  {
    exists b :: b in gs && Within(b, a)
  }

  predicate Once(gs: seq<Block>, b: Block) { multiset(gs)[b] <= 1 }

  /** None of the blocks is given twice, no two overlap, and none is free. */
  ghost predicate AllApart(bs: seq<Block>, gs: seq<Block>)
  {
    && (forall b :: Once(gs, b))
    && (forall b, c :: b in gs && c in gs && b != c ==> !Overlap(b, c))
    && forall b :: b in gs ==> Clear(bs, b)
  }

  lemma Rounded(b: Block)
    requires Proper(b)
    ensures Round(b.len) == b.len <= TWO32 - 8
  {
  }

  /** Releases all succeed exactly when the blocks are apart; then just what they cover has become free. */
  lemma {:induction false} FreeAllGives(h: Heap, bs: seq<Block>, gs: seq<Block>)
    requires Canon(bs) && Blocks(h, gs)
    ensures FreeAll(h, bs, gs).1 <==> AllApart(bs, gs)
    ensures FreeAll(h, bs, gs).1 ==>
              Canon(FreeAll(h, bs, gs).0) && forall a :: In(FreeAll(h, bs, gs).0, a) <==> In(bs, a) || Covers(gs, a)
  {
    hide In, Canon, FreeMem, Covers, AllApart, Clear, Round;
    if gs == [] {
      NoneToFree(bs, gs);
    } else {
      var n := |gs| - 1;
      FreeAllGives(h, bs, gs[..n]);
      Rounded(gs[n]);
      FewerApart(bs, gs);
      if FreeAll(h, bs, gs[..n]).1 {
        FreeMemGives(h, FreeAll(h, bs, gs[..n]).0, gs[n].addr, gs[n].len);
        OneMore(bs, FreeAll(h, bs, gs[..n]).0, gs);
        CoversMore(gs);
      }
    }
  }

  lemma NoneToFree(bs: seq<Block>, gs: seq<Block>)
    requires gs == []
    ensures AllApart(bs, gs) && forall a :: !Covers(gs, a)
  {
  }

  lemma CoversMore(gs: seq<Block>)
    requires gs != []
    ensures forall a :: Covers(gs, a) <==> Covers(gs[..|gs| - 1], a) || Within(gs[|gs| - 1], a)
  {
    var n := |gs| - 1;
    assert gs == gs[..n] + [gs[n]];
    assert forall b :: b in gs <==> b in gs[..n] || b == gs[n];
  }

  lemma LastMember(gs: seq<Block>)
    requires gs != []
    ensures forall b :: b in gs <==> b in gs[..|gs| - 1] || b == gs[|gs| - 1]
    ensures forall b :: Once(gs, b) <==> Once(gs[..|gs| - 1], b) && (b == gs[|gs| - 1] ==> b !in gs[..|gs| - 1])
  {
    var n := |gs| - 1;
    assert gs == gs[..n] + [gs[n]];
    assert multiset(gs) == multiset(gs[..n]) + multiset{gs[n]};
    assert forall b :: b in gs[..n] <==> b in multiset(gs[..n]);
    assert forall b: Block {:trigger Once(gs, b)} ::
             multiset(gs)[b] == multiset(gs[..n])[b] + if b == gs[n] then 1 else 0;
  }

  lemma FewerApart(bs: seq<Block>, gs: seq<Block>)
    requires gs != []
    ensures AllApart(bs, gs) ==> AllApart(bs, gs[..|gs| - 1])
  {
    LastMember(gs);
    hide Clear, Overlap, Once;
    if AllApart(bs, gs) {
      var gs' := gs[..|gs| - 1];
      forall b
        ensures Once(gs', b)
      {
        assert Once(gs, b);
      }
    }
  }

  /** A further block is apart from the ones before just when nothing of it is free after those are. */
  lemma OneMore(bs: seq<Block>, b1: seq<Block>, gs: seq<Block>)
    requires gs != [] && AllApart(bs, gs[..|gs| - 1]) && forall i :: 0 <= i < |gs| ==> Proper(gs[i])
    requires forall a :: In(b1, a) <==> In(bs, a) || Covers(gs[..|gs| - 1], a)
    ensures AllApart(bs, gs) <==> Clear(b1, gs[|gs| - 1])
  {
    hide In;
    LastMember(gs);
    if Clear(b1, gs[|gs| - 1]) {
      ClearApart(bs, b1, gs);
    } else {
      OverlapApart(bs, b1, gs);
    }
  }

  lemma ClearApart(bs: seq<Block>, b1: seq<Block>, gs: seq<Block>)
    requires gs != [] && AllApart(bs, gs[..|gs| - 1]) && forall i :: 0 <= i < |gs| ==> Proper(gs[i])
    requires forall a :: In(b1, a) <==> In(bs, a) || Covers(gs[..|gs| - 1], a)
    requires Clear(b1, gs[|gs| - 1])
    ensures AllApart(bs, gs)
  {
    hide In;
    var n := |gs| - 1;
    var g := gs[n];
    LastMember(gs);
    forall b | b in gs[..n]
      ensures b != g && !Overlap(b, g) && !Overlap(g, b)
    {
      assert Proper(b) && Proper(g);
      var a := if b.addr < g.addr then g.addr else b.addr;
      assert Within(b, a) ==> Covers(gs[..n], a);
      assert Within(g, a) ==> !In(b1, a);
    }
    assert Clear(bs, g);
    hide Clear, Overlap, Covers, Once;
    forall b
      ensures Once(gs, b)
    {
      assert Once(gs[..n], b);
    }
  }

  lemma OverlapApart(bs: seq<Block>, b1: seq<Block>, gs: seq<Block>)
    requires gs != [] && forall i :: 0 <= i < |gs| ==> Proper(gs[i])
    requires forall a :: In(b1, a) <==> In(bs, a) || Covers(gs[..|gs| - 1], a)
    requires !Clear(b1, gs[|gs| - 1])
    ensures !AllApart(bs, gs)
  {
    hide In;
    var n := |gs| - 1;
    var g := gs[n];
    LastMember(gs);
    var a :| Within(g, a) && In(b1, a);
    assert g in gs;
    if Covers(gs[..n], a) {
      var b :| b in gs[..n] && Within(b, a);
      assert Overlap(b, g) && b in gs;
      assert b == g ==> !Once(gs, g);
    }
  }

  lemma SameBlocks(bs: seq<Block>, g1: seq<Block>, g2: seq<Block>)
    requires multiset(g1) == multiset(g2)
    ensures AllApart(bs, g1) <==> AllApart(bs, g2)
    ensures forall a :: Covers(g1, a) <==> Covers(g2, a)
  {
    assert forall b :: b in g1 <==> b in multiset(g1);
    assert forall b :: b in g2 <==> b in multiset(g2);
    assert forall b {:trigger b in g1} {:trigger b in g2} :: b in g1 <==> b in g2;
    assert forall b {:trigger Once(g1, b)} {:trigger Once(g2, b)} :: Once(g1, b) <==> Once(g2, b);
    hide Clear, Overlap, Once;
  }

  /** The order in which blocks are given back makes no difference, to success or to the list. */
  lemma AnyOrder(h: Heap, bs: seq<Block>, g1: seq<Block>, g2: seq<Block>)
    requires Canon(bs) && Blocks(h, g1) && Blocks(h, g2) && multiset(g1) == multiset(g2)
    ensures FreeAll(h, bs, g1).1 == FreeAll(h, bs, g2).1
    ensures FreeAll(h, bs, g1).1 ==> FreeAll(h, bs, g1).0 == FreeAll(h, bs, g2).0
  {
    hide FreeAll, In, Canon, AllApart, Covers;
    FreeAllGives(h, bs, g1);
    FreeAllGives(h, bs, g2);
    SameBlocks(bs, g1, g2);
    if FreeAll(h, bs, g1).1 {
      Unique(FreeAll(h, bs, g1).0, FreeAll(h, bs, g2).0);
    }
  }

  // --- allocations and releases in any order ---

  /** Memory handed out: the block, and how many bytes were asked for, as heap memory or as a stack. */
  datatype Grant = Grant(block: Block, n: nat, stack: bool)

  datatype State = State(free: seq<Block>, live: seq<Grant>)

  datatype Op = TakeMem(n: nat) | TakeStk(n: nat) | Release(i: nat)

  /** Gives back what was handed out, through the macro for stacks if it was one. */
  function Return(h: Heap, bs: seq<Block>, g: Grant): (seq<Block>, int)
  {
    if g.stack then FreeStk(h, bs, End(g.block) - 4, g.n) else FreeMem(h, bs, g.block.addr, g.n)
  }

  function Rest(live: seq<Grant>, i: nat): (r: seq<Grant>)
    requires i < |live|
    ensures |r| == |live| - 1
    ensures forall j :: 0 <= j < |r| ==> r[j] == if j < i then live[j] else live[j + 1]
  {
    live[..i] + live[i + 1..]
  }

  function Step(h: Heap, s: State, op: Op): State
  {
    match op
    case TakeMem(n) =>
      var (bs, p) := GetMem(s.free, n);
      if p == SYSERR then s else State(bs, s.live + [Grant(Block(p, Round(n)), n, false)])
    case TakeStk(n) =>
      var (bs, p) := GetStk(s.free, n);
      if p == SYSERR then s else State(bs, s.live + [Grant(Block(p + 4 - Round(n), Round(n)), n, true)])
    case Release(i) =>
      if i >= |s.live| then s
      else
        var (bs, r) := Return(h, s.free, s.live[i]);
        if r == OK then State(bs, Rest(s.live, i)) else s
  }

  ghost predicate Held(live: seq<Grant>, a: int)
  {
    exists i :: 0 <= i < |live| && Within(live[i].block, a)
  }

  ghost predicate GoodGrant(h: Heap, g: Grant)
  {
    Proper(g.block) && InHeap(h, g.block.addr) && 0 < g.n <= TWO32 - 8 && g.block.len == Round(g.n)
  }

  /** Every address that was free at the start is free or held, once; no other is either. */
  ghost predicate Sound(h: Heap, start: seq<Block>, s: State)
  {
    && Canon(s.free)
    && (forall i :: 0 <= i < |s.live| ==> GoodGrant(h, s.live[i]))
    && (forall i, j :: 0 <= i < j < |s.live| ==> !Overlap(s.live[i].block, s.live[j].block))
    && (forall a :: In(s.free, a) ==> !Held(s.live, a))
    && forall a :: In(start, a) <==> In(s.free, a) || Held(s.live, a)
  }

  /** All that was free at the start lies in the heap. */
  ghost predicate Inside(h: Heap, start: seq<Block>)
  {
    Canon(start) && forall a :: In(start, a) ==> InHeap(h, a)
  }

  lemma HeldMore(live: seq<Grant>, g: Grant, a: int)
    ensures Held(live + [g], a) <==> Held(live, a) || Within(g.block, a)
  {
    if i :| 0 <= i < |live| && Within(live[i].block, a) {
      assert Within((live + [g])[i].block, a);
    }
    assert (live + [g])[|live|] == g;
  }

  lemma TakeSound(h: Heap, start: seq<Block>, s: State, bs: seq<Block>, g: Grant)
    requires Inside(h, start) && Sound(h, start, s) && Takes(s.free, bs, g.block.addr, End(g.block))
    requires Proper(g.block) && 0 < g.n <= TWO32 - 8 && g.block.len == Round(g.n)
    ensures Sound(h, start, State(bs, s.live + [g]))
  {
    hide In, Round, Canon;
    var live := s.live + [g];
    forall a
      ensures Held(live, a) <==> Held(s.live, a) || Within(g.block, a)
    {
      HeldMore(s.live, g, a);
    }
    assert In(s.free, g.block.addr);
    forall i | 0 <= i < |s.live|
      ensures !Overlap(s.live[i].block, g.block)
    {
      var b := s.live[i].block;
      assert GoodGrant(h, s.live[i]);
      var a := if b.addr < g.block.addr then g.block.addr else b.addr;
      assert Within(b, a) ==> Held(s.live, a);
      assert Within(g.block, a) ==> In(s.free, a);
    }
    hide Held, Proper, Aligned, Overlap;
  }

  /** What was handed out can be given back, and becomes free. */
  lemma Returned(h: Heap, bs: seq<Block>, g: Grant)
    requires Canon(bs) && GoodGrant(h, g) && Clear(bs, g.block)
    ensures Return(h, bs, g).1 == OK && Gives(bs, Return(h, bs, g).0, g.block.addr, End(g.block))
  {
    RoundTwice(g.n);
    hide Round, In, Canon, FreeMem, Clear, Aligned, Gives;
    FreeMemGives(h, bs, g.block.addr, if g.stack then Round(g.n) else g.n);
  }

  lemma HeldClear(h: Heap, start: seq<Block>, s: State, i: nat)
    requires Sound(h, start, s) && i < |s.live|
    ensures Canon(s.free) && GoodGrant(h, s.live[i]) && Clear(s.free, s.live[i].block)
  {
    hide In, Canon, GoodGrant;
    forall a | Within(s.live[i].block, a)
      ensures !In(s.free, a)
    {
      assert Held(s.live, a);
    }
  }

  lemma ReleaseSound(h: Heap, start: seq<Block>, s: State, i: nat)
    requires Sound(h, start, s) && i < |s.live|
    ensures Return(h, s.free, s.live[i]).1 == OK
    ensures Sound(h, start, Step(h, s, Release(i)))
  {
    hide Sound, Canon, GoodGrant, Clear, Return, Gives;
    HeldClear(h, start, s, i);
    Returned(h, s.free, s.live[i]);
    ReleasedSound(h, start, s, i, Return(h, s.free, s.live[i]).0);
  }

  lemma HeldRest(live: seq<Grant>, i: nat, a: int)
    requires i < |live| && forall j, k :: 0 <= j < k < |live| ==> !Overlap(live[j].block, live[k].block)
    ensures Held(Rest(live, i), a) <==> Held(live, a) && !Within(live[i].block, a)
  {
    if j :| 0 <= j < |live| && Within(live[j].block, a) {
      if j != i { assert Within(Rest(live, i)[if j < i then j else j - 1].block, a); }
    }
  }

  lemma ReleasedSound(h: Heap, start: seq<Block>, s: State, i: nat, bs: seq<Block>)
    requires Sound(h, start, s) && i < |s.live| && Gives(s.free, bs, s.live[i].block.addr, End(s.live[i].block))
    ensures Sound(h, start, State(bs, Rest(s.live, i)))
  {
    hide In, Round, Canon, GoodGrant, Held;
    forall a
      ensures Held(Rest(s.live, i), a) <==> Held(s.live, a) && !Within(s.live[i].block, a)
      ensures Within(s.live[i].block, a) ==> Held(s.live, a)
    {
      HeldRest(s.live, i, a);
      HeldHere(s.live, i, a);
    }
    hide Overlap;
  }

  lemma HeldHere(live: seq<Grant>, i: nat, a: int)
    requires i < |live|
    ensures Within(live[i].block, a) ==> Held(live, a)
  {
  }

  lemma TakeMemSound(h: Heap, start: seq<Block>, s: State, n: nat)
    requires Inside(h, start) && Sound(h, start, s) && n <= TWO32 - 8
    ensures Sound(h, start, Step(h, s, TakeMem(n)))
  {
    assert Canon(s.free);
    hide Sound, Round, Inside, In, Canon, Takes, Proper;
    if n > 0 {
      GetMemTakes(s.free, n);
      var (bs, p) := GetMem(s.free, n);
      hide GetMem;
      if p != SYSERR { TakeSound(h, start, s, bs, Grant(Block(p, Round(n)), n, false)); }
    }
  }

  lemma TakeStkSound(h: Heap, start: seq<Block>, s: State, n: nat)
    requires Inside(h, start) && Sound(h, start, s) && n <= TWO32 - 8
    ensures Sound(h, start, Step(h, s, TakeStk(n)))
  {
    assert Canon(s.free);
    hide Sound, Round, Inside, In, Canon, Takes, Proper;
    if n > 0 {
      GetStkTakes(s.free, n);
      var (bs, p) := GetStk(s.free, n);
      hide GetStk;
      if p != SYSERR { TakeSound(h, start, s, bs, Grant(Block(p + 4 - Round(n), Round(n)), n, true)); }
    }
  }

  /** Every step keeps it so. */
  lemma StepSound(h: Heap, start: seq<Block>, s: State, op: Op)
    requires Inside(h, start) && Sound(h, start, s)
    requires op.TakeMem? || op.TakeStk? ==> op.n <= TWO32 - 8
    ensures Sound(h, start, Step(h, s, op))
  {
    hide Inside, Sound, GetMem, GetStk, Return;
    match op
    case TakeMem(n) => TakeMemSound(h, start, s, n);
    case TakeStk(n) => TakeStkSound(h, start, s, n);
    case Release(i) => if i < |s.live| { ReleaseSound(h, start, s, i); }
  }

  function Run(h: Heap, s: State, ops: seq<Op>): State
  {
    if ops == [] then s else Step(h, Run(h, s, ops[..|ops| - 1]), ops[|ops| - 1])
  }

  /** In every run live allocations overlap neither each other nor a free block, and nothing is lost: when all
      has been given back, in whatever order, the list is the one of the start. */
  lemma {:induction false} RunSound(h: Heap, start: seq<Block>, ops: seq<Op>)
    requires Inside(h, start)
    requires forall i :: 0 <= i < |ops| ==> (ops[i].TakeMem? || ops[i].TakeStk? ==> ops[i].n <= TWO32 - 8)
    ensures Sound(h, start, Run(h, State(start, []), ops))
    ensures Run(h, State(start, []), ops).live == [] ==> Run(h, State(start, []), ops).free == start
  {
    hide Inside, In, Step;
    if ops == [] {
      StartSound(h, start);
    } else {
      RunSound(h, start, ops[..|ops| - 1]);
      StepSound(h, start, Run(h, State(start, []), ops[..|ops| - 1]), ops[|ops| - 1]);
    }
    AllBack(h, start, Run(h, State(start, []), ops));
  }

  lemma StartSound(h: Heap, start: seq<Block>)
    requires Inside(h, start)
    ensures Sound(h, start, State(start, []))
  {
  }

  lemma AllBack(h: Heap, start: seq<Block>, s: State)
    requires Inside(h, start) && Sound(h, start, s)
    ensures s.live == [] ==> s.free == start
  {
    if s.live == [] {
      Unique(s.free, start);
    }
  }
}
