/** The sort in place, on the bytes of elements of any size. */
module QsortBytes {
  import Qsort

  predicate InBlock(x: int, at: nat, es: nat) { at <= x < at + es }

  predicate Disjoint(i: nat, j: nat, es: nat) { i + es <= j || j + es <= i }

  /** Where the byte at `x` comes from when the blocks at `i` and `j` change places. */
  function SwapSource(x: int, i: nat, j: nat, es: nat): int
  {
    if InBlock(x, i, es) then j + x - i else if InBlock(x, j, es) then i + x - j else x
  }

  /** And when the block at `k` goes to `i`, that at `j` to `k` and that at `i` to `j`. */
  function RotateSource(x: int, i: nat, j: nat, k: nat, es: nat): int
  {
    if InBlock(x, i, es) then k + x - i else if InBlock(x, j, es) then i + x - j
    else if InBlock(x, k, es) then j + x - k else x
  }

  ghost predicate BytesSwapped(was: seq<int>, now: seq<int>, i: nat, j: nat, es: nat)
    requires i + es <= |was| && j + es <= |was|
  {
    |now| == |was| && forall x :: 0 <= x < |now| ==> now[x] == was[SwapSource(x, i, j, es)]
  }

  ghost predicate BytesRotated(was: seq<int>, now: seq<int>, i: nat, j: nat, k: nat, es: nat)
    requires i + es <= |was| && j + es <= |was| && k + es <= |was|
  {
    |now| == |was| && forall x :: 0 <= x < |now| ==> now[x] == was[RotateSource(x, i, j, k, es)]
  }

  function SwapAt(m: seq<int>, x: nat, y: nat): (r: seq<int>)
    requires x < |m| && y < |m|
    ensures |r| == |m|
  {
    m[x := m[y]][y := m[x]]
  }

  function RotateAt(m: seq<int>, x: nat, y: nat, z: nat): (r: seq<int>)
    requires x < |m| && y < |m| && z < |m|
    ensures |r| == |m|
  {
    m[x := m[z]][z := m[y]][y := m[x]]
  }

  /** One byte more of each block. */
  lemma SwapStep(was: seq<int>, now: seq<int>, i: nat, j: nat, es: nat, d: nat)
    requires d < es && i + es <= |was| && j + es <= |was| && (i == j || Disjoint(i, j, es))
    requires BytesSwapped(was, now, i, j, d)
    ensures |now| == |was| && BytesSwapped(was, SwapAt(now, i + d, j + d), i, j, d + 1)
  {
    var now' := SwapAt(now, i + d, j + d);
    forall x | 0 <= x < |now'|
      ensures now'[x] == was[SwapSource(x, i, j, d + 1)]
    {
      assert now[x] == was[SwapSource(x, i, j, d)];
    }
  }

  lemma RotateStep(was: seq<int>, now: seq<int>, i: nat, j: nat, k: nat, es: nat, d: nat)
    requires d < es && i + es <= |was| && j + es <= |was| && k + es <= |was|
    requires Disjoint(i, j, es) && Disjoint(i, k, es) && (j == k || Disjoint(j, k, es))
    requires BytesRotated(was, now, i, j, k, d)
    ensures |now| == |was|
    ensures BytesRotated(was, RotateAt(now, i + d, j + d, k + d), i, j, k, d + 1)
  {
    var now' := RotateAt(now, i + d, j + d, k + d);
    forall x | 0 <= x < |now'|
      ensures now'[x] == was[RotateSource(x, i, j, k, d + 1)]
    {
      assert now[x] == was[RotateSource(x, i, j, k, d)];
    }
  }

  lemma Untouched(was: seq<int>, i: nat, j: nat, k: nat)
    requires i <= |was| && j <= |was| && k <= |was|
    ensures BytesSwapped(was, was, i, j, 0) && BytesRotated(was, was, i, j, k, 0)
  {
  }

  method SwapByte(m: array<int>, ri: nat, rj: nat)
    requires ri < m.Length && rj < m.Length
    modifies m
    ensures m[..] == SwapAt(old(m[..]), ri, rj)
  {
    var c := m[ri];
    m[ri] := m[rj];
    m[rj] := c;
  }

  method RotateByte(m: array<int>, ri: nat, rj: nat, rk: nat)
    requires ri < m.Length && rj < m.Length && rk < m.Length && ri != rj && ri != rk
    modifies m
    ensures m[..] == RotateAt(old(m[..]), ri, rj, rk)
  {
    var c := m[ri];
    m[ri] := m[rk];
    m[rk] := m[rj];
    m[rj] := c;
  }

  method SwapNext(m: array<int>, ghost i: nat, ghost j: nat, ghost es: nat, ghost d: nat, ri: nat, rj: nat,
                  ghost was: seq<int>)
    requires d < es && i + es <= m.Length == |was| && j + es <= m.Length && (i == j || Disjoint(i, j, es))
    requires ri == i + d && rj == j + d && BytesSwapped(was, m[..], i, j, d)
    modifies m
    ensures BytesSwapped(was, m[..], i, j, d + 1)
  {
    SwapStep(was, m[..], i, j, es, d);
    hide *;
    SwapByte(m, ri, rj);
  }

  method RotateNext(m: array<int>, ghost i: nat, ghost j: nat, ghost k: nat, ghost es: nat, ghost d: nat,
                    ri: nat, rj: nat, rk: nat, ghost was: seq<int>)
    requires d < es && i + es <= m.Length == |was| && j + es <= m.Length && k + es <= m.Length
    requires Disjoint(i, j, es) && Disjoint(i, k, es) && (j == k || Disjoint(j, k, es))
    requires ri == i + d && rj == j + d && rk == k + d && BytesRotated(was, m[..], i, j, k, d)
    modifies m
    ensures BytesRotated(was, m[..], i, j, k, d + 1)
  {
    RotateStep(was, m[..], i, j, k, es, d);
    assert ri != rj && ri != rk;
    hide *;
    RotateByte(m, ri, rj, rk);
  }

  method ExchangeBytes(m: array<int>, i: nat, j: nat, es: nat)
    requires es > 0 && i + es <= m.Length && j + es <= m.Length && (i == j || Disjoint(i, j, es))
    modifies m
    ensures BytesSwapped(old(m[..]), m[..], i, j, es)
  {
    var ri, rj, n := i, j, es;
    ghost var was, d := m[..], 0;
    Untouched(was, i, j, i);
    hide *;
    while true
      invariant d < es && n == es - d && ri == i + d && rj == j + d && BytesSwapped(was, m[..], i, j, d)
      decreases n
    {
      SwapNext(m, i, j, es, d, ri, rj, was);
      ri, rj, n, d := ri + 1, rj + 1, n - 1, d + 1;
      if n == 0 {
        break;
      }
    }
  }

  method ExchangeBytes3(m: array<int>, i: nat, j: nat, k: nat, es: nat)
    requires es > 0 && i + es <= m.Length && j + es <= m.Length && k + es <= m.Length
    requires Disjoint(i, j, es) && Disjoint(i, k, es) && (j == k || Disjoint(j, k, es))
    modifies m
    ensures BytesRotated(old(m[..]), m[..], i, j, k, es)
  {
    var ri, rj, rk, n := i, j, k, es;
    ghost var was, d := m[..], 0;
    Untouched(was, i, j, k);
    hide *;
    while true
      invariant d < es && n == es - d && ri == i + d && rj == j + d && rk == k + d
      invariant BytesRotated(was, m[..], i, j, k, d)
      decreases n
    {
      RotateNext(m, i, j, k, es, d, ri, rj, rk, was);
      ri, rj, rk, n, d := ri + 1, rj + 1, rk + 1, n - 1, d + 1;
      if n == 0 {
        break;
      }
    }
  }

  /** What the exchange of the blocks at `i` and `j` leaves in the block at `e`: what the block at `f` held. */
  lemma BlockMoved(was: seq<int>, now: seq<int>, i: nat, j: nat, es: nat, e: nat, f: nat)
    requires i + es <= |was| && j + es <= |was| && e + es <= |was| && BytesSwapped(was, now, i, j, es)
    requires f == if e == i then j else if e == j then i else e
    requires (e == i || Disjoint(e, i, es)) && (e == j || Disjoint(e, j, es))
    ensures now[e..e + es] == was[f..f + es]
  {
    var now1, was1 := now[e..e + es], was[f..f + es];
    forall d | 0 <= d < es
      ensures now1[d] == was1[d]
    {
      assert now1[d] == now[e + d] && was1[d] == was[f + d];
    }
  }

  lemma BlockMoved3(was: seq<int>, now: seq<int>, i: nat, j: nat, k: nat, es: nat, e: nat, f: nat)
    requires i + es <= |was| && j + es <= |was| && k + es <= |was| && e + es <= |was|
    requires BytesRotated(was, now, i, j, k, es)
    requires f == if e == i then k else if e == j then i else if e == k then j else e
    requires (e == i || Disjoint(e, i, es)) && (e == j || Disjoint(e, j, es)) && (e == k || Disjoint(e, k, es))
    ensures now[e..e + es] == was[f..f + es]
  {
    var now1, was1 := now[e..e + es], was[f..f + es];
    forall d | 0 <= d < es
      ensures now1[d] == was1[d]
    {
      assert now1[d] == now[e + d] && was1[d] == was[f + d];
    }
  }

  /** Elements of `es` bytes lie at the given addresses, one behind the other. */
  predicate Layout(at: seq<nat>, es: nat, size: nat)
  {
    && (forall e :: 0 <= e < |at| ==> at[e] + es <= size)
    && forall e, f :: 0 <= e < f < |at| ==> at[e] + es <= at[f]
  }

  /** The addresses of `n` elements of an array. */
  function Addresses(es: nat, n: nat): (at: seq<nat>)
    ensures |at| == n && forall e :: 0 <= e < n ==> at[e] == e * es
  {
    seq(n, e requires 0 <= e < n => e * es)
  }

  lemma Regular(es: nat, n: nat)
    ensures Layout(Addresses(es, n), es, n * es)
  {
    var at := Addresses(es, n);
    forall e, f | 0 <= e < f <= n
      ensures e * es + es <= f * es
    {
      MulGap(e, f, es);
    }
  }

  /** The bytes as a sequence of elements. */
  function Elements(m: seq<int>, at: seq<nat>, es: nat): (r: seq<seq<int>>)
    requires Layout(at, es, |m|)
    ensures |r| == |at| && forall e :: 0 <= e < |at| ==> r[e] == m[at[e]..at[e] + es]
  {
    seq(|at|, e requires 0 <= e < |at| => m[at[e]..at[e] + es])
  }

  lemma AtApart(at: seq<nat>, es: nat, size: nat, e: nat, f: nat)
    requires Layout(at, es, size) && e < |at| && f < |at|
    ensures at[e] + es <= size && at[f] + es <= size && (e == f || Disjoint(at[e], at[f], es))
    ensures es > 0 ==> (at[e] == at[f] <==> e == f)
  {
  }

  /** Exchanging the bytes of two elements exchanges the elements. */
  lemma SwappedElements(was: seq<int>, now: seq<int>, at: seq<nat>, es: nat, i: nat, j: nat)
    requires es > 0 && Layout(at, es, |was|) && i < |at| && j < |at|
    requires at[i] + es <= |was| && at[j] + es <= |was| && BytesSwapped(was, now, at[i], at[j], es)
    ensures |now| == |was| && Elements(now, at, es) == Qsort.Swapped(Elements(was, at, es), i, j)
  {
    forall e | 0 <= e < |at|
      ensures Elements(now, at, es)[e] == Qsort.Swapped(Elements(was, at, es), i, j)[e]
    {
      var f := if e == i then j else if e == j then i else e;
      AtApart(at, es, |was|, e, i);
      AtApart(at, es, |was|, e, j);
      hide BytesSwapped, Layout;
      BlockMoved(was, now, at[i], at[j], es, at[e], at[f]);
    }
  }

  lemma RotatedElement(was: seq<int>, now: seq<int>, at: seq<nat>, es: nat, i: nat, j: nat, k: nat, e: nat)
    requires es > 0 && Layout(at, es, |was|) && i < |at| && j < |at| && k < |at| && i != j && i != k && e < |at|
    requires at[i] + es <= |was| && at[j] + es <= |was| && at[k] + es <= |was| && at[e] + es <= |was|
    requires BytesRotated(was, now, at[i], at[j], at[k], es)
    ensures var f := if e == i then k else if e == j then i else if e == k then j else e;
            at[e] + es <= |now| && at[f] + es <= |was| && now[at[e]..at[e] + es] == was[at[f]..at[f] + es]
  {
    hide Layout, Disjoint;
    var f := if e == i then k else if e == j then i else if e == k then j else e;
    AtApart(at, es, |was|, e, i);
    AtApart(at, es, |was|, e, j);
    AtApart(at, es, |was|, e, k);
    BlockMoved3(was, now, at[i], at[j], at[k], es, at[e], at[f]);
    hide BytesRotated;
  }

  /** Likewise for three. */
  lemma RotatedElements(was: seq<int>, now: seq<int>, at: seq<nat>, es: nat, i: nat, j: nat, k: nat)
    requires es > 0 && Layout(at, es, |was|) && i < |at| && j < |at| && k < |at| && i != j && i != k
    requires at[i] + es <= |was| && at[j] + es <= |was| && at[k] + es <= |was|
    requires BytesRotated(was, now, at[i], at[j], at[k], es)
    ensures |now| == |was| && Elements(now, at, es) == Qsort.Rotated(Elements(was, at, es), i, j, k)
  {
    assert |now| == |was|;
    hide BytesRotated, Layout;
    forall e | 0 <= e < |at|
      ensures Elements(now, at, es)[e] == Qsort.Rotated(Elements(was, at, es), i, j, k)[e]
    {
      RotatedElement(was, now, at, es, i, j, k, e);
    }
  }

  // --- the sort itself, on bytes; `at` are the addresses of the elements ---

  /** The address of element `e`. */
  function Pos(e: nat, es: nat): nat { e * es }

  lemma PosNext(e: nat, es: nat)
    ensures Pos(e + 1, es) == Pos(e, es) + es
    ensures Pos(0, es) == 0
  {
  }

  lemma PosOrder(e: nat, f: nat, es: nat)
    requires es > 0
    ensures e < f <==> Pos(e, es) < Pos(f, es)
    ensures e < f ==> Pos(e, es) + es <= Pos(f, es)
  {
    if e < f {
      MulGap(e, f, es);
    } else if f < e {
      MulGap(f, e, es);
    }
  }

  lemma MulGap(e: nat, f: nat, es: nat)
    requires e < f
    ensures f * es >= e * es + es
  {
    assert f * es == e * es + (f - e) * es;
    assert (f - e) * es == es + (f - e - 1) * es;
  }

  /** Distances between addresses are those between elements. */
  lemma PosDiff(a: nat, b: nat, es: nat)
    requires a <= b
    ensures Pos(b, es) - Pos(a, es) == Pos(b - a, es)
  {
    assert b * es == a * es + (b - a) * es;
  }

  /** The middle, as the code finds it. */
  lemma Middle(n: nat, es: nat)
    requires es > 0
    ensures es * (Pos(n, es) / (2 * es)) == Pos(n / 2, es)
  {
    var q, r := n / 2, n % 2;
    assert n == 2 * q + r;
    assert Pos(n, es) == q * (2 * es) + r * es by {
      assert (2 * q + r) * es == 2 * q * es + r * es;
    }
    assert 0 <= r * es < 2 * es;
    DivIs(Pos(n, es), 2 * es, q, r * es);
  }

  lemma DivIs(x: nat, d: nat, q: nat, r: nat)
    requires d > 0 && x == q * d + r && r < d
    ensures x / d == q
  {
    var q' := x / d;
    assert x == q' * d + x % d;
    if q' < q {
      MulGap(q', q, d);
    } else if q < q' {
      MulGap(q, q', d);
    }
  }

  /** The elements fill the bytes, each at its address. */
  ghost predicate Cells(at: seq<nat>, es: nat, size: nat)
  {
    es > 0 && Layout(at, es, size) && size == Pos(|at|, es) && forall e :: 0 <= e < |at| ==> at[e] == Pos(e, es)
  }

  /** Elements of `es` bytes are compared as `cmp` does, others by their length. */
  function Extended(cmp: (seq<int>, seq<int>) -> int, es: nat): (seq<int>, seq<int>) -> int
  {
    (x: seq<int>, y: seq<int>) => if |x| == es == |y| then cmp(x, y) else |x| - |y|
  }

  /** The comparison orders all elements of `es` bytes. */
  ghost predicate Orders(cmp: (seq<int>, seq<int>) -> int, es: nat)
  {
    && (forall x, y :: |x| == es == |y| ==> (cmp(x, y) > 0 <==> cmp(y, x) < 0))
    && forall x, y, z :: |x| == es == |y| && |z| == es && cmp(x, y) <= 0 && cmp(y, z) <= 0 ==> cmp(x, z) <= 0
  }

  lemma ExtendedOrders(cmp: (seq<int>, seq<int>) -> int, es: nat)
    requires Orders(cmp, es)
    ensures Qsort.Preorder(Extended(cmp, es))
  {
  }

  method Compare(m: array<int>, x: nat, y: nat, es: nat, cmp: (seq<int>, seq<int>) -> int, ghost at: seq<nat>,
                 ghost e: nat,
                 ghost f: nat) returns (c: int)
    requires Cells(at, es, m.Length) && e < |at| && f < |at| && x == Pos(e, es) && y == Pos(f, es)
    ensures Layout(at, es, m.Length)
    ensures c == Extended(cmp, es)(Elements(m[..], at, es)[e], Elements(m[..], at, es)[f])
  {
    c := cmp(m[x..x + es], m[y..y + es]);
    assert m[..][x..x + es] == m[x..x + es] && m[..][y..y + es] == m[y..y + es];
  }

  /** Exchanges elements `e` and `f`. */
  method Exchange(m: array<int>, x: nat, y: nat, es: nat, ghost at: seq<nat>, ghost e: nat, ghost f: nat,
                  ghost was: seq<seq<int>>, ghost lo: nat, ghost hi: nat)
    requires Cells(at, es, m.Length) && lo <= e < hi <= |at| && lo <= f < hi && x == Pos(e, es) && y == Pos(f, es)
    requires Layout(at, es, m.Length) && Qsort.Permuted(was, Elements(m[..], at, es), lo, hi)
    modifies m
    ensures Elements(m[..], at, es) == Qsort.Swapped(old(Elements(m[..], at, es)), e, f)
    ensures Qsort.Permuted(was, Elements(m[..], at, es), lo, hi)
  {
    ghost var m0 := m[..];
    ghost var s := Elements(m0, at, es);
    AtApart(at, es, m.Length, e, f);
    Qsort.SwappedPermutes(s, e, f, lo, hi);
    Qsort.PermutedTrans(was, s, Qsort.Swapped(s, e, f), lo, hi);
    hide Qsort.Permuted, Elements, Layout, BytesSwapped;
    ExchangeBytes(m, x, y, es);
    SwappedElements(m0, m[..], at, es, e, f);
  }

  /** Element `g` goes to place `e`, `f` to place `g`, `e` to place `f`. */
  method Exchange3(m: array<int>, x: nat, y: nat, z: nat, es: nat, ghost at: seq<nat>, ghost e: nat, ghost f: nat,
                   ghost g: nat,
                   ghost was: seq<seq<int>>, ghost lo: nat, ghost hi: nat)
    requires Cells(at, es, m.Length) && lo <= e < hi <= |at| && lo <= f < hi && lo <= g < hi && e != f && e != g
    requires x == Pos(e, es) && y == Pos(f, es) && z == Pos(g, es)
    requires Layout(at, es, m.Length) && Qsort.Permuted(was, Elements(m[..], at, es), lo, hi)
    modifies m
    ensures Elements(m[..], at, es) == Qsort.Rotated(old(Elements(m[..], at, es)), e, f, g)
    ensures Qsort.Permuted(was, Elements(m[..], at, es), lo, hi)
  {
    ghost var m0 := m[..];
    ghost var s := Elements(m0, at, es);
    AtApart(at, es, m.Length, e, f);
    AtApart(at, es, m.Length, e, g);
    AtApart(at, es, m.Length, f, g);
    Qsort.RotatedPermutes(s, e, f, g, lo, hi);
    Qsort.PermutedTrans(was, s, Qsort.Rotated(s, e, f, g), lo, hi);
    hide Qsort.Permuted, Elements, Layout, BytesRotated;
    ExchangeBytes3(m, x, y, z, es);
    RotatedElements(m0, m[..], at, es, e, f, g);
  }

  lemma CellsLie(at: seq<nat>, es: nat, size: nat)
    requires Cells(at, es, size)
    ensures es > 0 && Layout(at, es, size)
  {
  }

  /** Where a split stands, in elements. */
  datatype Band = Band(lo: nat, i: nat, lp: nat, hp: nat, j: nat, hi: nat)
  {
    predicate InOrder() { lo <= i <= lp <= hp <= j < hi }

    /** How much there is to look at. */
    function Todo(): int { lp - i + j - hp }
  }

  /** The pointers are at these elements. */
  predicate Points(b: Band, i: nat, lp: nat, hp: nat, j: nat, es: nat)
  {
    i == Pos(b.i, es) && lp == Pos(b.lp, es) && hp == Pos(b.hp, es) && j == Pos(b.j, es)
  }

  /** The elements are split so far, and are those that there were. */
  ghost predicate Parts(c: (seq<int>, seq<int>) -> int, was: seq<seq<int>>, s: seq<seq<int>>, p: seq<int>, b: Band)
  {
    b.InOrder() && Qsort.Split(c, s, p, b.lo, b.i, b.lp, b.hp, b.j, b.hi) && Qsort.Permuted(was, s, b.lo, b.hi)
  }

  lemma PartsSay(c: (seq<int>, seq<int>) -> int, was: seq<seq<int>>, s: seq<seq<int>>, p: seq<int>, b: Band)
    requires Parts(c, was, s, p, b)
    ensures b.InOrder() && b.hi <= |s| && c(s[b.lp], p) == 0 && c(s[b.hp], p) == 0
    ensures Qsort.Split(c, s, p, b.lo, b.i, b.lp, b.hp, b.j, b.hi) && Qsort.Permuted(was, s, b.lo, b.hi)
  {
    Qsort.BandAlike(c, s, p, b.lo, b.i, b.lp, b.hp, b.j, b.hi);
  }

  /** The element at `i` belongs below the band, or in it: it stays, or is put before the band. With one that belongs
      above, nothing is done. */
  method LookLeft(m: array<int>, i: nat, lp: nat, es: nat, cmp: (seq<int>, seq<int>) -> int,
                  ghost at: seq<nat>, ghost b: Band, ghost was: seq<seq<int>>, ghost p: seq<int>)
    returns (c: int, i': nat, lp': nat, ghost b': Band)
    requires Cells(at, es, m.Length) && Layout(at, es, m.Length) && Orders(cmp, es) && b.hi <= |at|
    requires Parts(Extended(cmp, es), was, Elements(m[..], at, es), p, b) && b.i < b.lp
    requires i == Pos(b.i, es) && lp == Pos(b.lp, es)
    modifies m
    ensures Parts(Extended(cmp, es), was, Elements(m[..], at, es), p, b')
    ensures b'.lo == b.lo && b'.hi == b.hi && b'.hp == b.hp && b'.j == b.j && i' == Pos(b'.i, es)
    ensures lp' == Pos(b'.lp, es)
    ensures c <= 0 ==> b'.Todo() < b.Todo()
    ensures c > 0 ==> b' == b && m[..] == old(m[..]) && Extended(cmp, es)(Elements(m[..], at, es)[b.i], p) > 0
  {
    hide Qsort.Preorder, Qsort.Permuted, Qsort.Split, Qsort.Swapped, Cells, Layout, Elements, Pos, Extended, Orders;
    ghost var c0, s := Extended(cmp, es), Elements(m[..], at, es);
    ExtendedOrders(cmp, es);
    CellsLie(at, es, m.Length);
    PartsSay(c0, was, s, p, b);
    i', lp', b' := i, lp, b;
    c := Compare(m, i, lp, es, cmp, at, b.i, b.lp);
    Qsort.AlikeCompare(c0, s[b.i], s[b.lp], p);
    if c == 0 {
      Qsort.LeftAlike(c0, s, p, b.lo, b.i, b.lp, b.hp, b.j, b.hi);
      PosNext(b.lp - 1, es);
      lp', b' := lp - es, b.(lp := b.lp - 1);
      Exchange(m, i, lp', es, at, b.i, b'.lp, was, b.lo, b.hi);
    } else if c < 0 {
      Qsort.LeftUnder(c0, s, p, b.lo, b.i, b.lp, b.hp, b.j, b.hi);
      PosNext(b.i, es);
      i', b' := i + es, b.(i := b.i + 1);
    }
  }

  /** The element at `j` is put behind the band, which it is like. */
  method GrowRight(m: array<int>, hp: nat, j: nat, es: nat, ghost c0: (seq<int>, seq<int>) -> int,
                   ghost at: seq<nat>, ghost b: Band, ghost was: seq<seq<int>>, ghost p: seq<int>)
    returns (hp': nat, ghost b': Band)
    requires Cells(at, es, m.Length) && Layout(at, es, m.Length) && b.hi <= |at|
    requires Parts(c0, was, Elements(m[..], at, es), p, b) && b.hp < b.j && hp == Pos(b.hp, es) && j == Pos(b.j, es)
    requires c0(Elements(m[..], at, es)[b.j], p) == 0
    requires b.i < b.lp ==> c0(Elements(m[..], at, es)[b.i], p) > 0
    modifies m
    ensures Parts(c0, was, Elements(m[..], at, es), p, b') && b' == b.(hp := b.hp + 1) && hp' == Pos(b'.hp, es)
    ensures b.i < b.lp ==> c0(Elements(m[..], at, es)[b.i], p) > 0
  {
    hide Qsort.Permuted, Qsort.Split, Qsort.Swapped, Cells, Layout, Elements, Pos;
    ghost var s := Elements(m[..], at, es);
    PartsSay(c0, was, s, p, b);
    PosNext(b.hp, es);
    Qsort.RightAlike(c0, s, p, b.lo, b.i, b.lp, b.hp, b.j, b.hi);
    hp', b' := hp + es, b.(hp := b.hp + 1);
    Qsort.SwappedElsewhere(s, b'.hp, b.j, b.i);
    Exchange(m, hp', j, es, at, b'.hp, b.j, was, b.lo, b.hi);
  }

  /** With nothing left to look at on the left, the element at `j` goes there and the band moves right. */
  method MoveBandRight(m: array<int>, i: nat, lp: nat, hp: nat, j: nat, es: nat, ghost c0: (seq<int>, seq<int>) -> int,
                       ghost at: seq<nat>, ghost b: Band, ghost was: seq<seq<int>>, ghost p: seq<int>)
    returns (i': nat, lp': nat, hp': nat, ghost b': Band)
    requires Cells(at, es, m.Length) && Layout(at, es, m.Length) && b.hi <= |at|
    requires Parts(c0, was, Elements(m[..], at, es), p, b) && b.hp < b.j && b.i == b.lp && Points(b, i, lp, hp, j, es)
    requires c0(Elements(m[..], at, es)[b.j], p) < 0
    modifies m
    ensures Parts(c0, was, Elements(m[..], at, es), p, b') && Points(b', i', lp', hp', j, es)
    ensures b' == b.(lp := b.lp + 1, i := b.lp + 1, hp := b.hp + 1)
  {
    hide Qsort.Permuted, Qsort.Split, Qsort.Rotated, Cells, Layout, Elements, Pos;
    ghost var s := Elements(m[..], at, es);
    PartsSay(c0, was, s, p, b);
    PosNext(b.hp, es);
    PosNext(b.lp, es);
    Qsort.BandRight(c0, s, p, b.lo, b.lp, b.hp, b.j, b.hi);
    hp' := hp + es;
    Exchange3(m, i, hp', j, es, at, b.i, b.hp + 1, b.j, was, b.lo, b.hi);
    lp' := lp + es;
    i' := lp';
    b' := b.(lp := b.lp + 1, i := b.lp + 1, hp := b.hp + 1);
  }

  /** The elements at `i` and `j` belong on each other's side. */
  method CrossOver(m: array<int>, i: nat, j: nat, es: nat, ghost c0: (seq<int>, seq<int>) -> int,
                   ghost at: seq<nat>, ghost b: Band, ghost was: seq<seq<int>>, ghost p: seq<int>)
    returns (i': nat, j': nat, ghost b': Band)
    requires Cells(at, es, m.Length) && Layout(at, es, m.Length) && b.hi <= |at|
    requires Parts(c0, was, Elements(m[..], at, es), p, b) && b.hp < b.j && b.i < b.lp && i == Pos(b.i, es)
    requires j == Pos(b.j, es)
    requires c0(Elements(m[..], at, es)[b.i], p) > 0 && c0(Elements(m[..], at, es)[b.j], p) < 0
    modifies m
    ensures Parts(c0, was, Elements(m[..], at, es), p, b') && i' == Pos(b'.i, es) && j' == Pos(b'.j, es)
    ensures b' == b.(j := b.j - 1, i := b.i + 1)
  {
    hide Qsort.Permuted, Qsort.Split, Qsort.Swapped, Cells, Layout, Elements, Pos;
    ghost var s := Elements(m[..], at, es);
    PartsSay(c0, was, s, p, b);
    PosNext(b.i, es);
    PosNext(b.j - 1, es);
    Qsort.Crossed(c0, s, p, b.lo, b.i, b.lp, b.hp, b.j, b.hi);
    Exchange(m, i, j, es, at, b.i, b.j, was, b.lo, b.hi);
    j', i', b' := j - es, i + es, b.(j := b.j - 1, i := b.i + 1);
  }

  /** Deals with the element at `j`, when the one at `i`, if not in the band, belongs above it. */
  method LookRight(m: array<int>, i: nat, lp: nat, hp: nat, j: nat, es: nat, cmp: (seq<int>, seq<int>) -> int,
                   ghost at: seq<nat>, ghost b: Band, ghost was: seq<seq<int>>, ghost p: seq<int>)
    returns (inner: bool, i': nat, lp': nat, hp': nat, j': nat, ghost b': Band)
    requires Cells(at, es, m.Length) && Layout(at, es, m.Length) && Orders(cmp, es) && b.hi <= |at|
    requires Parts(Extended(cmp, es), was, Elements(m[..], at, es), p, b) && b.hp < b.j && Points(b, i, lp, hp, j, es)
    requires b.i < b.lp ==> Extended(cmp, es)(Elements(m[..], at, es)[b.i], p) > 0
    modifies m
    ensures Parts(Extended(cmp, es), was, Elements(m[..], at, es), p, b') && Points(b', i', lp', hp', j', es)
    ensures b'.lo == b.lo && b'.hi == b.hi && b'.Todo() < b.Todo()
    ensures inner && b'.i < b'.lp ==> Extended(cmp, es)(Elements(m[..], at, es)[b'.i], p) > 0
  {
    hide Qsort.Preorder, Qsort.Permuted, Qsort.Split, Cells, Layout, Elements, Pos, Extended, Orders;
    ghost var c0, s := Extended(cmp, es), Elements(m[..], at, es);
    ExtendedOrders(cmp, es);
    CellsLie(at, es, m.Length);
    PartsSay(c0, was, s, p, b);
    inner, i', lp', hp', j', b' := true, i, lp, hp, j, b;
    var c := Compare(m, hp, j, es, cmp, at, b.hp, b.j);
    Qsort.AlikeCompare(c0, s[b.j], s[b.hp], p);
    if c == 0 {
      hp', b' := GrowRight(m, hp, j, es, c0, at, b, was, p);
    } else if c > 0 {
      PosOrder(b.i, b.lp, es);
      if i == lp {
        i', lp', hp', b' := MoveBandRight(m, i, lp, hp, j, es, c0, at, b, was, p);
      } else {
        i', j', b' := CrossOver(m, i, j, es, c0, at, b, was, p);
        inner := false;
      }
    } else {
      Qsort.RightOver(c0, s, p, b.lo, b.i, b.lp, b.hp, b.j, b.hi);
      PosNext(b.j - 1, es);
      j', b' := j - es, b.(j := b.j - 1);
    }
  }

  /** With nothing left to look at on the right, the element at `i` goes there and the band moves left. */
  method MoveBandLeft(m: array<int>, i: nat, lp: nat, hp: nat, j: nat, es: nat, ghost c0: (seq<int>, seq<int>) -> int,
                      ghost at: seq<nat>, ghost b: Band, ghost was: seq<seq<int>>, ghost p: seq<int>)
    returns (lp': nat, hp': nat, j': nat, ghost b': Band)
    requires Cells(at, es, m.Length) && Layout(at, es, m.Length) && b.hi <= |at|
    requires Parts(c0, was, Elements(m[..], at, es), p, b) && b.hp == b.j && b.i < b.lp && Points(b, i, lp, hp, j, es)
    requires c0(Elements(m[..], at, es)[b.i], p) > 0
    modifies m
    ensures Parts(c0, was, Elements(m[..], at, es), p, b') && Points(b', i, lp', hp', j', es)
    ensures b'.lo == b.lo && b'.hi == b.hi && b'.Todo() < b.Todo()
  {
    hide Qsort.Permuted, Qsort.Split, Qsort.Rotated, Cells, Layout, Elements, Pos;
    ghost var s := Elements(m[..], at, es);
    PartsSay(c0, was, s, p, b);
    PosNext(b.lp - 1, es);
    PosNext(b.hp - 1, es);
    Qsort.BandLeft(c0, s, p, b.lo, b.i, b.lp, b.hp, b.hi);
    lp' := lp - es;
    Exchange3(m, j, lp', i, es, at, b.j, b.lp - 1, b.i, was, b.lo, b.hi);
    hp' := hp - es;
    j' := hp';
    b' := b.(lp := b.lp - 1, hp := b.hp - 1, j := b.hp - 1);
  }

  /** The pointers at the start of a split. */
  lemma AtStart(lo: nat, hi: nat, es: nat)
    requires lo < hi && es > 0
    ensures var mid := lo + (hi - lo) / 2;
            && lo <= mid < hi && Pos(hi, es) >= Pos(lo, es) + es && Pos(hi - 1, es) == Pos(hi, es) - es
            && Pos(lo, es) + es * ((Pos(hi, es) - Pos(lo, es)) / (2 * es)) == Pos(mid, es)
  {
    PosDiff(lo, hi, es);
    PosDiff(lo, lo + (hi - lo) / 2, es);
    Middle(hi - lo, es);
    PosNext(hi - 1, es);
    PosOrder(lo, hi, es);
  }

  /** The loop of a split, up to where the band takes up all between the two parts. */
  method Partition(m: array<int>, a: nat, l: nat, es: nat, cmp: (seq<int>, seq<int>) -> int,
                   ghost at: seq<nat>, ghost lo: nat, ghost hi: nat)
    returns (lp: nat, hp: nat, ghost elp: nat, ghost ehp: nat, ghost p: seq<int>)
    requires Cells(at, es, m.Length) && Layout(at, es, m.Length) && Orders(cmp, es)
    requires lo < hi <= |at| && a == Pos(lo, es) && l == Pos(hi, es)
    modifies m
    ensures Qsort.Permuted(old(Elements(m[..], at, es)), Elements(m[..], at, es), lo, hi)
    ensures Qsort.Split(Extended(cmp, es), Elements(m[..], at, es), p, lo, elp, elp, ehp, ehp, hi)
    ensures lo <= elp <= ehp < hi && lp == Pos(elp, es) && hp == Pos(ehp, es)
  {
    hide Qsort.Preorder, Qsort.Permuted, Qsort.Split, Cells, Layout, Elements, Pos, Extended, Orders;
    ghost var c0 := Extended(cmp, es);
    ExtendedOrders(cmp, es);
    CellsLie(at, es, m.Length);
    ghost var was := Elements(m[..], at, es);
    AtStart(lo, hi, es);
    lp := a + es * ((l - a) / (2 * es));
    hp := lp;
    var i: nat, j: nat := a, l - es;
    var inner := false;                  // control is at the inner label
    ghost var mid := lo + (hi - lo) / 2;
    ghost var b := Band(lo, lo, mid, mid, hi - 1, hi);
    p := was[mid];
    Qsort.Start(c0, was, lo, mid, hi);
    while true
      invariant b.lo == lo && b.hi == hi && Points(b, i, lp, hp, j, es)
      invariant Parts(c0, was, Elements(m[..], at, es), p, b)
      invariant inner && b.i < b.lp ==> c0(Elements(m[..], at, es)[b.i], p) > 0
      decreases b.Todo()
    {
      PartsSay(c0, was, Elements(m[..], at, es), p, b);
      hide Parts;
      PosOrder(b.i, b.lp, es);
      PosOrder(b.hp, b.j, es);
      if !inner && i < lp {
        var c;
        c, i, lp, b := LookLeft(m, i, lp, es, cmp, at, b, was, p);
        if c <= 0 {
          continue;
        }
      }
      if j > hp {
        inner, i, lp, hp, j, b := LookRight(m, i, lp, hp, j, es, cmp, at, b, was, p);
        continue;
      }
      if i == lp {
        elp, ehp := b.lp, b.hp;
        return;
      }
      lp, hp, j, b := MoveBandLeft(m, i, lp, hp, j, es, c0, at, b, was, p);
      inner := false;
    }
  }

  /** Sorts from `a` up to `l`. It calls itself only on the smaller part and goes on with the larger one, so the
      calls nest no deeper than the logarithm of one more than the number of elements. */
  method Qs1(m: array<int>, a0: nat, l0: nat, es: nat, cmp: (seq<int>, seq<int>) -> int,
             ghost at: seq<nat>, ghost lo0: nat, ghost hi0: nat) returns (ghost depth: nat)
    requires Cells(at, es, m.Length) && Layout(at, es, m.Length) && Orders(cmp, es)
    requires lo0 <= hi0 <= |at| && a0 == Pos(lo0, es) && l0 == Pos(hi0, es)
    modifies m
    ensures Qsort.Permuted(old(Elements(m[..], at, es)), Elements(m[..], at, es), lo0, hi0)
    ensures Qsort.Sorted(Extended(cmp, es), Elements(m[..], at, es), lo0, hi0)
    ensures Qsort.Pow2(depth) <= hi0 - lo0 + 1
    decreases hi0 - lo0
  {
    hide Qsort.Preorder, Qsort.Permuted, Qsort.Sorted, Qsort.Placed, Qsort.Under, Qsort.Alike, Qsort.Over, Cells,
      Layout, Elements,
      Pos, Extended, Orders;
    ghost var c0 := Extended(cmp, es);
    ExtendedOrders(cmp, es);
    CellsLie(at, es, m.Length);
    var a, l := a0, l0;
    ghost var lo, hi := lo0, hi0;
    depth := 0;
    ghost var was := Elements(m[..], at, es);
    Qsort.Begin(c0, was, lo0, hi0);
    while true
      invariant lo0 <= lo <= hi <= hi0 && a == Pos(lo, es) && l == Pos(hi, es)
      invariant Qsort.Permuted(was, Elements(m[..], at, es), lo0, hi0)
      invariant Qsort.Placed(c0, Elements(m[..], at, es), lo0, lo, hi, hi0)
      invariant Qsort.Pow2(depth) <= hi0 - lo0 + 1
      decreases hi - lo
    {
      PosDiff(lo, hi, es);
      PosNext(0, es);
      PosOrder(1, hi - lo, es);
      if l - a <= es {
        break;
      }
      ghost var s := Elements(m[..], at, es);
      var lp, hp;
      ghost var elp, ehp, p, d;
      lp, hp, elp, ehp, p := Partition(m, a, l, es, cmp, at, lo, hi);
      ghost var t := Elements(m[..], at, es);
      Qsort.Wider(was, s, t, lo, hi, lo0, hi0);
      Qsort.PlacedPermuted(c0, s, t, lo0, lo, hi, hi0);
      PosDiff(lo, elp, es);
      PosDiff(ehp, hi, es);
      PosOrder(elp - lo, hi - ehp, es);
      PosNext(ehp, es);
      if lp - a >= l - hp {
        d := Qs1(m, hp + es, l, es, cmp, at, ehp + 1, hi);
        RightSorted(c0, was, t, Elements(m[..], at, es), p, lo0, lo, elp, ehp, hi, hi0);
        l, hi := lp, elp;
      } else {
        d := Qs1(m, a, lp, es, cmp, at, lo, elp);
        LeftSorted(c0, was, t, Elements(m[..], at, es), p, lo0, lo, elp, ehp, hi, hi0);
        a, lo := hp + es, ehp + 1;
      }
      depth := if depth < d + 1 then d + 1 else depth;
    }
    Qsort.Finish(c0, Elements(m[..], at, es), lo0, lo, hi, hi0);
  }

  lemma RightSorted(c: (seq<int>, seq<int>) -> int, was: seq<seq<int>>, t: seq<seq<int>>, u: seq<seq<int>>, p: seq<int>,
                    lo0: nat, lo: nat, lp: nat, hp: nat, hi: nat, hi0: nat)
    requires Qsort.Preorder(c) && lo0 <= lo <= lp <= hp < hi <= hi0 <= |t| == |u|
    requires Qsort.Split(c, t, p, lo, lp, lp, hp, hp, hi) && Qsort.Placed(c, t, lo0, lo, hi, hi0)
    requires Qsort.Permuted(was, t, lo0, hi0) && Qsort.Permuted(t, u, hp + 1, hi) && Qsort.Sorted(c, u, hp + 1, hi)
    ensures Qsort.Permuted(was, u, lo0, hi0) && Qsort.Placed(c, u, lo0, lo, lp, hi0)
  {
    hide Qsort.Preorder, Qsort.Permuted, Qsort.Sorted, Qsort.Placed, Qsort.Under, Qsort.Alike, Qsort.Over;
    Qsort.KeptParts(c, t, u, p, lo, lp, hp, hi, hp + 1, hi);
    Qsort.Wider(was, t, u, hp + 1, hi, lo0, hi0);
    Qsort.PermutedWider(t, u, hp + 1, hi, lo, hi);
    Qsort.PlacedPermuted(c, t, u, lo0, lo, hi, hi0);
    Qsort.RightDone(c, u, p, lo0, lo, lp, hp, hi, hi0);
  }

  lemma LeftSorted(c: (seq<int>, seq<int>) -> int, was: seq<seq<int>>, t: seq<seq<int>>, u: seq<seq<int>>, p: seq<int>,
                   lo0: nat, lo: nat, lp: nat, hp: nat, hi: nat, hi0: nat)
    requires Qsort.Preorder(c) && lo0 <= lo <= lp <= hp < hi <= hi0 <= |t| == |u|
    requires Qsort.Split(c, t, p, lo, lp, lp, hp, hp, hi) && Qsort.Placed(c, t, lo0, lo, hi, hi0)
    requires Qsort.Permuted(was, t, lo0, hi0) && Qsort.Permuted(t, u, lo, lp) && Qsort.Sorted(c, u, lo, lp)
    ensures Qsort.Permuted(was, u, lo0, hi0) && Qsort.Placed(c, u, lo0, hp + 1, hi, hi0)
  {
    hide Qsort.Preorder, Qsort.Permuted, Qsort.Sorted, Qsort.Placed, Qsort.Under, Qsort.Alike, Qsort.Over;
    Qsort.KeptParts(c, t, u, p, lo, lp, hp, hi, lo, lp);
    Qsort.Wider(was, t, u, lo, lp, lo0, hi0);
    Qsort.PermutedWider(t, u, lo, lp, lo, hi);
    Qsort.PlacedPermuted(c, t, u, lo0, lo, hi, hi0);
    Qsort.LeftDone(c, u, p, lo0, lo, lp, hp, hi, hi0);
  }

  /** The bytes of `n` elements of `es` bytes each, as a sequence of elements. */
  function Contents(m: seq<int>, es: nat, n: nat): (r: seq<seq<int>>)
    requires es > 0 && |m| == n * es
    ensures |r| == n
  {
    Regular(es, n);
    Elements(m, Addresses(es, n), es)
  }

  lemma ContentsAt(m: seq<int>, es: nat, n: nat, e: nat)
    requires es > 0 && |m| == n * es && e < n
    ensures e * es + es <= |m| && Contents(m, es, n)[e] == m[e * es..e * es + es]
  {
    Regular(es, n);
  }

  /** The array is sorted by `cmp` as an array of elements of `es` bytes, and its elements are those it had. */
  method Sort(m: array<int>, n: nat, es: nat, cmp: (seq<int>, seq<int>) -> int)
    requires es > 0 && m.Length == n * es && Orders(cmp, es)
    modifies m
    ensures Qsort.Sorted(cmp, Contents(m[..], es, n), 0, n)
    ensures multiset(Contents(m[..], es, n)) == multiset(old(Contents(m[..], es, n)))
  {
    ghost var at := Addresses(es, n);
    Regular(es, n);
    assert Cells(at, es, m.Length);
    hide Orders, Layout;
    var _ := Qs1(m, 0, n * es, es, cmp, at, 0, n);
    Compared(cmp, es, Elements(m[..], at, es), n);
  }

  /** On elements of `es` bytes sorted is sorted by `cmp` itself. */
  lemma Compared(cmp: (seq<int>, seq<int>) -> int, es: nat, s: seq<seq<int>>, n: nat)
    requires |s| == n && Qsort.Sorted(Extended(cmp, es), s, 0, n) && forall e :: 0 <= e < n ==> |s[e]| == es
    ensures Qsort.Sorted(cmp, s, 0, n)
  {
    forall x, y | 0 <= x < y < n
      ensures cmp(s[x], s[y]) <= 0
    {
      assert Extended(cmp, es)(s[x], s[y]) <= 0;
    }
  }
}
