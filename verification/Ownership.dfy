/** Who owns a block: a free list or one place in one list of lists. */
module Ownership {

  datatype Owner = Free(at: nat) | Used(file: nat, at: nat)

  /** `own` is the inverse of the free list and the lists taken together: every block of [lo, hi)
      stands at exactly one place, and nothing else stands anywhere. */
  ghost predicate Owned(free: seq<int>, lists: seq<seq<int>>, own: map<int, Owner>, lo: int, hi: int)
  {
    && (forall x :: x in own <==> lo <= x < hi)
    && (forall k :: 0 <= k < |free| ==> free[k] in own && own[free[k]] == Free(k))
    && (forall f, c :: 0 <= f < |lists| && 0 <= c < |lists[f]| ==>
          lists[f][c] in own && own[lists[f][c]] == Used(f, c))
    && (forall x :: x in own ==> Placed(x, own[x], free, lists))
  }

  ghost predicate Placed(x: int, o: Owner, free: seq<int>, lists: seq<seq<int>>)
  {
    match o
    case Free(k) => k < |free| && free[k] == x
    case Used(f, c) => f < |lists| && c < |lists[f]| && lists[f][c] == x
  }

  /** Takes the top of the free list and appends it to list `f`. */
  lemma Take(free: seq<int>, lists: seq<seq<int>>, own: map<int, Owner>, lo: int, hi: int, f: nat)
    returns (own': map<int, Owner>)
    requires Owned(free, lists, own, lo, hi)
    requires free != [] && f < |lists|
    ensures var x := free[|free| - 1];
            && own' == own[x := Used(f, |lists[f]|)]
            && Owned(free[..|free| - 1], lists[f := lists[f] + [x]], own', lo, hi)
  {
    var x := free[|free| - 1];
    own' := own[x := Used(f, |lists[f]|)];
    var free', lists' := free[..|free| - 1], lists[f := lists[f] + [x]];
    forall y | y in own'
      ensures Placed(y, own'[y], free', lists')
    {
      assert Placed(y, own[y], free, lists);
    }
  }

  function Reversed(s: seq<int>): (r: seq<int>)
    ensures |r| == |s|
    ensures forall k :: 0 <= k < |s| ==> r[k] == s[|s| - 1 - k]
  {
    if s == [] then [] else Reversed(s[1..]) + [s[0]]
  }

  /** A block of a list stands nowhere else. */
  lemma UsedAlone(free: seq<int>, lists: seq<seq<int>>, own: map<int, Owner>, lo: int, hi: int, f: nat, c: nat)
    requires Owned(free, lists, own, lo, hi)
    requires f < |lists| && c < |lists[f]|
    ensures lo <= lists[f][c] < hi
    ensures forall k :: 0 <= k < |free| ==> free[k] != lists[f][c]
    ensures forall g, d :: 0 <= g < |lists| && 0 <= d < |lists[g]| && (g != f || d != c) ==> lists[g][d] != lists[f][c]
  {
    assert own[lists[f][c]] == Used(f, c);
  }

  /** A block of the free list stands nowhere else. */
  lemma FreeAlone(free: seq<int>, lists: seq<seq<int>>, own: map<int, Owner>, lo: int, hi: int, k: nat)
    requires Owned(free, lists, own, lo, hi)
    requires k < |free|
    ensures lo <= free[k] < hi
    ensures forall i :: 0 <= i < |free| && i != k ==> free[i] != free[k]
    ensures forall g, d :: 0 <= g < |lists| && 0 <= d < |lists[g]| ==> lists[g][d] != free[k]
  {
    assert own[free[k]] == Free(k);
  }

  lemma InRange(free: seq<int>, lists: seq<seq<int>>, own: map<int, Owner>, lo: int, hi: int)
    requires Owned(free, lists, own, lo, hi)
    ensures forall k :: 0 <= k < |free| ==> lo <= free[k] < hi
    ensures forall g, d :: 0 <= g < |lists| && 0 <= d < |lists[g]| ==> lo <= lists[g][d] < hi
  {
  }

  /** An empty list owns nothing. */
  lemma NewList(free: seq<int>, lists: seq<seq<int>>, own: map<int, Owner>, lo: int, hi: int)
    requires Owned(free, lists, own, lo, hi)
    ensures Owned(free, lists + [[]], own, lo, hi)
  {
    forall x | x in own
      ensures Placed(x, own[x], free, lists + [[]])
    {
      assert Placed(x, own[x], free, lists);
    }
  }

  /** Where a block of list `f` goes when that list is put on a free list of `m` blocks. */
  function Moved(o: Owner, f: nat, m: nat, n: nat, reverse: bool): Owner
  {
    if o.Used? && o.file == f && o.at < n then Free(m + if reverse then n - 1 - o.at else o.at) else o
  }

  ghost function MovedAll(own: map<int, Owner>, f: nat, m: nat, n: nat, reverse: bool): map<int, Owner>
  {
    map x | x in own :: Moved(own[x], f, m, n, reverse)
  }

  /** Puts all of list `f` on the free list, in the same or the opposite order. */
  lemma GiveBack(free: seq<int>, lists: seq<seq<int>>, own: map<int, Owner>, lo: int, hi: int, f: nat, reverse: bool)
    requires Owned(free, lists, own, lo, hi)
    requires f < |lists|
    ensures Owned(free + (if reverse then Reversed(lists[f]) else lists[f]), lists[f := []],
                  MovedAll(own, f, |free|, |lists[f]|, reverse), lo, hi)
  {
    var l, m, n := lists[f], |free|, |lists[f]|;
    var own' := MovedAll(own, f, m, n, reverse);
    var l' := if reverse then Reversed(l) else l;
    var free', lists' := free + l', lists[f := []];
    forall x | x in own'
      ensures Placed(x, own'[x], free', lists')
    {
      assert Placed(x, own[x], free, lists);
    }
    forall k | 0 <= k < |free'|
      ensures free'[k] in own' && own'[free'[k]] == Free(k)
    {
      if k < m {
        assert own[free[k]] == Free(k);
      } else {
        var c := if reverse then n - 1 - (k - m) else k - m;
        assert own[lists[f][c]] == Used(f, c);
      }
    }
    forall g, c | 0 <= g < |lists'| && 0 <= c < |lists'[g]|
      ensures lists'[g][c] in own' && own'[lists'[g][c]] == Used(g, c)
    {
      assert own[lists[g][c]] == Used(g, c);
    }
  }

  /** Numbers from `hi - 1` down to `lo`. */
  function Down(lo: int, hi: int): (r: seq<int>)
    requires lo <= hi
    ensures |r| == hi - lo
    ensures forall k :: 0 <= k < |r| ==> r[k] == hi - 1 - k
  {
    seq(hi - lo, k => hi - 1 - k)
  }

  function AllFree(lo: int, hi: int): (m: map<int, Owner>)
    requires lo <= hi
    ensures forall x :: x in m <==> lo <= x < hi
    ensures forall x :: x in m ==> m[x] == Free(hi - 1 - x)
    decreases hi - lo
  {
    if lo == hi then map[] else AllFree(lo + 1, hi)[lo := Free(hi - 1 - lo)]
  }

  lemma AllFreeOwned(lo: int, hi: int)
    requires lo <= hi
    ensures Owned(Down(lo, hi), [], AllFree(lo, hi), lo, hi)
  {
    hide Down, AllFree;
    var free, own := Down(lo, hi), AllFree(lo, hi);
    forall x | x in own
      ensures Placed(x, own[x], free, [])
    {
      assert own[x] == Free(hi - 1 - x) && free[hi - 1 - x] == x;
    }
  }

  /** Distinct numbers of a range are no more than the range. */
  lemma {:induction false} Pigeonhole(l: seq<int>, lo: int, hi: int)
    requires lo <= hi
    requires forall i :: 0 <= i < |l| ==> lo <= l[i] < hi
    requires forall i, j :: 0 <= i < j < |l| ==> l[i] != l[j]
    ensures |l| <= hi - lo
    decreases hi - lo
  {
    if l != [] {
      assert lo <= l[0] < hi;
      if i :| 0 <= i < |l| && l[i] == hi - 1 {
        Pigeonhole(l[..i] + l[i + 1..], lo, hi - 1);
      } else {
        Pigeonhole(l, lo, hi - 1);
      }
    }
  }
}
