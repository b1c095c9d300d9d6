/** Sorting by splitting at a band of elements equal to the pivot, which grows and moves: what each step does to the
    sequence of elements. */
module Qsort {

  // --- comparison ---

  /** The comparison orders all elements, some perhaps alike. */
  ghost predicate Preorder<T(!new)>(cmp: (T, T) -> int)
  {
    && (forall x, y :: cmp(x, y) > 0 <==> cmp(y, x) < 0)
    && forall x, y, z :: cmp(x, y) <= 0 && cmp(y, z) <= 0 ==> cmp(x, z) <= 0
  }

  function Sign(c: int): int { if c < 0 then -1 else if c > 0 then 1 else 0 }

  /** Comparing with one that is alike gives the same. */
  lemma AlikeCompare<T(!new)>(cmp: (T, T) -> int, x: T, q: T, p: T)
    requires Preorder(cmp) && cmp(q, p) == 0
    ensures Sign(cmp(x, q)) == Sign(cmp(x, p)) && Sign(cmp(q, x)) == -Sign(cmp(x, p))
  {
    assert cmp(p, q) == 0;
    assert cmp(x, q) <= 0 && cmp(q, p) <= 0 ==> cmp(x, p) <= 0;
    assert cmp(x, p) <= 0 && cmp(p, q) <= 0 ==> cmp(x, q) <= 0;
    assert cmp(q, p) <= 0 && cmp(p, x) <= 0 ==> cmp(q, x) <= 0;
    assert cmp(p, q) <= 0 && cmp(q, x) <= 0 ==> cmp(p, x) <= 0;
    assert cmp(q, x) > 0 <==> cmp(x, q) < 0;
    assert cmp(x, q) > 0 <==> cmp(q, x) < 0;
    assert cmp(p, x) > 0 <==> cmp(x, p) < 0;
    assert cmp(x, p) > 0 <==> cmp(p, x) < 0;
  }

  ghost predicate Sorted<T>(cmp: (T, T) -> int, s: seq<T>, lo: nat, hi: nat)
    requires hi <= |s|
  {
    forall x, y :: lo <= x < y < hi ==> cmp(s[x], s[y]) <= 0
  }

  /** Elements `x` up to `y` lie below the pivot, are like it, lie above it. */
  predicate Under<T>(cmp: (T, T) -> int, s: seq<T>, p: T, x: nat, y: nat)
    requires y <= |s|
  {
    forall k :: x <= k < y ==> cmp(s[k], p) < 0
  }

  predicate Alike<T>(cmp: (T, T) -> int, s: seq<T>, p: T, x: nat, y: nat)
    requires y <= |s|
  {
    forall k :: x <= k < y ==> cmp(s[k], p) == 0
  }

  predicate Over<T>(cmp: (T, T) -> int, s: seq<T>, p: T, x: nat, y: nat)
    requires y <= |s|
  {
    forall k :: x <= k < y ==> cmp(s[k], p) > 0
  }

  /** The state of a split: below the pivot up to `i`, like it from `lp` to `hp`, above it behind `j`. */
  ghost predicate Split<T>(cmp: (T, T) -> int, s: seq<T>, p: T, lo: nat, i: nat, lp: nat, hp: nat, j: nat, hi: nat)
  {
    && lo <= i <= lp <= hp <= j < hi <= |s|
    && Under(cmp, s, p, lo, i) && Alike(cmp, s, p, lp, hp + 1) && Over(cmp, s, p, j + 1, hi)
  }

  // --- permutation ---

  /** The elements outside `lo` to `hi` are in place, those inside are the same ones. */
  ghost predicate Permuted<T>(s: seq<T>, t: seq<T>, lo: nat, hi: nat)
  {
    && |s| == |t| && lo <= hi <= |s|
    && s[..lo] == t[..lo] && s[hi..] == t[hi..] && multiset(s) == multiset(t)
  }

  lemma Inside<T>(s: seq<T>, t: seq<T>, lo: nat, hi: nat)
    requires Permuted(s, t, lo, hi)
    ensures multiset(s[lo..hi]) == multiset(t[lo..hi])
  {
    assert s == s[..lo] + s[lo..hi] + s[hi..];
    assert t == t[..lo] + t[lo..hi] + t[hi..];
    assert multiset(s) == multiset(s[..lo]) + multiset(s[lo..hi]) + multiset(s[hi..]);
    assert multiset(t) == multiset(t[..lo]) + multiset(t[lo..hi]) + multiset(t[hi..]);
    Cancel(multiset(s[..lo]), multiset(s[lo..hi]), multiset(t[lo..hi]), multiset(s[hi..]));
  }

  lemma Cancel<T>(a: multiset<T>, x: multiset<T>, y: multiset<T>, b: multiset<T>)
    requires a + x + b == a + y + b
    ensures x == y
  {
    forall e
      ensures x[e] == y[e]
    {
      assert (a + x + b)[e] == (a + y + b)[e];
    }
  }

  /** An element inside was there before. */
  lemma Came<T>(s: seq<T>, t: seq<T>, lo: nat, hi: nat, k: nat) returns (k': nat)
    requires Permuted(s, t, lo, hi) && lo <= k < hi
    ensures lo <= k' < hi && s[k'] == t[k]
  {
    Inside(s, t, lo, hi);
    assert t[k] == t[lo..hi][k - lo];
    assert t[k] in multiset(t[lo..hi]);
    assert t[k] in s[lo..hi];
    var m :| 0 <= m < |s[lo..hi]| && s[lo..hi][m] == t[k];
    k' := lo + m;
  }

  lemma PermutedTrans<T>(s: seq<T>, t: seq<T>, u: seq<T>, lo: nat, hi: nat)
    requires Permuted(s, t, lo, hi) && Permuted(t, u, lo, hi)
    ensures Permuted(s, u, lo, hi)
  {
  }

  lemma PermutedWider<T>(s: seq<T>, t: seq<T>, lo: nat, hi: nat, lo': nat, hi': nat)
    requires Permuted(s, t, lo, hi) && lo' <= lo && hi <= hi' <= |s|
    ensures Permuted(s, t, lo', hi')
  {
    assert s[..lo'] == s[..lo][..lo'];
    assert t[..lo'] == t[..lo][..lo'];
    assert s[hi'..] == s[hi..][hi' - hi..];
    assert t[hi'..] == t[hi..][hi' - hi..];
  }

  function Swapped<T>(s: seq<T>, i: nat, j: nat): (r: seq<T>)
    requires i < |s| && j < |s|
    ensures |r| == |s|
  {
    s[i := s[j]][j := s[i]]
  }

  lemma SwappedPermutes<T>(s: seq<T>, i: nat, j: nat, lo: nat, hi: nat)
    requires lo <= i < hi <= |s| && lo <= j < hi
    ensures Permuted(s, Swapped(s, i, j), lo, hi)
  {
  }

  function Rotated<T>(s: seq<T>, i: nat, j: nat, k: nat): (r: seq<T>)
    requires i < |s| && j < |s| && k < |s|
    ensures |r| == |s|
  {
    Swapped(Swapped(s, i, k), k, j)
  }

  lemma RotatedPermutes<T>(s: seq<T>, i: nat, j: nat, k: nat, lo: nat, hi: nat)
    requires lo <= i < hi <= |s| && lo <= j < hi && lo <= k < hi
    ensures Permuted(s, Rotated(s, i, j, k), lo, hi)
  {
    SwappedPermutes(s, i, k, lo, hi);
    SwappedPermutes(Swapped(s, i, k), k, j, lo, hi);
  }

  // --- one split: every way through the loop keeps the four parts as they should be ---

  lemma LeftAlike<T>(cmp: (T, T) -> int, s: seq<T>, p: T, lo: nat, i: nat, lp: nat, hp: nat, j: nat, hi: nat)
    requires Split(cmp, s, p, lo, i, lp, hp, j, hi) && i < lp && cmp(s[i], p) == 0
    ensures Split(cmp, Swapped(s, i, lp - 1), p, lo, i, lp - 1, hp, j, hi)
  {
  }

  lemma LeftUnder<T>(cmp: (T, T) -> int, s: seq<T>, p: T, lo: nat, i: nat, lp: nat, hp: nat, j: nat, hi: nat)
    requires Split(cmp, s, p, lo, i, lp, hp, j, hi) && i < lp && cmp(s[i], p) < 0
    ensures Split(cmp, s, p, lo, i + 1, lp, hp, j, hi)
  {
  }

  lemma RightAlike<T>(cmp: (T, T) -> int, s: seq<T>, p: T, lo: nat, i: nat, lp: nat, hp: nat, j: nat, hi: nat)
    requires Split(cmp, s, p, lo, i, lp, hp, j, hi) && hp < j && cmp(s[j], p) == 0
    ensures Split(cmp, Swapped(s, hp + 1, j), p, lo, i, lp, hp + 1, j, hi)
  {
  }

  lemma RightOver<T>(cmp: (T, T) -> int, s: seq<T>, p: T, lo: nat, i: nat, lp: nat, hp: nat, j: nat, hi: nat)
    requires Split(cmp, s, p, lo, i, lp, hp, j, hi) && hp < j && cmp(s[j], p) > 0
    ensures Split(cmp, s, p, lo, i, lp, hp, j - 1, hi)
  {
  }

  /** With nothing left to look at on the left, an element that belongs there makes the band move right. */
  lemma BandRight<T>(cmp: (T, T) -> int, s: seq<T>, p: T, lo: nat, lp: nat, hp: nat, j: nat, hi: nat)
    requires Split(cmp, s, p, lo, lp, lp, hp, j, hi) && hp < j && cmp(s[j], p) < 0
    ensures Split(cmp, Rotated(s, lp, hp + 1, j), p, lo, lp + 1, lp + 1, hp + 1, j, hi)
  {
  }

  lemma Crossed<T>(cmp: (T, T) -> int, s: seq<T>, p: T, lo: nat, i: nat, lp: nat, hp: nat, j: nat, hi: nat)
    requires Split(cmp, s, p, lo, i, lp, hp, j, hi) && i < lp && hp < j && cmp(s[i], p) > 0 && cmp(s[j], p) < 0
    ensures Split(cmp, Swapped(s, i, j), p, lo, i + 1, lp, hp, j - 1, hi)
  {
  }

  /** With nothing left to look at on the right, an element that belongs there makes the band move left. */
  lemma BandLeft<T>(cmp: (T, T) -> int, s: seq<T>, p: T, lo: nat, i: nat, lp: nat, hp: nat, hi: nat)
    requires Split(cmp, s, p, lo, i, lp, hp, hp, hi) && i < lp && cmp(s[i], p) > 0
    ensures Split(cmp, Rotated(s, hp, lp - 1, i), p, lo, i, lp - 1, hp - 1, hp - 1, hi)
  {
  }

  lemma Start<T(!new)>(cmp: (T, T) -> int, s: seq<T>, lo: nat, m: nat, hi: nat)
    requires Preorder(cmp) && lo <= m < hi <= |s|
    ensures Split(cmp, s, s[m], lo, lo, m, m, hi - 1, hi) && Permuted(s, s, lo, hi)
  {
  }

  lemma BandAlike<T>(cmp: (T, T) -> int, s: seq<T>, p: T, lo: nat, i: nat, lp: nat, hp: nat, j: nat, hi: nat)
    requires Split(cmp, s, p, lo, i, lp, hp, j, hi)
    ensures lp < |s| && hp < |s| && cmp(s[lp], p) == 0 && cmp(s[hp], p) == 0
  {
  }

  lemma SwappedElsewhere<T>(s: seq<T>, i: nat, j: nat, k: nat)
    requires i < |s| && j < |s| && k < |s| && k != i && k != j
    ensures Swapped(s, i, j)[k] == s[k]
  {
  }

  // --- the whole sort ---

  /** Within `lo0` to `hi0`, all that is below `lo` or from `hi` on stands where it belongs. */
  ghost predicate Placed<T>(cmp: (T, T) -> int, s: seq<T>, lo0: nat, lo: nat, hi: nat, hi0: nat)
    requires hi0 <= |s|
  {
    forall x, y :: lo0 <= x < y < hi0 && (x < lo || y >= hi) ==> cmp(s[x], s[y]) <= 0
  }

  lemma PlacedPermuted<T>(cmp: (T, T) -> int, s: seq<T>, t: seq<T>, lo0: nat, lo: nat, hi: nat, hi0: nat)
    requires lo0 <= lo <= hi <= hi0 <= |s| && Placed(cmp, s, lo0, lo, hi, hi0) && Permuted(s, t, lo, hi)
    ensures Placed(cmp, t, lo0, lo, hi, hi0)
  {
    forall x, y | lo0 <= x < y < hi0 && (x < lo || y >= hi)
      ensures cmp(t[x], t[y]) <= 0
    {
      var x' := FoundAt(s, t, lo, hi, x);
      var y' := FoundAt(s, t, lo, hi, y);
      assert lo0 <= x' < y' < hi0 && (x' < lo || y' >= hi);
    }
  }

  lemma FoundAt<T>(s: seq<T>, t: seq<T>, lo: nat, hi: nat, k: nat) returns (k': nat)
    requires Permuted(s, t, lo, hi) && k < |t|
    ensures k' < |s| && s[k'] == t[k] && (if lo <= k < hi then lo <= k' < hi else k' == k)
  {
    if lo <= k < hi {
      k' := Came(s, t, lo, hi, k);
    } else {
      k' := k;
      if k < lo { assert s[..lo][k] == t[..lo][k]; } else { assert s[hi..][k - hi] == t[hi..][k - hi]; }
    }
  }

  lemma PartsPermuted<T>(cmp: (T, T) -> int, s: seq<T>, t: seq<T>, p: T, lo: nat, hi: nat, x: nat, y: nat)
    requires Permuted(s, t, lo, hi) && y <= |s| && (y <= lo || hi <= x || (x == lo && y == hi))
    ensures Under(cmp, s, p, x, y) ==> Under(cmp, t, p, x, y)
    ensures Alike(cmp, s, p, x, y) ==> Alike(cmp, t, p, x, y)
    ensures Over(cmp, s, p, x, y) ==> Over(cmp, t, p, x, y)
  {
    hide Permuted;
    assert |t| == |s| by { SameLength(s, t, lo, hi); }
    forall k | x <= k < y
      ensures exists k' :: x <= k' < y && t[k] == s[k']
    {
      var k' := FoundAt(s, t, lo, hi, k);
    }
  }

  lemma SameLength<T>(s: seq<T>, t: seq<T>, lo: nat, hi: nat)
    requires Permuted(s, t, lo, hi)
    ensures |t| == |s|
  {
  }

  /** The three parts are in order with each other. */
  lemma Across<T(!new)>(cmp: (T, T) -> int, s: seq<T>, p: T, lo: nat, lp: nat, hp: nat, hi: nat, x: nat, y: nat)
    requires Preorder(cmp) && lo <= lp <= hp < hi <= |s| && lo <= x < y < hi
    requires Under(cmp, s, p, lo, lp) && Alike(cmp, s, p, lp, hp + 1) && Over(cmp, s, p, hp + 1, hi)
    requires x <= hp && y >= lp
    ensures cmp(s[x], s[y]) <= 0
  {
    assert cmp(s[x], p) <= 0;
    assert cmp(p, s[y]) <= 0;
  }

  lemma RightDone<T(!new)>(cmp: (T, T) -> int, s: seq<T>, p: T, lo0: nat, lo: nat, lp: nat, hp: nat, hi: nat, hi0: nat)
    requires Preorder(cmp) && lo0 <= lo <= lp <= hp < hi <= hi0 <= |s| && Placed(cmp, s, lo0, lo, hi, hi0)
    requires Under(cmp, s, p, lo, lp) && Alike(cmp, s, p, lp, hp + 1) && Over(cmp, s, p, hp + 1, hi)
    requires Sorted(cmp, s, hp + 1, hi)
    ensures Placed(cmp, s, lo0, lo, lp, hi0)
  {
    hide Preorder, Under, Alike, Over;
    forall x, y | lo0 <= x < y < hi0 && (x < lo || y >= lp)
      ensures cmp(s[x], s[y]) <= 0
    {
      if lo <= x <= hp && y < hi { Across(cmp, s, p, lo, lp, hp, hi, x, y); }
    }
  }

  lemma LeftDone<T(!new)>(cmp: (T, T) -> int, s: seq<T>, p: T, lo0: nat, lo: nat, lp: nat, hp: nat, hi: nat, hi0: nat)
    requires Preorder(cmp) && lo0 <= lo <= lp <= hp < hi <= hi0 <= |s| && Placed(cmp, s, lo0, lo, hi, hi0)
    requires Under(cmp, s, p, lo, lp) && Alike(cmp, s, p, lp, hp + 1) && Over(cmp, s, p, hp + 1, hi)
    requires Sorted(cmp, s, lo, lp)
    ensures Placed(cmp, s, lo0, hp + 1, hi, hi0)
  {
    hide Preorder, Under, Alike, Over;
    forall x, y | lo0 <= x < y < hi0 && (x < hp + 1 || y >= hi)
      ensures cmp(s[x], s[y]) <= 0
    {
      if lo <= x && lp <= y < hi { Across(cmp, s, p, lo, lp, hp, hi, x, y); }
    }
  }

  function Pow2(n: nat): nat { if n == 0 then 1 else 2 * Pow2(n - 1) }

  lemma Begin<T>(cmp: (T, T) -> int, s: seq<T>, l: nat, h: nat)
    requires l <= h <= |s|
    ensures Permuted(s, s, l, h) && Placed(cmp, s, l, l, h, h)
  {
  }

  lemma Finish<T>(cmp: (T, T) -> int, s: seq<T>, l: nat, lo: nat, hi: nat, h: nat)
    requires l <= lo <= hi <= h <= |s| && hi - lo <= 1 && Placed(cmp, s, l, lo, hi, h)
    ensures Sorted(cmp, s, l, h)
  {
  }

  lemma Wider<T>(was: seq<T>, s: seq<T>, t: seq<T>, lo: nat, hi: nat, l: nat, h: nat)
    requires Permuted(s, t, lo, hi) && l <= lo && hi <= h <= |s| && Permuted(was, s, l, h)
    ensures Permuted(was, t, l, h)
  {
    PermutedWider(s, t, lo, hi, l, h);
    PermutedTrans(was, s, t, l, h);
  }

  /** Sorting one part leaves all three parts what they are. */
  lemma KeptParts<T>(cmp: (T, T) -> int, t: seq<T>, u: seq<T>, p: T, lo: nat, lp: nat, hp: nat, hi: nat, x: nat, y: nat)
    requires Split(cmp, t, p, lo, lp, lp, hp, hp, hi) && Permuted(t, u, x, y)
    requires (x == hp + 1 && y == hi) || (x == lo && y == lp)
    ensures |u| == |t| && Under(cmp, u, p, lo, lp) && Alike(cmp, u, p, lp, hp + 1) && Over(cmp, u, p, hp + 1, hi)
  {
    SameLength(t, u, x, y);
    hide Under, Alike, Over, Permuted;
    PartsPermuted(cmp, t, u, p, x, y, lo, lp);
    PartsPermuted(cmp, t, u, p, x, y, lp, hp + 1);
    PartsPermuted(cmp, t, u, p, x, y, hp + 1, hi);
  }
}
