/** Truncating a file: its data blocks go to the free list one by one, its chain of index blocks as a
    whole, by linking the last one to the head of their free list. */
module LfsTruncate {
  import opened Codes
  import opened LfsLayout
  import opened Ownership
  import opened LfsImage
  import opened LocalFileSystem
  import opened FileSpec

  function Min(a: nat, b: nat): nat { if a < b then a else b }

  /** `db` is the disk of `s` after the first `m` data blocks of file `f` were put on the free list. */
  ghost predicate DataFreed(s: Image, db: seq<Sector>, head: int, f: nat, m: nat)
    requires Sized(s) && f < |s.blocks|
  {
    && m <= |s.blocks[f]| && |db| == |s.db|
    && DFreeLinked(db, s.dFree + s.blocks[f][..m], head)
    && forall g, k :: 0 <= g < |s.blocks| && g != f && 0 <= k < |s.blocks[g]| ==>
         0 <= s.blocks[g][k] < |db| && db[s.blocks[g][k]] == s.db[s.blocks[g][k]]
  }

  /** `ib` is the index area of `s` after the first `c` index blocks of file `f` were cleared. */
  ghost predicate IndexFreed(s: Image, ib: seq<IBlk>, f: nat, c: nat)
    requires Sized(s) && f < |s.chains|
  {
    && c <= |s.chains[f]| && |ib| == |s.ib|
    && (forall d :: 0 <= d < |s.chains[f]| ==>
          0 <= s.chains[f][d] < |ib| && if d < c then ib[s.chains[f][d]].next == Onward(s.chains[f], d + 1, s.dir.ifree)
                                        else ib[s.chains[f][d]] == s.ib[s.chains[f][d]])
    && (forall k :: 0 <= k < |s.iFree| ==> 0 <= s.iFree[k] < |ib| && ib[s.iFree[k]] == s.ib[s.iFree[k]])
    && (forall g, d :: 0 <= g < |s.chains| && g != f && 0 <= d < |s.chains[g]| ==>
          0 <= s.chains[g][d] < |ib| && ib[s.chains[g][d]] == s.ib[s.chains[g][d]])
  }

  /** The d-th block of a chain that goes on at `head`. */
  ghost function Onward(chain: seq<int>, d: nat, head: int): int
  {
    if d < |chain| then chain[d] else head
  }

  lemma FreedOne(s: Image, db: seq<Sector>, head: int, f: nat, m: nat)
    requires Consistent(s) && f < |s.blocks| && m < |s.blocks[f]|
    requires DataFreed(s, db, head, f, m)
    ensures 0 <= s.blocks[f][m] < |db|
    ensures DataFreed(s, db[s.blocks[f][m] := Link(head)], s.blocks[f][m], f, m + 1)
  {
    hide Owned, FileInv, DFreeLinked, IFreeLinked;
    var y, l := s.blocks[f][m], s.dFree + s.blocks[f][..m];
    UsedAlone(s.dFree, s.blocks, s.dOwn, s.dBase, |s.db|, f, m);
    PushD(db, l, head, y);
    assert s.dFree + s.blocks[f][..m + 1] == l + [y];
  }

  /** Puts data block `dnum` on the free list. */
  method FreeDBlk(fs: LocalFs, dnum: nat)
    requires dnum < |fs.db|
    modifies fs`db, fs`dir, fs`diskDir
    ensures fs.db == old(fs.db)[dnum := Link(old(fs.dir).dfree)]
    ensures fs.dir == old(fs.dir).(dfree := dnum) && fs.diskDir == fs.dir
  {
    var next := fs.dir.dfree;
    fs.dir := fs.dir.(dfree := dnum);
    fs.db := fs.db[dnum := Link(next)];
    fs.diskDir := fs.dir;
  }

  /** Frees the data blocks that one index block, the file's c-th, points to. */
  method FreePointers(fs: LocalFs, iblock: IBlk, ghost s: Image, ghost f: nat, ghost c: nat) returns (cleared: IBlk)
    requires Consistent(s) && f < |s.blocks| && IBlockIs(iblock, s.chains[f], s.blocks[f], c)
    requires DataFreed(s, fs.db, fs.dir.dfree, f, Min(IBLEN * c, |s.blocks[f]|))
    modifies fs`db, fs`dir, fs`diskDir
    ensures DataFreed(s, fs.db, fs.dir.dfree, f, Min(IBLEN * (c + 1), |s.blocks[f]|))
    ensures fs.dir == old(fs.dir).(dfree := fs.dir.dfree)
    ensures cleared == iblock.(dba := seq(IBLEN, _ => DNULL))
  {
    hide Consistent, DataFreed;
    cleared := iblock;
    BlocksInRange(s, f);
    for i := 0 to IBLEN
      invariant cleared == iblock.(dba := cleared.dba) && |cleared.dba| == IBLEN
      invariant forall j :: 0 <= j < i ==> cleared.dba[j] == DNULL
      invariant forall j :: i <= j < IBLEN ==> cleared.dba[j] == iblock.dba[j]
      invariant fs.dir == old(fs.dir).(dfree := fs.dir.dfree)
      invariant DataFreed(s, fs.db, fs.dir.dfree, f, Min(IBLEN * c + i, |s.blocks[f]|))
    {
      var nextdb := cleared.dba[i];
      assert nextdb == Ptr(s.blocks[f], IBLEN * c + i);
      if nextdb != DNULL {
        FreedOne(s, fs.db, fs.dir.dfree, f, IBLEN * c + i);
        FreeDBlk(fs, nextdb);
      }
      cleared := cleared.(dba := cleared.dba[i := DNULL]);
    }
  }

  lemma BlocksInRange(s: Image, f: nat)
    requires Consistent(s) && f < |s.blocks|
    ensures Sized(s)
    ensures forall k :: 0 <= k < |s.blocks[f]| ==> 0 <= s.blocks[f][k] < |s.db|
  {
    assert FileOk(s, f);
  }

  /** The file system with file `f` emptied, its blocks on the free lists. */
  ghost function Emptied(s: Image, ib: seq<IBlk>, db: seq<Sector>, dfree: int, f: nat, v: Cache): Image
    requires Sized(s) && f < |s.chains|
  {
    s.(ib := ib, db := db,
       dir := s.dir.(dfree := dfree, ifree := First(s.chains[f]),
                     entries := s.dir.entries[f := s.dir.entries[f].(size := 0, ilist := INULL)]),
       iFree := s.iFree + Reversed(s.chains[f]), dFree := s.dFree + s.blocks[f],
       chains := s.chains[f := []], blocks := s.blocks[f := []], data := s.data[f := []], views := s.views[f := v],
       iOwn := MovedAll(s.iOwn, f, |s.iFree|, |s.chains[f]|, true),
       dOwn := MovedAll(s.dOwn, f, |s.dFree|, |s.blocks[f]|, false))
  }

  /** A chain whose last block links to the head of the free list, put before that list. */
  lemma ChainSpliced(ib: seq<IBlk>, free: seq<int>, head: int, chain: seq<int>)
    requires IFreeLinked(ib, free, head) && chain != []
    requires forall d :: 0 <= d < |chain| ==>
               0 <= chain[d] < |ib| && ib[chain[d]].next == Onward(chain, d + 1, head)
    ensures IFreeLinked(ib, free + Reversed(chain), chain[0])
  {
    hide Reversed;
    var r := Reversed(chain);
    forall k | 0 <= k < |free + r|
      ensures 0 <= (free + r)[k] < |ib| && ib[(free + r)[k]].next == Below(free + r, k)
    {
      SplicedAt(free, r, chain, head, k);
    }
  }

  lemma SplicedAt(free: seq<int>, r: seq<int>, chain: seq<int>, head: int, k: nat)
    requires |r| == |chain| && chain != [] && head == Top(free) && k < |free| + |r|
    requires forall i :: 0 <= i < |chain| ==> r[i] == chain[|chain| - 1 - i]
    ensures k < |free| ==> (free + r)[k] == free[k] && Below(free + r, k) == Below(free, k)
    ensures k >= |free| ==>
              var d := |chain| - 1 - (k - |free|);
              (free + r)[k] == chain[d] && Below(free + r, k) == Onward(chain, d + 1, head)
  {
  }

  lemma Empty(s: Image, ib: seq<IBlk>, db: seq<Sector>, dfree: int, f: nat, v: Cache)
    requires Consistent(s) && f < |s.chains| && s.chains[f] != []
    requires IndexFreed(s, ib, f, |s.chains[f]|) && DataFreed(s, db, dfree, f, |s.blocks[f]|)
    requires v.Closed? || (v.pos == 0 && v.inum == INULL && v.dnum == DNULL && v.at == BLKSIZ && |v.dblock| == BLKSIZ
                           && !v.ibDirty && !v.dbDirty)
    ensures Consistent(Emptied(s, ib, db, dfree, f, v))
  {
    hide Owned, FileInv, DFreeLinked, IFreeLinked;
    var t := Emptied(s, ib, db, dfree, f, v);
    GiveBack(s.iFree, s.chains, s.iOwn, 0, |s.ib|, f, true);
    GiveBack(s.dFree, s.blocks, s.dOwn, s.dBase, |s.db|, f, false);
    FreeKept(s.ib, ib, s.iFree, s.dir.ifree);
    ChainSpliced(ib, s.iFree, s.dir.ifree, s.chains[f]);
    assert s.blocks[f][..|s.blocks[f]|] == s.blocks[f];
    OthersOk(s, t, f);
    EmptyFile(t.ib, t.db, t.dir.entries[f], v);
    assert FileOk(t, f);
  }

  lemma FreeKept(ib: seq<IBlk>, ib': seq<IBlk>, free: seq<int>, head: int)
    requires IFreeLinked(ib, free, head) && |ib'| == |ib|
    requires forall k :: 0 <= k < |free| ==> 0 <= free[k] < |ib| && ib'[free[k]] == ib[free[k]]
    ensures IFreeLinked(ib', free, head)
  {
  }

  lemma EmptyFile(ib: seq<IBlk>, db: seq<Sector>, e: Entry, v: Cache)
    requires e.size == 0 && e.ilist == INULL
    requires v.Closed? || (v.pos == 0 && v.inum == INULL && v.dnum == DNULL && v.at == BLKSIZ && |v.dblock| == BLKSIZ
                           && !v.ibDirty && !v.dbDirty)
    ensures FileInv(ib, db, e, v, [], [], [])
  {
  }

  lemma ClearedOne(s: Image, ib: seq<IBlk>, f: nat, c: nat, b: IBlk)
    requires Consistent(s) && f < |s.chains| && c < |s.chains[f]| && IndexFreed(s, ib, f, c)
    requires b.next == Onward(s.chains[f], c + 1, s.dir.ifree)
    ensures 0 <= s.chains[f][c] < |ib| && IndexFreed(s, ib[s.chains[f][c] := b], f, c + 1)
  {
    hide Owned, FileInv, DFreeLinked, IFreeLinked;
    UsedAlone(s.iFree, s.chains, s.iOwn, 0, |s.ib|, f, c);
  }

  lemma Untouched(s: Image, f: nat)
    requires Consistent(s) && f < |s.chains|
    ensures Sized(s) && IndexFreed(s, s.ib, f, 0) && DataFreed(s, s.db, s.dir.dfree, f, 0)
  {
    hide Owned, FileInv, DFreeLinked, IFreeLinked;
    InRange(s.dFree, s.blocks, s.dOwn, s.dBase, |s.db|);
    InRange(s.iFree, s.chains, s.iOwn, 0, |s.ib|);
    assert s.dFree + s.blocks[f][..0] == s.dFree;
  }

  /** What the walk sees at the file's c-th index block: the block, and an end only where the chain ends. */
  lemma WalkAt(s: Image, ib: seq<IBlk>, f: nat, c: nat)
    requires Consistent(s) && f < |s.chains| && c <= |s.chains[f]| && IndexFreed(s, ib, f, c)
    requires !(s.views[f].Open? && s.views[f].ibDirty)
    ensures |s.blocks[f]| <= IBLEN * |s.chains[f]|
    ensures c < |s.chains[f]| ==>
              && 0 <= s.chains[f][c] < |ib| && s.chains[f][c] != s.dir.ifree
              && IBlockIs(ib[s.chains[f][c]], s.chains[f], s.blocks[f], c)
              && (c + 1 < |s.chains[f]| ==> s.chains[f][c + 1] != INULL)
  {
    hide Owned, DFreeLinked;
    assert FileOk(s, f);
    if c < |s.chains[f]| {
      UsedAlone(s.iFree, s.chains, s.iOwn, 0, |s.ib|, f, c);
      if s.iFree != [] { PopI(s.ib, s.iFree, s.dir.ifree); }
    }
  }

  /** Clears the chain of index blocks and links its end to the free list. */
  method FreeChain(fs: LocalFs, firstib: int, ifree: int, ghost s: Image, ghost f: nat)
    requires Consistent(s) && f < |s.chains| && !(s.views[f].Open? && s.views[f].ibDirty)
    requires fs.ib == s.ib && fs.db == s.db && fs.dir.dfree == s.dir.dfree
    requires firstib == First(s.chains[f]) && s.chains[f] != [] && ifree == s.dir.ifree
    modifies fs`ib, fs`db, fs`dir, fs`diskDir
    ensures Sized(s) && |fs.ib| == |s.ib| && |fs.db| == |s.db|
    ensures IndexFreed(s, fs.ib, f, |s.chains[f]|) && DataFreed(s, fs.db, fs.dir.dfree, f, |s.blocks[f]|)
    ensures fs.dir == old(fs.dir).(dfree := fs.dir.dfree)
  {
    hide Consistent, IndexFreed, DataFreed, IBlockIs;
    AreSized(s);
    Untouched(s, f);
    ghost var c, n := 0, |s.chains[f]|;
    var nextib := firstib;
    WalkAt(s, fs.ib, f, 0);
    while nextib != ifree
      invariant c <= n && nextib == Onward(s.chains[f], c, s.dir.ifree)
      invariant IndexFreed(s, fs.ib, f, c)
      invariant DataFreed(s, fs.db, fs.dir.dfree, f, Min(IBLEN * c, |s.blocks[f]|))
      invariant fs.dir == old(fs.dir).(dfree := fs.dir.dfree)
      decreases n - c
    {
      WalkAt(s, fs.ib, f, c);
      NextOf(fs.ib[nextib], s.chains[f], s.blocks[f], c);
      var iblock := FreePointers(fs, fs.ib[nextib], s, f, c);
      iblock := iblock.(offset := 0);
      if iblock.next == INULL {
        iblock := iblock.(next := ifree);
      }
      ClearedOne(s, fs.ib, f, c, iblock);
      fs.ib := fs.ib[nextib := iblock];
      nextib := iblock.next;
      c := c + 1;
    }
    WalkAt(s, fs.ib, f, c);
    FreedSizes(s, fs.ib, fs.db, fs.dir.dfree, f);
  }

  lemma FreedSizes(s: Image, ib: seq<IBlk>, db: seq<Sector>, head: int, f: nat)
    requires Sized(s) && f < |s.chains|
    requires IndexFreed(s, ib, f, |s.chains[f]|) && DataFreed(s, db, head, f, |s.blocks[f]|)
    ensures |ib| == |s.ib| && |db| == |s.db|
  {
  }

  lemma NextOf(b: IBlk, chain: seq<int>, blocks: seq<int>, c: nat)
    requires IBlockIs(b, chain, blocks, c)
    ensures b.next == if c + 1 < |chain| then chain[c + 1] else INULL
  {
  }

  /** Empties a non-empty file whose cache is clean. */
  method Discard(fs: LocalFs, h: FileHandle)
    requires fs.Ready(h) && h.used && !h.ibDirty && !h.dbDirty && fs.img.chains[h.entry] != []
    modifies fs`ib, fs`db, fs`dir, fs`diskDir, fs`dirDirty, fs`img, h`pos, h`inum, h`dnum, h`at
    ensures fs.Ready(h) && fs.dirDirty && h.pos == 0
    ensures |fs.ib| == old(|fs.ib|) && |fs.db| == old(|fs.db|) && Sized(old(fs.img))
    ensures fs.img == Emptied(old(fs.img), fs.ib, fs.db, fs.dir.dfree, h.entry, fs.img.views[h.entry])
  {
    hide Consistent, IndexFreed, DataFreed;
    ghost var f, s := h.entry, fs.img;
    CachePlaces(s, f);
    Ilist(s, f);
    h.pos := 0;
    h.inum := INULL;
    h.dnum := DNULL;
    h.at := BLKSIZ;
    var ifree := fs.dir.ifree;
    var firstib := fs.dir.entries[h.entry].ilist;
    fs.dir := fs.dir.(entries := fs.dir.entries[h.entry := fs.dir.entries[h.entry].(size := 0, ilist := INULL)]);
    fs.dirDirty := true;
    FreeChain(fs, firstib, ifree, s, f);
    fs.dir := fs.dir.(ifree := firstib);
    fs.dirDirty := true;
    ghost var v := s.views[f].(pos := 0, inum := INULL, dnum := DNULL, at := BLKSIZ);
    Empty(s, fs.ib, fs.db, fs.dir.dfree, f, v);
    fs.img := Emptied(s, fs.ib, fs.db, fs.dir.dfree, f, v);
  }

  /** Empties the file of an open handle. */
  method Truncate(fs: LocalFs, h: FileHandle) returns (r: int)
    requires fs.Valid(h) && h.used
    modifies fs, h`pos, h`inum, h`dnum, h`at, h`ibDirty, h`dbDirty
    ensures r == OK && fs.Valid(h)
    ensures old(fs.File(h)).data == [] ==> unchanged(fs) && unchanged(h)
    ensures old(fs.File(h)).data != [] ==> fs.File(h) == Cursor([], 0) && fs.dirDirty
    ensures old(fs.File(h)).data != [] ==>
              && fs.img.iFree == old(fs.img.iFree) + Reversed(old(fs.img.chains[h.entry]))
              && fs.img.dFree == old(fs.img.dFree) + old(fs.img.blocks[h.entry])
    ensures Elsewhere(old(fs.img), fs.img, h.entry)
  {
    hide Consistent, AllTight, Same, Elsewhere;
    ghost var f, s0 := h.entry, fs.img;
    CachePlaces(s0, f);
    Ilist(s0, f);
    SameRefl(s0, f);
    ElsewhereRefl(s0, f);
    TightOf(s0, f);
    if fs.dir.entries[h.entry].size == 0 {
      return OK;
    }
    if h.ibDirty || h.dbDirty {
      var _ := fs.Flush(h);
    }
    ghost var s := fs.img;
    SameSized(s0, s, f);
    Discard(fs, h);
    EmptiedElsewhere(s0, s, fs.ib, fs.db, fs.dir.dfree, f, fs.img.views[f]);
    TightElsewhere(s0, fs.img, f);
    r := OK;
  }

  lemma EmptiedElsewhere(s0: Image, s: Image, ib: seq<IBlk>, db: seq<Sector>, dfree: int, f: nat, v: Cache)
    requires Same(s0, s, f) && f < |s.chains| && |ib| == |s.ib| && |db| == |s.db|
    ensures Elsewhere(s0, Emptied(s, ib, db, dfree, f, v), f)
  {
  }
}
