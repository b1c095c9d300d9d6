/** The whole file system as a value, the invariant that ties disk, directory and caches to the
    bytes of every file, and the steps the cache code takes, each of which keeps that invariant. */
module LfsImage {
  import opened LfsLayout
  import opened Ownership
  import opened FileSpec

  datatype Image = Image(
    ib: seq<IBlk>, db: seq<Sector>, dir: Directory, dBase: nat,
    iFree: seq<int>, dFree: seq<int>,
    chains: seq<seq<int>>, blocks: seq<seq<int>>, data: seq<seq<byte>>, views: seq<Cache>,
    iOwn: map<int, Owner>, dOwn: map<int, Owner>)

  ghost predicate Sized(s: Image)
  {
    |s.chains| == |s.blocks| == |s.data| == |s.views| == |s.dir.entries|
  }

  ghost predicate FileOk(s: Image, f: nat)
    requires Sized(s) && f < |s.chains|
  {
    FileInv(s.ib, s.db, s.dir.entries[f], s.views[f], s.chains[f], s.blocks[f], s.data[f])
  }

  /** Every index block and every data sector has one owner, the free lists are linked on disk, and
      each file is denoted by its chain, its blocks and its cache. */
  ghost predicate Consistent(s: Image)
  {
    && Sized(s)
    && Owned(s.iFree, s.chains, s.iOwn, 0, |s.ib|)
    && Owned(s.dFree, s.blocks, s.dOwn, s.dBase, |s.db|)
    && IFreeLinked(s.ib, s.iFree, s.dir.ifree)
    && DFreeLinked(s.db, s.dFree, s.dir.dfree)
    && forall f :: 0 <= f < |s.chains| ==> FileOk(s, f)
  }

  ghost predicate IsOpen(s: Image, f: nat)
  {
    Consistent(s) && f < |s.views| && s.views[f].Open?
  }

  /** The step changes only file `f`, the free lists and blocks that were free or `f`'s. */
  ghost predicate OnlyFile(s: Image, s': Image, f: nat)
    requires f < |s.chains|
  {
    && Sized(s) && Sized(s')
    && |s'.chains| == |s.chains| && |s'.ib| == |s.ib| && |s'.db| == |s.db|
    && (forall g :: 0 <= g < |s.chains| && g != f ==>
          && s'.chains[g] == s.chains[g] && s'.blocks[g] == s.blocks[g] && s'.data[g] == s.data[g]
          && s'.views[g] == s.views[g] && s'.dir.entries[g] == s.dir.entries[g])
    && (forall g, c :: 0 <= g < |s.chains| && g != f && 0 <= c < |s.chains[g]| ==>
          0 <= s.chains[g][c] < |s.ib| && s'.ib[s.chains[g][c]] == s.ib[s.chains[g][c]])
    && (forall g, k :: 0 <= g < |s.chains| && g != f && 0 <= k < |s.blocks[g]| ==>
          0 <= s.blocks[g][k] < |s.db| && s'.db[s.blocks[g][k]] == s.db[s.blocks[g][k]])
  }

  lemma OthersOk(s: Image, s': Image, f: nat)
    requires Consistent(s) && f < |s.chains| && OnlyFile(s, s', f)
    ensures forall g :: 0 <= g < |s.chains| && g != f ==> FileOk(s', g)
  {
    forall g | 0 <= g < |s.chains| && g != f
      ensures FileOk(s', g)
    {
      assert FileOk(s, g);
      FileInvFrame(s.ib, s.db, s'.ib, s'.db, s.dir.entries[g], s.views[g], s.chains[g], s.blocks[g], s.data[g]);
    }
  }

  /** Where the two cached blocks of an open file stand. */
  lemma CachePlaces(s: Image, f: nat)
    requires IsOpen(s, f)
    ensures Sized(s)
    ensures var v := s.views[f];
            && v.pos <= |s.data[f]| && |v.dblock| == BLKSIZ && v.at <= BLKSIZ
            && (v.ibDirty ==> v.inum != INULL)
            && (v.dbDirty ==> v.dnum != DNULL)
            && (v.inum != INULL ==> v.ci < |s.chains[f]| && s.chains[f][v.ci] == v.inum)
            && (v.dnum != DNULL ==> v.di < |s.blocks[f]| && s.blocks[f][v.di] == v.dnum)
  {
    assert FileOk(s, f);
  }

  function WithView(s: Image, f: nat, v: Cache): Image
    requires f < |s.views|
  {
    s.(views := s.views[f := v])
  }

  /** Any change of file `f`'s cache that keeps its own file invariant. */
  lemma ViewStep(s: Image, f: nat, v: Cache)
    requires IsOpen(s, f)
    requires FileInv(s.ib, s.db, s.dir.entries[f], v, s.chains[f], s.blocks[f], s.data[f])
    ensures Consistent(WithView(s, f, v))
  {
    hide Owned, FileInv, IFreeLinked, DFreeLinked;
    InRange(s.dFree, s.blocks, s.dOwn, s.dBase, |s.db|);
    InRange(s.iFree, s.chains, s.iOwn, 0, |s.ib|);
    OthersOk(s, WithView(s, f, v), f);
  }

  function FlushedD(s: Image, f: nat): Image
    requires f < |s.views| && s.views[f].Open? && 0 <= s.views[f].dnum < |s.db|
  {
    var v := s.views[f];
    WithView(s, f, v.(dbDirty := false)).(db := s.db[v.dnum := Data(v.dblock)])
  }

  lemma FlushD(s: Image, f: nat)
    requires IsOpen(s, f) && s.views[f].dbDirty
    ensures 0 <= s.views[f].dnum < |s.db| && Consistent(FlushedD(s, f))
  {
    hide Owned, FileInv, IFreeLinked, DFreeLinked;
    var v := s.views[f];
    CachePlaces(s, f);
    UsedAlone(s.dFree, s.blocks, s.dOwn, s.dBase, |s.db|, f, v.di);
    InRange(s.dFree, s.blocks, s.dOwn, s.dBase, |s.db|);
    InRange(s.iFree, s.chains, s.iOwn, 0, |s.ib|);
    WriteD(s.db, s.dFree, s.dir.dfree, v.dnum, Data(v.dblock));
    assert FileOk(s, f);
    FlushDFile(s.ib, s.db, s.dir.entries[f], v, s.chains[f], s.blocks[f], s.data[f]);
    OthersOk(s, FlushedD(s, f), f);
  }

  function FlushedI(s: Image, f: nat): Image
    requires f < |s.views| && s.views[f].Open? && 0 <= s.views[f].inum < |s.ib|
  {
    var v := s.views[f];
    WithView(s, f, v.(ibDirty := false)).(ib := s.ib[v.inum := v.iblock])
  }

  lemma FlushI(s: Image, f: nat)
    requires IsOpen(s, f) && s.views[f].ibDirty
    ensures 0 <= s.views[f].inum < |s.ib| && Consistent(FlushedI(s, f))
  {
    hide Owned, FileInv, IFreeLinked, DFreeLinked;
    var v := s.views[f];
    CachePlaces(s, f);
    UsedAlone(s.iFree, s.chains, s.iOwn, 0, |s.ib|, f, v.ci);
    InRange(s.dFree, s.blocks, s.dOwn, s.dBase, |s.db|);
    InRange(s.iFree, s.chains, s.iOwn, 0, |s.ib|);
    WriteI(s.ib, s.iFree, s.dir.ifree, v.inum, v.iblock);
    assert FileOk(s, f);
    FlushIFile(s.ib, s.db, s.dir.entries[f], v, s.chains[f], s.blocks[f], s.data[f]);
    OthersOk(s, FlushedI(s, f), f);
  }

  /** The heads of the two free lists are null exactly when those lists are empty. */
  lemma Heads(s: Image)
    requires Consistent(s)
    ensures s.iFree == [] <==> s.dir.ifree == INULL
    ensures s.dFree == [] <==> s.dir.dfree == DNULL
    ensures s.iFree != [] ==> 0 <= s.dir.ifree < |s.ib|
    ensures s.dFree != [] ==> 0 <= s.dir.dfree < |s.db| && s.db[s.dir.dfree].Link?
  {
    hide Owned;
    if s.iFree != [] { PopI(s.ib, s.iFree, s.dir.ifree); }
    if s.dFree != [] { PopD(s.db, s.dFree, s.dir.dfree); }
  }

  lemma Ilist(s: Image, f: nat)
    requires IsOpen(s, f)
    ensures s.dir.entries[f].ilist == First(s.chains[f])
    ensures s.dir.entries[f].size == |s.data[f]|
    ensures s.chains[f] != [] ==> 0 <= s.chains[f][0] < |s.ib|
    ensures s.chains[f] == [] ==> s.views[f].inum == INULL
  {
    assert FileOk(s, f);
  }

  /** Everything of the files other than `f` is as before; blocks moved only between `f` and the free lists. */
  ghost predicate Elsewhere(s: Image, s': Image, f: nat)
  {
    && Sized(s) && Sized(s') && |s'.chains| == |s.chains| && |s'.ib| == |s.ib| && |s'.db| == |s.db|
    && s'.dBase == s.dBase
    && (f < |s.chains| ==>
          && s'.dir.entries[f].name == s.dir.entries[f].name
          && |s'.iFree| + |s'.chains[f]| == |s.iFree| + |s.chains[f]|
          && |s'.dFree| + |s'.blocks[f]| == |s.dFree| + |s.blocks[f]|)
    && forall g :: 0 <= g < |s.chains| && g != f ==>
         && s'.chains[g] == s.chains[g] && s'.blocks[g] == s.blocks[g] && s'.data[g] == s.data[g]
         && s'.views[g] == s.views[g] && s'.dir.entries[g] == s.dir.entries[g]
  }

  /** ... and so are the bytes of `f`. */
  ghost predicate Same(s: Image, s': Image, f: nat)
  {
    Elsewhere(s, s', f) && s'.data == s.data
  }

  lemma AreSized(s: Image)
    requires Consistent(s)
    ensures Sized(s)
  {
  }

  lemma SameRefl(s: Image, f: nat)
    requires Sized(s)
    ensures Same(s, s, f)
  {
  }

  lemma SameSized(s: Image, t: Image, f: nat)
    requires Same(s, t, f)
    ensures Sized(s) && Sized(t) && |t.data| == |s.data| && t.data == s.data
  {
  }

  lemma SameTrans(s: Image, t: Image, u: Image, f: nat)
    requires Same(s, t, f) && Same(t, u, f)
    ensures Same(s, u, f) && Sized(u) && |u.data| == |s.data| && u.data == s.data
  {
  }

  /** Both blocks of file `f`'s cache written back where dirty. */
  ghost function Flushed(s: Image, f: nat): (s': Image)
    requires IsOpen(s, f)
    ensures IsOpen(s', f) && !s'.views[f].ibDirty && !s'.views[f].dbDirty
    ensures Same(s, s', f)
    ensures s'.chains == s.chains && s'.blocks == s.blocks && s'.iFree == s.iFree && s'.dFree == s.dFree
    ensures s'.dir == s.dir
  {
    var s1 := if s.views[f].dbDirty then FlushD(s, f); FlushedD(s, f) else s;
    if s1.views[f].ibDirty then FlushI(s1, f); FlushedI(s1, f) else s1
  }

  /** Reading the c-th index block of the file into the cache. */
  lemma LoadI(s: Image, f: nat, c: nat)
    requires IsOpen(s, f) && !s.views[f].ibDirty && c < |s.chains[f]|
    ensures 0 <= s.chains[f][c] < |s.ib|
    ensures var x := s.chains[f][c];
            && IBlockIs(s.ib[x], s.chains[f], s.blocks[f], c)
            && Consistent(WithView(s, f, s.views[f].(inum := x, iblock := s.ib[x], ci := c)))
  {
    hide Owned;
    assert FileOk(s, f);
    var x := s.chains[f][c];
    ViewStep(s, f, s.views[f].(inum := x, iblock := s.ib[x], ci := c));
  }

  lemma DropD(s: Image, f: nat)
    requires IsOpen(s, f) && !s.views[f].dbDirty && s.views[f].at == BLKSIZ
    ensures Consistent(WithView(s, f, s.views[f].(dnum := DNULL)))
  {
    hide Owned;
    assert FileOk(s, f);
    ViewStep(s, f, s.views[f].(dnum := DNULL));
  }

  /** Reading the k-th data block of the file into the cache. */
  lemma LoadD(s: Image, f: nat, k: nat)
    requires IsOpen(s, f) && !s.views[f].dbDirty && s.views[f].inum != INULL && s.views[f].at == BLKSIZ
    requires k < |s.blocks[f]| && BLKSIZ * k < |s.data[f]|
    ensures 0 <= s.blocks[f][k] < |s.db|
    ensures var y := s.blocks[f][k];
            && s.db[y].Data?
            && Consistent(WithView(s, f, s.views[f].(dnum := y, dblock := s.db[y].bytes, di := k)))
  {
    hide Owned;
    assert FileOk(s, f);
    var y := s.blocks[f][k];
    ViewStep(s, f, s.views[f].(dnum := y, dblock := s.db[y].bytes, di := k));
  }

  /** The head of the index free list becomes the first index block of an empty file. */
  function ChainStarted(s: Image, f: nat): Image
    requires Sized(s) && f < |s.chains| && s.views[f].Open? && s.iFree != [] && 0 <= s.dir.ifree < |s.ib|
  {
    var x, n := s.dir.ifree, |s.iFree| - 1;
    WithView(s, f, s.views[f].(inum := x, iblock := ClearedIBlk(0), ibDirty := true, ci := 0)).(
      dir := s.dir.(ifree := s.ib[x].next, entries := s.dir.entries[f := s.dir.entries[f].(ilist := x)]),
      iFree := s.iFree[..n], chains := s.chains[f := s.chains[f] + [x]],
      iOwn := s.iOwn[x := Used(f, |s.chains[f]|)])
  }

  lemma StartChain(s: Image, f: nat)
    requires IsOpen(s, f) && s.chains[f] == [] && s.iFree != []
    ensures 0 <= s.dir.ifree < |s.ib| && Consistent(ChainStarted(s, f))
  {
    hide Owned, FileInv, IFreeLinked, DFreeLinked;
    assert FileOk(s, f);
    var _ := Take(s.iFree, s.chains, s.iOwn, 0, |s.ib|, f);
    InRange(s.dFree, s.blocks, s.dOwn, s.dBase, |s.db|);
    InRange(s.iFree, s.chains, s.iOwn, 0, |s.ib|);
    PopI(s.ib, s.iFree, s.dir.ifree);
    StartChainFile(s.ib, s.db, s.dir.entries[f], s.views[f], s.blocks[f], s.data[f], s.dir.ifree);
    var s' := ChainStarted(s, f);
    assert s'.chains[f] == [s.dir.ifree];
    OthersOk(s, s', f);
    assert FileOk(s', f);
  }

  /** The cached last index block goes to disk with a link to a new one, which replaces it in the cache. */
  function ChainExtended(s: Image, f: nat): Image
    requires Sized(s) && f < |s.chains| && s.views[f].Open? && s.iFree != [] && 0 <= s.dir.ifree < |s.ib|
    requires 0 <= s.views[f].inum < |s.ib|
  {
    var x, n, v := s.dir.ifree, |s.iFree| - 1, s.views[f];
    WithView(s, f, v.(inum := x, iblock := ClearedIBlk(v.iblock.offset + IDATA), ibDirty := true, dnum := DNULL,
                      ci := v.ci + 1)).(
      ib := s.ib[v.inum := v.iblock.(next := x)], dir := s.dir.(ifree := s.ib[x].next),
      iFree := s.iFree[..n], chains := s.chains[f := s.chains[f] + [x]],
      iOwn := s.iOwn[x := Used(f, |s.chains[f]|)])
  }

  lemma ExtendChain(s: Image, f: nat)
    requires IsOpen(s, f) && !s.views[f].ibDirty && !s.views[f].dbDirty && s.views[f].inum != INULL
    requires s.views[f].at == BLKSIZ && s.views[f].ci + 1 == |s.chains[f]| && s.iFree != []
    ensures 0 <= s.dir.ifree < |s.ib| && 0 <= s.views[f].inum < |s.ib| && s.dir.ifree != s.views[f].inum
    ensures Consistent(ChainExtended(s, f))
  {
    hide Owned, FileInv, IFreeLinked, DFreeLinked;
    var x, v, n := s.dir.ifree, s.views[f], |s.iFree| - 1;
    CachePlaces(s, f);
    PopI(s.ib, s.iFree, x);
    var _ := Take(s.iFree, s.chains, s.iOwn, 0, |s.ib|, f);
    UsedAlone(s.iFree, s.chains, s.iOwn, 0, |s.ib|, f, v.ci);
    FreeAlone(s.iFree, s.chains, s.iOwn, 0, |s.ib|, n);
    InRange(s.dFree, s.blocks, s.dOwn, s.dBase, |s.db|);
    InRange(s.iFree, s.chains, s.iOwn, 0, |s.ib|);
    WriteI(s.ib, s.iFree[..n], s.ib[x].next, v.inum, v.iblock.(next := x));
    assert FileOk(s, f);
    ExtendChainFile(s.ib, s.db, s.dir.entries[f], v, s.chains[f], s.blocks[f], s.data[f], x);
    var s' := ChainExtended(s, f);
    OthersOk(s, s', f);
    assert FileOk(s', f);
  }

  /** The head of the data free list becomes the file's next data block, entered in the cached index block. */
  function BlockAppended(s: Image, f: nat): Image
    requires Sized(s) && f < |s.blocks| && s.views[f].Open? && s.dFree != []
    requires 0 <= s.dir.dfree < |s.db| && s.db[s.dir.dfree].Link? && |s.views[f].iblock.dba| == IBLEN
  {
    var y, n, v, k := s.dir.dfree, |s.dFree| - 1, s.views[f], |s.blocks[f]|;
    WithView(s, f, v.(iblock := v.iblock.(dba := v.iblock.dba[k % IBLEN := y]), ibDirty := true,
                      dnum := y, dblock := seq(BLKSIZ, _ => DFILL), di := k)).(
      dir := s.dir.(dfree := s.db[y].next),
      dFree := s.dFree[..n], blocks := s.blocks[f := s.blocks[f] + [y]], dOwn := s.dOwn[y := Used(f, k)])
  }

  lemma AppendBlock(s: Image, f: nat)
    requires IsOpen(s, f) && !s.views[f].dbDirty && s.views[f].inum != INULL && s.views[f].at == BLKSIZ
    requires s.views[f].ci == |s.blocks[f]| / IBLEN && s.dFree != []
    ensures 0 <= s.dir.dfree < |s.db| && s.db[s.dir.dfree].Link? && |s.views[f].iblock.dba| == IBLEN
    ensures Consistent(BlockAppended(s, f))
  {
    hide Owned, FileInv, IFreeLinked, DFreeLinked;
    assert FileOk(s, f);
    var y, v := s.dir.dfree, s.views[f];
    var _ := Take(s.dFree, s.blocks, s.dOwn, s.dBase, |s.db|, f);
    InRange(s.dFree, s.blocks, s.dOwn, s.dBase, |s.db|);
    InRange(s.iFree, s.chains, s.iOwn, 0, |s.ib|);
    PopD(s.db, s.dFree, y);
    AppendBlockFile(s.ib, s.db, s.dir.entries[f], v, s.chains[f], s.blocks[f], s.data[f], y);
    var s' := BlockAppended(s, f);
    OthersOk(s, s', f);
    assert FileOk(s', f);
  }

  /** One byte goes into the cached data block at the cursor. */
  function ByteStored(s: Image, f: nat, ch: byte): Image
    requires Sized(s) && f < |s.chains| && s.views[f].Open? && s.views[f].pos <= |s.data[f]|
    requires s.views[f].at < |s.views[f].dblock|
  {
    var v := s.views[f];
    var d := Stored(s.data[f], v.pos, ch);
    WithView(s, f, v.(pos := v.pos + 1, at := v.at + 1, dblock := v.dblock[v.at := ch], dbDirty := true)).(
      dir := s.dir.(entries := s.dir.entries[f := s.dir.entries[f].(size := |d|)]), data := s.data[f := d])
  }

  lemma StoreByte(s: Image, f: nat, ch: byte)
    requires IsOpen(s, f) && s.views[f].at < BLKSIZ
    ensures s.views[f].pos <= |s.data[f]| && s.views[f].at < |s.views[f].dblock|
    ensures Consistent(ByteStored(s, f, ch))
  {
    hide Owned, FileInv, IFreeLinked, DFreeLinked;
    assert FileOk(s, f);
    InRange(s.dFree, s.blocks, s.dOwn, s.dBase, |s.db|);
    InRange(s.iFree, s.chains, s.iOwn, 0, |s.ib|);
    StoreByteFile(s.ib, s.db, s.dir.entries[f], s.views[f], s.chains[f], s.blocks[f], s.data[f], ch);
    var s' := ByteStored(s, f, ch);
    OthersOk(s, s', f);
    assert FileOk(s', f);
  }

  /** The cached index block of an open file is the one its place says. */
  lemma CachedIndex(s: Image, f: nat)
    requires IsOpen(s, f) && s.views[f].inum != INULL
    ensures Sized(s) && IBlockIs(s.views[f].iblock, s.chains[f], s.blocks[f], s.views[f].ci)
  {
    assert FileOk(s, f);
  }

  /** Blocks of a file are never the null block, and no block serves two places of the file. */
  lemma BlockPlace(s: Image, f: nat, k: nat)
    requires IsOpen(s, f) && k < |s.blocks[f]|
    ensures 0 <= s.blocks[f][k] < |s.db|
    ensures s.blocks[f][k] == s.views[f].dnum ==> s.views[f].di == k
  {
    assert FileOk(s, f);
    UsedAlone(s.dFree, s.blocks, s.dOwn, s.dBase, |s.db|, f, k);
  }

  lemma ChainPlace(s: Image, f: nat, c: nat)
    requires IsOpen(s, f) && c < |s.chains[f]|
    ensures 0 <= s.chains[f][c] < |s.ib|
  {
    assert FileOk(s, f);
  }

  /** The byte pointer may be set once the cached data block covers the cursor. */
  lemma Aim(s: Image, f: nat)
    requires IsOpen(s, f) && s.views[f].dnum != DNULL && s.views[f].di == s.views[f].pos / BLKSIZ
    ensures Consistent(WithView(s, f, s.views[f].(at := s.views[f].pos % BLKSIZ)))
  {
    hide Owned;
    assert FileOk(s, f);
    ViewStep(s, f, s.views[f].(at := s.views[f].pos % BLKSIZ));
  }

  /** The step spends a data block when it appends at a sector boundary, and an index block as well
      when that is a boundary of index blocks. */
  ghost predicate OutOfBlocks(s: Image, f: nat, pos: nat)
    requires f < |s.data|
  {
    && pos == |s.data[f]| && pos % BLKSIZ == 0
    && (s.dFree == [] || (pos % IDATA == 0 && s.iFree == []))
  }

  /** Every file owns just the blocks its bytes need. */
  ghost predicate AllTight(s: Image)
  {
    && Sized(s)
    && forall f :: 0 <= f < |s.chains| ==> Tight(s.chains[f], s.blocks[f], |s.data[f]|)
  }

  lemma TightElsewhere(s: Image, s': Image, f: nat)
    requires AllTight(s) && Elsewhere(s, s', f)
    requires f < |s.chains| ==> Tight(s'.chains[f], s'.blocks[f], |s'.data[f]|)
    ensures AllTight(s')
  {
  }

  /** With no spare blocks, a byte pointer that is set has a byte's room under it; one at a block
      boundary at the end of the file is never set. */
  lemma PointerSet(s: Image, f: nat)
    requires IsOpen(s, f) && AllTight(s) && s.views[f].at < BLKSIZ
    ensures s.views[f].pos <= |s.data[f]| && !OutOfBlocks(s, f, s.views[f].pos)
    ensures s.views[f].dnum != DNULL && s.views[f].at == s.views[f].pos % BLKSIZ
    ensures Tight(s.chains[f], s.blocks[f], if s.views[f].pos < |s.data[f]| then |s.data[f]| else s.views[f].pos + 1)
  {
    hide Owned, IFreeLinked, DFreeLinked, IndexOk, DataOk;
    assert FileOk(s, f);
  }

  lemma CachedByte(s: Image, f: nat)
    requires IsOpen(s, f) && s.views[f].at < BLKSIZ && s.views[f].pos < |s.data[f]|
    ensures |s.views[f].dblock| == BLKSIZ && s.views[f].dblock[s.views[f].at] == s.data[f][s.views[f].pos]
  {
    hide Owned, IFreeLinked, DFreeLinked;
    assert FileOk(s, f);
    CachedByteFile(s.views[f], s.chains[f], s.blocks[f], s.data[f]);
  }

  /** Moving the cursor on by one byte within the cached block. */
  lemma StepPointer(s: Image, f: nat)
    requires IsOpen(s, f) && s.views[f].at < BLKSIZ && s.views[f].pos < |s.data[f]|
    ensures Consistent(WithView(s, f, s.views[f].(at := s.views[f].at + 1, pos := s.views[f].pos + 1)))
  {
    hide Owned;
    assert FileOk(s, f);
    ViewStep(s, f, s.views[f].(at := s.views[f].at + 1, pos := s.views[f].pos + 1));
  }

  lemma MovePointer(s: Image, f: nat, pos: nat)
    requires IsOpen(s, f) && pos <= |s.data[f]|
    ensures Consistent(WithView(s, f, s.views[f].(at := BLKSIZ, pos := pos)))
  {
    hide Owned;
    assert FileOk(s, f);
    ViewStep(s, f, s.views[f].(at := BLKSIZ, pos := pos));
  }

  lemma TightOf(s: Image, f: nat)
    requires AllTight(s) && f < |s.chains|
    ensures Sized(s) && Tight(s.chains[f], s.blocks[f], |s.data[f]|)
  {
  }

  lemma StoredElsewhere(s: Image, t: Image, f: nat, ch: byte)
    requires Same(s, t, f) && f < |t.chains| && t.views[f].Open?
    requires t.views[f].pos <= |t.data[f]| && t.views[f].at < |t.views[f].dblock|
    ensures Elsewhere(s, ByteStored(t, f, ch), f)
  {
  }

  lemma ViewElsewhere(s: Image, t: Image, f: nat, v: Cache)
    requires Same(s, t, f) && f < |t.views|
    ensures Same(s, WithView(t, f, v), f) && Elsewhere(s, WithView(t, f, v), f)
  {
  }

  lemma ElsewhereRefl(s: Image, f: nat)
    requires Sized(s)
    ensures Elsewhere(s, s, f)
  {
  }

  lemma ElsewhereTrans(s: Image, t: Image, u: Image, f: nat)
    requires Elsewhere(s, t, f) && Elsewhere(t, u, f)
    ensures Elsewhere(s, u, f)
  {
  }

  /** The free lists cannot feed file `f` up to a size of `n` bytes. */
  ghost predicate ShortOfBlocks(s: Image, f: nat, n: nat)
    requires Sized(s) && f < |s.data|
  {
    && n > |s.data[f]|
    && (Blocks(n) - Blocks(|s.data[f]|) > |s.dFree| || IBlocks(n) - IBlocks(|s.data[f]|) > |s.iFree|)
  }

  /** Past the end of a block, another is needed. */
  lemma MoreBlocks(m: nat, n: nat)
    requires m < n
    ensures m % BLKSIZ == 0 ==> Blocks(n) > Blocks(m)
    ensures m % IDATA == 0 ==> IBlocks(n) > IBlocks(m)
  {
    MoreDBlocks(m, n);
    MoreIBlocks(m, n);
    hide Blocks, IBlocks;
  }

  lemma MoreDBlocks(m: nat, n: nat)
    requires m < n
    ensures m % BLKSIZ == 0 ==> Blocks(n) > Blocks(m)
  {
  }

  lemma MoreIBlocks(m: nat, n: nat)
    requires m < n
    ensures m % IDATA == 0 ==> IBlocks(n) > IBlocks(m)
  {
  }

  /** A write that runs out after `i` bytes was short of blocks from the start. */
  lemma Runout(s: Image, t: Image, f: nat, pos: nat, i: nat, n: nat)
    requires AllTight(s) && AllTight(t) && Elsewhere(s, t, f) && f < |s.data| && pos <= |s.data[f]|
    requires |t.data[f]| == if pos + i > |s.data[f]| then pos + i else |s.data[f]|
    requires i < n && OutOfBlocks(t, f, pos + i)
    ensures ShortOfBlocks(s, f, pos + n)
  {
    TightOf(s, f);
    TightOf(t, f);
    MoreBlocks(pos + i, pos + n);
    hide AllTight, Blocks, IBlocks;
  }

  /** A write that went through was not short of blocks. */
  lemma NotShort(s: Image, t: Image, f: nat, pos: nat, i: nat)
    requires AllTight(s) && AllTight(t) && Elsewhere(s, t, f) && f < |s.data| && pos <= |s.data[f]|
    requires |t.data[f]| == if pos + i > |s.data[f]| then pos + i else |s.data[f]|
    ensures !ShortOfBlocks(s, f, pos + i)
  {
    TightOf(s, f);
    TightOf(t, f);
  }

  /** A file whose cache is clean is all on disk. */
  lemma CloseView(s: Image, f: nat)
    requires IsOpen(s, f) && !s.views[f].ibDirty && !s.views[f].dbDirty
    ensures Consistent(WithView(s, f, Closed))
  {
    hide Owned;
    assert FileOk(s, f);
    ViewStep(s, f, Closed);
  }

  /** A fresh handle on a closed file. */
  lemma OpenView(s: Image, f: nat, v: Cache)
    requires Consistent(s) && f < |s.views| && s.views[f].Closed?
    requires v.Open? && v.pos == 0 && v.inum == INULL && v.dnum == DNULL && v.at == BLKSIZ && |v.dblock| == BLKSIZ
    requires !v.ibDirty && !v.dbDirty
    ensures Consistent(WithView(s, f, v))
  {
    hide Owned, IFreeLinked, DFreeLinked;
    InRange(s.dFree, s.blocks, s.dOwn, s.dBase, |s.db|);
    InRange(s.iFree, s.chains, s.iOwn, 0, |s.ib|);
    assert FileOk(s, f);
    OthersOk(s, WithView(s, f, v), f);
    assert FileOk(WithView(s, f, v), f);
  }

  /** The directory with one more, empty, file. */
  function Grown(s: Image, name: string): Image
  {
    s.(dir := s.dir.(entries := s.dir.entries + [Entry(0, INULL, name)]),
       chains := s.chains + [[]], blocks := s.blocks + [[]], data := s.data + [[]], views := s.views + [Closed])
  }

  lemma Grow(s: Image, name: string)
    requires Consistent(s)
    ensures Consistent(Grown(s, name))
    ensures AllTight(s) ==> AllTight(Grown(s, name))
  {
    hide Owned, IFreeLinked, DFreeLinked;
    var t := Grown(s, name);
    NewList(s.dFree, s.blocks, s.dOwn, s.dBase, |s.db|);
    NewList(s.iFree, s.chains, s.iOwn, 0, |s.ib|);
    forall f | 0 <= f < |t.chains|
      ensures FileOk(t, f)
    {
      if f < |s.chains| {
        assert FileOk(s, f);
      }
    }
  }

  /** The c-th index block number reached from `first` along the links on disk. */
  function NthIBlk(ib: seq<IBlk>, first: int, c: nat): int
  {
    if c == 0 then first
    else
      var p := NthIBlk(ib, first, c - 1);
      if 0 <= p < |ib| then ib[p].next else INULL
  }

  /** The byte of a file at `p`, found on disk alone: along the links to an index block, through it to a
      sector; none if the way ends. */
  function DiskByte(ib: seq<IBlk>, db: seq<Sector>, e: Entry, p: nat): (r: int)
  {
    var x := NthIBlk(ib, e.ilist, p / IDATA);
    if !(0 <= x < |ib|) || |ib[x].dba| != IBLEN then EOF else
    var y := ib[x].dba[p % IDATA / BLKSIZ];
    if !(0 <= y < |db|) || !db[y].Data? || |db[y].bytes| != BLKSIZ then EOF else
    db[y].bytes[p % BLKSIZ] as int
  }

  lemma {:induction false} NthIsChain(ib: seq<IBlk>, chain: seq<int>, blocks: seq<int>, c: nat)
    requires IndexOk(ib, chain, blocks, -1) && c < |chain|
    ensures NthIBlk(ib, First(chain), c) == chain[c]
  {
    if c > 0 {
      NthIsChain(ib, chain, blocks, c - 1);
      assert IBlockIs(ib[chain[c - 1]], chain, blocks, c - 1);
    }
  }

  /** The disk alone denotes a closed file: its size is in the directory, each byte is found by the walk. */
  lemma DiskDenotes(s: Image, f: nat, p: nat)
    requires Consistent(s) && f < |s.chains| && s.views[f].Closed? && p < |s.data[f]|
    ensures s.dir.entries[f].size == |s.data[f]|
    ensures DiskByte(s.ib, s.db, s.dir.entries[f], p) == s.data[f][p] as int
  {
    hide Owned, IFreeLinked, DFreeLinked;
    assert FileOk(s, f);
    var c, k, j := p / IDATA, p / BLKSIZ, p % IDATA / BLKSIZ;
    NthIsChain(s.ib, s.chains[f], s.blocks[f], c);
    assert IBlockIs(s.ib[s.chains[f][c]], s.chains[f], s.blocks[f], c);
    assert IBLEN * c + j == k && BLKSIZ * k + p % BLKSIZ == p;
    assert s.ib[s.chains[f][c]].dba[j] == Ptr(s.blocks[f], IBLEN * c + j);
    assert Holds(s.db[s.blocks[f][k]].bytes, s.data[f], k);
  }

  /** No file of a disk is larger than the disk, so on a disk of less than 2^32 bytes the 32-bit size and
      position never wrap. */
  lemma SizeBounded(s: Image, f: nat)
    requires Consistent(s) && f < |s.chains|
    ensures |s.data[f]| <= BLKSIZ * |s.db|
  {
    assert FileOk(s, f);
    var l := s.blocks[f];
    forall i, j | 0 <= i < j < |l|
      ensures l[i] != l[j]
    {
      UsedAlone(s.dFree, s.blocks, s.dOwn, s.dBase, |s.db|, f, i);
    }
    Pigeonhole(l, 0, |s.db|);
  }
}
