/** The local file system's open-file operations: byte reads and writes through a cache of one
    index block and one data block. */
module LocalFileSystem {
  import opened Codes
  import opened LfsLayout
  import opened Ownership
  import opened LfsImage
  import opened FileSpec

  /** Control block of an open file. `at` is the byte pointer's offset in `dblock`. */
  class FileHandle {
    var used: bool
    var entry: nat
    var pos: nat
    var inum: int
    var iblock: IBlk
    var dnum: int
    var dblock: seq<byte>
    var at: nat
    var ibDirty: bool
    var dbDirty: bool

    /** A free handle. */
    constructor ()
      ensures !used && |dblock| == BLKSIZ
    {
      used, pos, inum, dnum, at, ibDirty, dbDirty := false, 0, INULL, 0, BLKSIZ, false, false;
      entry, iblock, dblock := 0, IBlk(0, 0, seq(IBLEN, _ => 0)), seq(BLKSIZ, _ => 0);
    }

    ghost predicate Shows(v: Cache)
      reads this
    {
      && used && v.Open?
      && v.pos == pos && v.inum == inum && v.iblock == iblock && v.dnum == dnum && v.dblock == dblock
      && v.at == at && v.ibDirty == ibDirty && v.dbDirty == dbDirty
    }
  }

  /** What a handle keeps of the name of its file: the copy never moves its target, so that the final null character
      overwrites every other one. */
  const KEPTNAME := ""

  predicate AnyUsed(hs: seq<FileHandle>)
    reads hs
  {
    exists i :: 0 <= i < |hs| && hs[i].used
  }

  function FirstFree(hs: seq<FileHandle>): (i: nat)
    reads hs
    ensures i <= |hs| && (i < |hs| ==> !hs[i].used) && forall j :: 0 <= j < i ==> hs[j].used
  {
    if hs == [] || !hs[0].used then 0 else 1 + FirstFree(hs[1..])
  }

  /** The handle on which a file is opened: the first free one. There is none for the name that a handle in use has. */
  function HandleFor(hs: seq<FileHandle>, name: string): (r: int)
    reads hs
    ensures r != SYSERR ==> 0 <= r < |hs| && !hs[r].used
  {
    if (name == KEPTNAME && AnyUsed(hs)) || FirstFree(hs) == |hs| then SYSERR else FirstFree(hs)
  }

  /** Goes over all handles, for one in use that has the name and for the first free one. */
  method FindHandle(hs: seq<FileHandle>, name: string) returns (next: int)
    ensures next == HandleFor(hs, name)
  {
    next := SYSERR;
    for i := 0 to |hs|
      invariant next == SYSERR ==> forall j :: 0 <= j < i ==> hs[j].used
      invariant next != SYSERR ==> 0 <= next < i && !hs[next].used && forall j :: 0 <= j < next ==> hs[j].used
      invariant name == KEPTNAME ==> forall j :: 0 <= j < i ==> !hs[j].used
    {
      if !hs[i].used {
        if next == SYSERR {
          next := i;
        }
      } else if name == KEPTNAME {
        return SYSERR;
      }
    }
    assert next != SYSERR ==> FirstFree(hs) == next;
  }

  lemma ChainExtendedSame(s: Image, f: nat)
    requires Sized(s) && f < |s.chains| && s.views[f].Open? && s.iFree != [] && 0 <= s.dir.ifree < |s.ib|
    requires 0 <= s.views[f].inum < |s.ib|
    ensures Same(s, ChainExtended(s, f), f)
  {
  }

  lemma BlockAppendedSame(s: Image, f: nat)
    requires Sized(s) && f < |s.chains| && s.views[f].Open? && s.dFree != [] && 0 <= s.dir.dfree < |s.db|
    requires s.db[s.dir.dfree].Link? && |s.views[f].iblock.dba| == IBLEN
    ensures Same(s, BlockAppended(s, f), f)
  {
  }

  /** How many index blocks file `f` has, and which of them is in its cache. */
  ghost function Count(s: Image, f: nat): nat { if f < |s.chains| then |s.chains[f]| else 0 }

  ghost function CachedAt(s: Image, f: nat): int { if f < |s.views| && s.views[f].Open? then s.views[f].ci else -1 }

  /** The cache went on to the next index block of file `f`, a new one if there was none. */
  ghost predicate SteppedOn(s: Image, t: Image, f: nat, iblock: IBlk, dirty: bool)
  {
    && f < |s.chains| == |t.chains| == |t.blocks| && f < |t.views| && t.views[f].Open?
    && t.dFree == s.dFree && t.blocks == s.blocks && t.views[f].ci == CachedAt(s, f) + 1
    && IBlockIs(iblock, t.chains[f], t.blocks[f], t.views[f].ci)
    && if CachedAt(s, f) + 1 == |s.chains[f]| then |t.chains[f]| == |s.chains[f]| + 1
       else !dirty && t.chains == s.chains && t.iFree == s.iFree
  }

  /** Index block `c` of file `f` is in its cache; the file was given one if it had none before `c`. */
  ghost predicate SteppedTo(s: Image, t: Image, f: nat, c: nat)
  {
    && t.dFree == s.dFree && t.blocks == s.blocks && CachedAt(t, f) == c
    && Count(t, f) == if Count(s, f) == c then c + 1 else Count(s, f)
  }

  /** The first index block of file `f`, or a later one not past the cursor, is in its cache. */
  ghost predicate HasIndex(s: Image, t: Image, f: nat, pos: nat, dirty: bool)
  {
    && t.dFree == s.dFree && t.blocks == s.blocks && 0 <= CachedAt(t, f) <= pos / IDATA
    && if Count(s, f) == 0 then Count(t, f) == 1 && CachedAt(t, f) == 0
       else t.chains == s.chains && t.iFree == s.iFree && !dirty
  }

  /** The disk, its in-memory directory, and the files they hold. */
  class LocalFs {
    var ib: seq<IBlk>        // index area, by index block number
    var db: seq<Sector>      // sectors, by sector number
    var diskDir: Directory   // sector of the directory
    var dir: Directory
    var dirDirty: bool
    ghost var img: Image

    /** The disk and directory are the image's, the image is consistent, and `h`, if in use, is the
        handle whose cache it records. */
    ghost predicate Ready(h: FileHandle)
      reads this, h
    {
      && img.ib == ib && img.db == db && img.dir == dir
      && Consistent(img)
      && (h.used ==> h.entry < |img.views| && h.Shows(img.views[h.entry]))
    }

    /** The invariant between calls. */
    ghost predicate Valid(h: FileHandle)
      reads this, h
    {
      Ready(h) && AllTight(img)
    }

    /** The directory on disk is current unless marked dirty. */
    ghost predicate Saved()
      reads this
    {
      dirDirty || diskDir == dir
    }

    /** Takes a disk whose directory is in its sector and whose files are all closed. */
    constructor (ib: seq<IBlk>, db: seq<Sector>, diskDir: Directory, ghost s: Image)
      requires Consistent(s) && AllTight(s) && s.ib == ib && s.db == db && s.dir == diskDir
      ensures img == s && this.ib == ib && this.db == db && dir == diskDir == this.diskDir && !dirDirty
      ensures forall h: FileHandle :: !h.used ==> Valid(h)
    {
      this.ib, this.db, this.diskDir, this.dir, this.dirDirty, this.img := ib, db, diskDir, diskDir, false, s;
    }

    method WriteData(h: FileHandle)
      requires Ready(h) && h.used && h.dbDirty
      modifies this`db, this`img, h`dbDirty
      ensures Ready(h) && !h.dbDirty
      ensures old(0 <= h.dnum < |img.db|) && img == FlushedD(old(img), h.entry)
    {
      hide Consistent;
      CachePlaces(img, h.entry);
      FlushD(img, h.entry);
      db := db[h.dnum := Data(h.dblock)];
      h.dbDirty := false;
      img := FlushedD(img, h.entry);
    }

    method WriteIndex(h: FileHandle)
      requires Ready(h) && h.used && h.ibDirty
      modifies this`ib, this`img, h`ibDirty
      ensures Ready(h) && !h.ibDirty
      ensures old(0 <= h.inum < |img.ib|) && img == FlushedI(old(img), h.entry)
    {
      hide Consistent;
      CachePlaces(img, h.entry);
      FlushI(img, h.entry);
      ib := ib[h.inum := h.iblock];
      h.ibDirty := false;
      img := FlushedI(img, h.entry);
    }

    method Flush(h: FileHandle) returns (r: int)
      requires Ready(h)
      modifies this`db, this`ib, this`diskDir, this`dirDirty, this`img, h`ibDirty, h`dbDirty
      ensures Ready(h)
      ensures r == if h.used then OK else SYSERR
      ensures !h.used ==> unchanged(this) && unchanged(h)
      ensures h.used ==>
                && diskDir == (if old(dirDirty) then dir else old(diskDir))
                && !dirDirty && !h.ibDirty && !h.dbDirty
                && img == Flushed(old(img), h.entry)
    {
      hide Consistent;
      if !h.used {
        return SYSERR;
      }
      if dirDirty {
        diskDir := dir;
        dirDirty := false;
      }
      if h.dbDirty {
        WriteData(h);
      }
      if h.ibDirty {
        WriteIndex(h);
      }
      r := OK;
    }

    /** Reads index block `n`, the file's c-th, into the cache. */
    method ReadIndex(h: FileHandle, n: int, ghost c: nat)
      requires Ready(h) && h.used && !h.ibDirty
      requires c < |img.chains[h.entry]| && n == img.chains[h.entry][c]
      modifies this`img, h`iblock, h`inum
      ensures Ready(h)
      ensures 0 <= n < |ib| && IBlockIs(h.iblock, img.chains[h.entry], img.blocks[h.entry], c)
      ensures Same(old(img), img, h.entry)
      ensures img == WithView(old(img), h.entry, old(img).views[h.entry].(inum := n, iblock := ib[n], ci := c))
    {
      hide Consistent, IBlockIs;
      ghost var f := h.entry;
      CachePlaces(img, f);
      LoadI(img, f, c);
      h.iblock := ib[n];
      h.inum := n;
      img := WithView(img, f, img.views[f].(inum := n, iblock := ib[n], ci := c));
    }

    /** Takes the head of the free list of index blocks; panics when there is none. */
    method AllocIBlk() returns (panicked: bool, ibnum: int)
      requires dir.ifree == INULL || 0 <= dir.ifree < |ib|
      modifies this`dir, this`diskDir, this`dirDirty
      ensures panicked <==> old(dir.ifree) == INULL
      ensures panicked ==> unchanged(this)
      ensures !panicked ==>
                && ibnum == old(dir.ifree) && dir == old(dir).(ifree := ib[ibnum].next)
                && diskDir == dir && !dirDirty
    {
      ibnum := dir.ifree;
      if ibnum == INULL {
        return true, ibnum;
      }
      dir := dir.(ifree := ib[ibnum].next);
      diskDir := dir;
      dirDirty := false;
      panicked := false;
    }

    /** Takes the head of the free list of data blocks and gives a filled buffer for it. */
    method AllocDBlk() returns (panicked: bool, dnum: int, buff: seq<byte>)
      requires dir.dfree == DNULL || (0 <= dir.dfree < |db| && db[dir.dfree].Link?)
      modifies this`dir, this`diskDir, this`dirDirty
      ensures panicked <==> old(dir.dfree) == DNULL
      ensures panicked ==> unchanged(this)
      ensures !panicked ==>
                && dnum == old(dir.dfree) && dir == old(dir).(dfree := db[dnum].next)
                && diskDir == dir && !dirDirty && buff == seq(BLKSIZ, _ => DFILL)
    {
      dnum := dir.dfree;
      buff := [];
      if dnum == DNULL {
        return true, dnum, buff;
      }
      dir := dir.(dfree := db[dnum].next);
      diskDir := dir;
      dirDirty := false;
      buff := seq(BLKSIZ, _ => DFILL);
      panicked := false;
    }

    /** Gives an empty file its first index block. */
    method StartFile(h: FileHandle) returns (panicked: bool)
      requires Ready(h) && h.used && img.chains[h.entry] == []
      modifies this`dir, this`diskDir, this`dirDirty, this`img, h`iblock, h`inum, h`ibDirty
      ensures panicked <==> old(img.iFree) == []
      ensures !panicked ==> Ready(h)
      ensures !panicked ==> old(Sized(img) && 0 <= img.dir.ifree < |img.ib|) && img == ChainStarted(old(img), h.entry)
    {
      hide Consistent;
      CachePlaces(img, h.entry);
      Heads(img);
      var ibnum;
      panicked, ibnum := AllocIBlk();
      if panicked {
        return;
      }
      StartChain(img, h.entry);
      h.iblock := ClearedIBlk(0);
      dir := dir.(entries := dir.entries[h.entry := dir.entries[h.entry].(ilist := ibnum)]);
      h.ibDirty := true;
      h.inum := ibnum;
      img := ChainStarted(img, h.entry);
    }

    /** Adds an index block at the end of the chain, writing the old last one with its link. */
    method ExtendFile(h: FileHandle) returns (panicked: bool)
      requires Ready(h) && h.used && h.at == BLKSIZ && !h.dbDirty && !h.ibDirty && h.inum != INULL
      requires img.views[h.entry].ci + 1 == |img.chains[h.entry]|
      modifies this`dir, this`diskDir, this`dirDirty, this`ib, this`img, h`iblock, h`inum, h`ibDirty, h`dnum
      ensures panicked <==> old(img.iFree) == []
      ensures !panicked ==> Ready(h) && Same(old(img), img, h.entry)
      ensures !panicked ==>
                && old(Sized(img) && 0 <= img.dir.ifree < |img.ib| && 0 <= img.views[h.entry].inum < |img.ib|)
                && img == ChainExtended(old(img), h.entry)
    {
      hide Consistent, Same, IBlockIs, AllTight, Tight, ClearedIBlk;
      CachePlaces(img, h.entry);
      Heads(img);
      var ibnum;
      panicked, ibnum := AllocIBlk();
      if panicked {
        return;
      }
      ExtendChain(img, h.entry);
      ChainExtendedSame(img, h.entry);
      h.iblock := h.iblock.(next := ibnum);
      ib := ib[h.inum := h.iblock];
      h.inum := ibnum;
      var newoffset := h.iblock.offset + IDATA;
      h.iblock := ClearedIBlk(newoffset);
      h.ibDirty := true;
      h.dnum := DNULL;
      img := ChainExtended(img, h.entry);
    }

    /** Gives the file its next data block, entered in the cached index block. */
    method AddBlock(h: FileHandle, dindex: nat) returns (panicked: bool)
      requires Ready(h) && h.used && h.at == BLKSIZ && !h.dbDirty && h.inum != INULL
      requires img.views[h.entry].ci == |img.blocks[h.entry]| / IBLEN && dindex == |img.blocks[h.entry]| % IBLEN
      modifies this`dir, this`diskDir, this`dirDirty, this`img, h`iblock, h`ibDirty, h`dnum, h`dblock
      ensures panicked <==> old(img.dFree) == []
      ensures !panicked ==> Ready(h) && Same(old(img), img, h.entry)
      ensures !panicked ==>
                && old(Sized(img) && 0 <= img.dir.dfree < |img.db| && img.db[img.dir.dfree].Link?
                       && |img.views[h.entry].iblock.dba| == IBLEN)
                && img == BlockAppended(old(img), h.entry)
    {
      hide Consistent, Same;
      CachePlaces(img, h.entry);
      Heads(img);
      var dnum, buff;
      panicked, dnum, buff := AllocDBlk();
      if panicked {
        return;
      }
      AppendBlock(img, h.entry);
      BlockAppendedSame(img, h.entry);
      h.dblock := buff;
      h.iblock := h.iblock.(dba := h.iblock.dba[dindex := dnum]);
      h.ibDirty := true;
      h.dnum := dnum;
      img := BlockAppended(img, h.entry);
    }

    /** Brings the first index block of the file into the cache, if none is there or the cursor lies
        before the one that is. */
    method LoadFirst(h: FileHandle) returns (panicked: bool)
      requires Ready(h) && h.used && h.at == BLKSIZ && !h.ibDirty && !h.dbDirty
      modifies this`dir, this`diskDir, this`dirDirty, this`img, h`iblock, h`inum, h`ibDirty
      ensures panicked <==> old(Count(img, h.entry) == 0 && img.iFree == [])
      ensures !panicked ==> Ready(h) && h.inum != INULL && Same(old(img), img, h.entry)
      ensures !panicked ==> HasIndex(old(img), img, h.entry, h.pos, h.ibDirty)
      ensures old(Count(img, h.entry)) > 0 ==>
                unchanged(this`dir) && unchanged(this`diskDir) && unchanged(this`dirDirty)
    {
      hide Consistent;
      ghost var f := h.entry;
      CachePlaces(img, f);
      Ilist(img, f);
      panicked := false;
      if h.inum == INULL {
        if dir.entries[h.entry].ilist == INULL {
          panicked := StartFile(h);
        } else {
          ReadIndex(h, dir.entries[h.entry].ilist, 0);
        }
      } else if h.pos < h.iblock.offset {
        ReadIndex(h, dir.entries[h.entry].ilist, 0);
      } else {
        CachedIndex(img, f);
      }
    }

    /** One step along the chain, past its end onto a new index block if need be. */
    method NextIndex(h: FileHandle) returns (panicked: bool)
      requires Ready(h) && h.used && h.at == BLKSIZ && !h.dbDirty && !h.ibDirty && h.inum != INULL
      modifies this`dir, this`diskDir, this`dirDirty, this`ib, this`img, h`iblock, h`inum, h`ibDirty, h`dnum
      ensures panicked <==> old(CachedAt(img, h.entry) + 1 == Count(img, h.entry) && img.iFree == [])
      ensures !panicked ==> Ready(h) && Same(old(img), img, h.entry) && h.inum != INULL
      ensures !panicked ==> SteppedOn(old(img), img, h.entry, h.iblock, h.ibDirty)
      ensures old(CachedAt(img, h.entry) + 1 < Count(img, h.entry)) ==>
                unchanged(this`dir) && unchanged(this`diskDir) && unchanged(this`dirDirty)
    {
      hide Consistent;
      ghost var f := h.entry;
      CachePlaces(img, f);
      CachedIndex(img, f);
      var ibnum := h.iblock.next;
      ghost var c := img.views[f].ci;
      if c + 1 < |img.chains[f]| { ChainPlace(img, f, c + 1); }
      if ibnum == INULL {
        panicked := ExtendFile(h);
        if panicked {
          return;
        }
        CachedIndex(img, f);
      } else {
        ReadIndex(h, ibnum, c + 1);
        DropD(img, f);
        h.dnum := DNULL;
        img := WithView(img, f, img.views[f].(dnum := DNULL));
        panicked := false;
      }
    }

    /** Follows the chain to the index block that covers the cursor, extending the file if there is none. */
    method Advance(h: FileHandle) returns (panicked: bool)
      requires Ready(h) && h.used && h.at == BLKSIZ && !h.dbDirty && h.inum != INULL
      requires CachedAt(img, h.entry) <= h.pos / IDATA <= Count(img, h.entry)
      requires h.ibDirty ==> CachedAt(img, h.entry) == h.pos / IDATA
      modifies this`dir, this`diskDir, this`dirDirty, this`ib, this`img, h`iblock, h`inum, h`ibDirty, h`dnum
      ensures panicked <==> old(Count(img, h.entry) == h.pos / IDATA && img.iFree == [])
      ensures !panicked ==> Ready(h) && Same(old(img), img, h.entry) && h.inum != INULL
      ensures !panicked ==> SteppedTo(old(img), img, h.entry, h.pos / IDATA)
      ensures old(Count(img, h.entry) > h.pos / IDATA) ==>
                unchanged(this`dir) && unchanged(this`diskDir) && unchanged(this`dirDirty)
    {
      hide Consistent, Same;
      ghost var f, goal := h.entry, h.pos / IDATA;
      CachePlaces(img, f);
      CachedIndex(img, f);
      SameRefl(img, f);
      ghost var n := |img.chains[f]|;
      while h.pos / IDATA * IDATA > h.iblock.offset
        invariant Ready(h) && Same(old(img), img, f) && h.inum != INULL
        invariant f < |img.chains| == |img.blocks|
        invariant img.dFree == old(img.dFree) && img.blocks == old(img.blocks)
        invariant IBlockIs(h.iblock, img.chains[f], img.blocks[f], img.views[f].ci)
        invariant img.views[f].ci <= goal && img.views[f].ci < |img.chains[f]|
        invariant h.ibDirty ==> img.views[f].ci == goal
        invariant if |img.chains[f]| == n
                  then && img.iFree == old(img.iFree)
                       && unchanged(this`dir) && unchanged(this`diskDir) && unchanged(this`dirDirty)
                  else n == goal && |img.chains[f]| == n + 1 && img.views[f].ci == goal && old(img.iFree) != []
        decreases goal - img.views[f].ci
      {
        ghost var before := img;
        panicked := NextIndex(h);
        if panicked {
          return;
        }
        CachePlaces(img, f);
        SameTrans(old(img), before, img, f);
      }
      panicked := false;
    }

    /** Reads the file's k-th data block, sector `dnum`, into the cache. */
    method ReadData(h: FileHandle, dnum: int, ghost k: nat)
      requires Ready(h) && h.used && h.at == BLKSIZ && !h.dbDirty && h.inum != INULL
      requires k < |img.blocks[h.entry]| && dnum == img.blocks[h.entry][k] && BLKSIZ * k < |img.data[h.entry]|
      modifies this`img, h`dblock, h`dbDirty, h`dnum
      ensures Ready(h) && Same(old(img), img, h.entry)
      ensures h.dnum == dnum != DNULL && !h.dbDirty && img.views[h.entry].di == k
      ensures img == WithView(old(img), h.entry, img.views[h.entry])
    {
      hide Consistent;
      ghost var f := h.entry;
      CachePlaces(img, f);
      BlockPlace(img, f, k);
      LoadD(img, f, k);
      h.dblock := db[dnum].bytes;
      h.dbDirty := false;
      h.dnum := dnum;
      img := WithView(img, f, img.views[f].(dnum := dnum, dblock := db[dnum].bytes, di := k));
    }

    /** Sets the byte pointer to the cursor's place in the cached data block. */
    method AimPointer(h: FileHandle)
      requires Ready(h) && h.used && h.dnum != DNULL && img.views[h.entry].di == h.pos / BLKSIZ
      modifies this`img, h`at
      ensures Ready(h) && h.at == h.pos % BLKSIZ && Same(old(img), img, h.entry)
      ensures img == WithView(old(img), h.entry, img.views[h.entry])
    {
      hide Consistent;
      CachePlaces(img, h.entry);
      Aim(img, h.entry);
      h.at := h.pos % BLKSIZ;
      img := WithView(img, h.entry, img.views[h.entry].(at := h.pos % BLKSIZ));
    }

    /** Brings the data block under the cursor into the cache, adding one to the file if there is none,
        and sets the byte pointer. */
    method Fetch(h: FileHandle) returns (panicked: bool)
      requires Ready(h) && h.used && h.at == BLKSIZ && !h.dbDirty && h.inum != INULL
      requires img.views[h.entry].ci == h.pos / IDATA
      requires h.pos / BLKSIZ <= |img.blocks[h.entry]|
      requires h.pos / BLKSIZ < |img.blocks[h.entry]| ==> h.pos / BLKSIZ * BLKSIZ < |img.data[h.entry]|
      modifies this`dir, this`diskDir, this`dirDirty, this`img, h`iblock, h`ibDirty, h`dnum, h`dblock, h`dbDirty, h`at
      ensures panicked <==> old(|img.blocks[h.entry]| == h.pos / BLKSIZ && img.dFree == [])
      ensures !panicked ==> Ready(h) && Same(old(img), img, h.entry)
      ensures !panicked ==>
                && h.at == h.pos % BLKSIZ
                && img.chains == old(img.chains)
                && |img.blocks[h.entry]| == (if old(|img.blocks[h.entry]|) == h.pos / BLKSIZ then h.pos / BLKSIZ + 1
                                             else old(|img.blocks[h.entry]|))
      ensures old(|img.blocks[h.entry]| > h.pos / BLKSIZ) ==>
                unchanged(this`dir) && unchanged(this`diskDir) && unchanged(this`dirDirty)
    {
      hide Consistent, Same;
      ghost var f, k := h.entry, h.pos / BLKSIZ;
      CachePlaces(img, f);
      CachedIndex(img, f);
      SameRefl(img, f);
      var dindex := h.pos % IDATA / BLKSIZ;
      var dnum := h.iblock.dba[dindex];
      assert dnum == Ptr(img.blocks[f], IBLEN * (h.pos / IDATA) + dindex) && IBLEN * (h.pos / IDATA) + dindex == k;
      panicked := false;
      if k < |img.blocks[f]| { BlockPlace(img, f, k); }
      if dnum == DNULL {
        panicked := AddBlock(h, dindex);
        if panicked {
          return;
        }
      } else if dnum != h.dnum {
        ReadData(h, dnum, k);
      }
      ghost var before := img;
      AimPointer(h);
      SameTrans(old(img), before, img, f);
    }

    /** Finds the index block and then the data block under the cursor. */
    method Locate(h: FileHandle) returns (panicked: bool)
      requires Ready(h) && h.used && h.at == BLKSIZ && !h.ibDirty && !h.dbDirty
      requires Tight(img.chains[h.entry], img.blocks[h.entry], |img.data[h.entry]|)
      modifies this, h`iblock, h`inum, h`ibDirty, h`dnum, h`dblock, h`dbDirty, h`at
      ensures panicked <==> old(OutOfBlocks(img, h.entry, h.pos))
      ensures !panicked ==> Ready(h) && Same(old(img), img, h.entry) && h.at == h.pos % BLKSIZ
      ensures !panicked ==> Tight(img.chains[h.entry], img.blocks[h.entry],
                                  if h.pos < |img.data[h.entry]| then |img.data[h.entry]| else h.pos + 1)
      ensures old(h.pos < |img.data[h.entry]|) ==>
                unchanged(this`dir) && unchanged(this`diskDir) && unchanged(this`dirDirty)
    {
      hide Consistent, Same, Tight;
      ghost var f, s0 := h.entry, img;
      CachePlaces(s0, f);
      TightAt(s0.chains[f], s0.blocks[f], |s0.data[f]|, h.pos);
      panicked := LoadFirst(h);
      if panicked {
        return;
      }
      ghost var s1 := img;
      SameSized(s0, s1, f);
      panicked := Advance(h);
      if panicked {
        return;
      }
      ghost var s2 := img;
      SameTrans(s0, s1, s2, f);
      panicked := Fetch(h);
      if panicked {
        return;
      }
      SameTrans(s0, s2, img, f);
      TightAfter(s0.chains[f], s0.blocks[f], img.chains[f], img.blocks[f], |s0.data[f]|, h.pos);
    }

    /** Brings the blocks under the cursor into the cache, extending the file when the cursor is at its
        end on a block boundary. The bytes of every file stay what they were. */
    method Setup(h: FileHandle) returns (panicked: bool)
      requires Ready(h) && h.used && h.at == BLKSIZ
      requires Tight(img.chains[h.entry], img.blocks[h.entry], |img.data[h.entry]|)
      modifies this, h`iblock, h`inum, h`ibDirty, h`dnum, h`dblock, h`dbDirty, h`at
      ensures panicked <==> old(OutOfBlocks(img, h.entry, h.pos))
      ensures !panicked ==> Ready(h) && Same(old(img), img, h.entry) && h.at == h.pos % BLKSIZ
      ensures !panicked ==> Tight(img.chains[h.entry], img.blocks[h.entry],
                                  if h.pos < |img.data[h.entry]| then |img.data[h.entry]| else h.pos + 1)
      ensures !panicked && old(h.pos < |img.data[h.entry]|) ==> Saved() == old(Saved())
    {
      hide Consistent, Same, Tight;
      ghost var f, s0 := h.entry, img;
      CachePlaces(s0, f);
      SameRefl(s0, f);
      if h.ibDirty || h.dbDirty {
        var _ := Flush(h);
      }
      ghost var s1 := img;
      SameSized(s0, s1, f);
      panicked := Locate(h);
      if !panicked {
        SameTrans(s0, s1, img, f);
      }
    }

    ghost function File(h: FileHandle): (c: Cursor)
      requires Valid(h) && h.used
      reads this, h
      ensures c.pos <= |c.data|
    {
      CachePlaces(img, h.entry);
      Cursor(img.data[h.entry], h.pos)
    }

    /** Sets the byte pointer, unless it is set already. */
    method Prepare(h: FileHandle) returns (panicked: bool)
      requires Valid(h) && h.used
      modifies this, h`iblock, h`inum, h`ibDirty, h`dnum, h`dblock, h`dbDirty, h`at
      ensures panicked <==> old(OutOfBlocks(img, h.entry, h.pos))
      ensures !panicked ==> Ready(h) && Same(old(img), img, h.entry) && h.at == h.pos % BLKSIZ
      ensures !panicked ==> Tight(img.chains[h.entry], img.blocks[h.entry],
                                  if h.pos < |img.data[h.entry]| then |img.data[h.entry]| else h.pos + 1)
      ensures !panicked && old(h.pos < |img.data[h.entry]|) ==> Saved() == old(Saved())
      ensures !panicked && old(h.at < BLKSIZ) ==> Saved() == old(Saved())
    {
      hide Consistent, Same, AllTight, Tight;
      CachePlaces(img, h.entry);
      TightOf(img, h.entry);
      SameRefl(img, h.entry);
      panicked := false;
      if h.at >= BLKSIZ {
        panicked := Setup(h);
      } else {
        PointerSet(img, h.entry);
      }
    }

    /** Puts a byte in the cached data block at the byte pointer. */
    method StoreAt(h: FileHandle, ch: byte)
      requires Ready(h) && h.used && h.at < BLKSIZ
      modifies this`dir, this`dirDirty, this`img, h`pos, h`dblock, h`dbDirty, h`at
      ensures Ready(h) && old(h.pos <= |img.data[h.entry]| && h.at < |h.dblock|)
      ensures old(Sized(img) && h.entry < |img.chains|) && img == ByteStored(old(img), h.entry, ch)
      ensures Saved() <==> old(Saved() || h.pos == |img.data[h.entry]|)
    {
      hide Consistent;
      CachePlaces(img, h.entry);
      Ilist(img, h.entry);
      StoreByte(img, h.entry, ch);
      img := ByteStored(img, h.entry, ch);
      if h.pos >= dir.entries[h.entry].size {
        dir := dir.(entries := dir.entries[h.entry := dir.entries[h.entry].(size := dir.entries[h.entry].size + 1)]);
        dirDirty := true;
      }
      h.dblock := h.dblock[h.at := ch];
      h.at := h.at + 1;
      h.pos := h.pos + 1;
      h.dbDirty := true;
    }

    /** Writes a byte at the cursor. */
    method Putc(h: FileHandle, ch: byte) returns (panicked: bool, r: int)
      requires Valid(h)
      modifies this, h`pos, h`iblock, h`inum, h`ibDirty, h`dnum, h`dblock, h`dbDirty, h`at
      ensures panicked <==> old(h.used && OutOfBlocks(img, h.entry, h.pos))
      ensures !old(h.used) ==> r == SYSERR && unchanged(this) && unchanged(h)
      ensures old(h.used) && !panicked ==>
                && r == OK && Valid(h)
                && File(h) == PutSpec(old(File(h)), ch)
                && Elsewhere(old(img), img, h.entry)
                && (Saved() <==> old(Saved() || h.pos == |File(h).data|))
    {
      hide Consistent, Same, Elsewhere, AllTight, Tight;
      if !h.used {
        return false, SYSERR;
      }
      ghost var f, s0 := h.entry, img;
      CachePlaces(img, f);
      Ilist(img, f);
      if h.pos > dir.entries[h.entry].size {
        return false, SYSERR;
      }
      r := OK;
      panicked := Prepare(h);
      if panicked {
        return;
      }
      ghost var s1 := img;
      SameSized(s0, s1, f);
      StoreAt(h, ch);
      StoredElsewhere(s0, s1, f, ch);
      TightElsewhere(s0, img, f);
    }

    /** Reads the byte at the cursor, or tells that the file ends there. */
    method Getc(h: FileHandle) returns (r: int)
      requires Valid(h)
      modifies this, h`pos, h`iblock, h`inum, h`ibDirty, h`dnum, h`dblock, h`dbDirty, h`at
      ensures Valid(h)
      ensures !old(h.used) ==> r == SYSERR && unchanged(this) && unchanged(h)
      ensures old(h.used) ==>
                && r == (if old(h.pos < |File(h).data|) then old(File(h).data[h.pos]) as int else EOF)
                && File(h) == old(File(h)).(pos := if r == EOF then old(h.pos) else old(h.pos) + 1)
                && Same(old(img), img, h.entry)
                && Saved() == old(Saved())
    {
      hide Consistent, Same, Elsewhere, AllTight, Tight;
      if !h.used {
        return SYSERR;
      }
      ghost var f, s0 := h.entry, img;
      CachePlaces(img, f);
      Ilist(img, f);
      SameRefl(img, f);
      if h.pos >= dir.entries[h.entry].size {
        return EOF;
      }
      var panicked := Prepare(h);
      ghost var s1 := img;
      SameSized(s0, s1, f);
      CachedByte(img, f);
      r := h.dblock[h.at] as int;
      StepPointer(img, f);
      h.at := h.at + 1;
      h.pos := h.pos + 1;
      img := WithView(img, f, img.views[f].(at := h.at, pos := h.pos));
      ViewElsewhere(s0, s1, f, img.views[f]);
      TightElsewhere(s0, img, f);
    }

    /** Moves the cursor anywhere up to the end of the file. */
    method Seek(h: FileHandle, offset: nat) returns (r: int)
      requires Valid(h)
      modifies this`img, h`pos, h`at
      ensures Valid(h)
      ensures !old(h.used) ==> r == SYSERR && unchanged(this) && unchanged(h)
      ensures old(h.used) ==>
                && r == (if offset <= old(|File(h).data|) then OK else SYSERR)
                && File(h) == old(File(h)).(pos := if r == OK then offset else old(h.pos))
                && Same(old(img), img, h.entry)
    {
      hide Consistent, Same, Elsewhere, AllTight, Tight;
      if !h.used {
        return SYSERR;
      }
      ghost var f, s0 := h.entry, img;
      CachePlaces(img, f);
      Ilist(img, f);
      SameRefl(img, f);
      if offset > dir.entries[h.entry].size {
        return SYSERR;
      }
      h.pos := offset;
      h.at := BLKSIZ;
      MovePointer(img, f, offset);
      img := WithView(img, f, img.views[f].(at := BLKSIZ, pos := offset));
      ViewElsewhere(s0, s0, f, img.views[f]);
      TightOf(s0, f);
      TightElsewhere(s0, img, f);
      r := OK;
    }

    /** Writes `count` bytes of a buffer, one at a time. */
    method Write(h: FileHandle, buff: seq<byte>, count: int) returns (panicked: bool, r: int)
      requires Valid(h) && count <= |buff|
      modifies this, h`pos, h`iblock, h`inum, h`ibDirty, h`dnum, h`dblock, h`dbDirty, h`at
      ensures count < 0 || (count > 0 && !old(h.used)) ==> !panicked && r == SYSERR && unchanged(this) && unchanged(h)
      ensures count == 0 ==> r == 0 && !panicked && unchanged(this) && unchanged(h)
      ensures panicked <==> old(h.used) && count > 0 && old(ShortOfBlocks(img, h.entry, h.pos + count))
      ensures old(h.used) && count >= 0 && !panicked ==>
                && r == count && Valid(h)
                && File(h) == WriteSpec(old(File(h)), buff[..count])
                && Elsewhere(old(img), img, h.entry)
                && (Saved() <==> old(Saved() || h.pos + count > |File(h).data|))
    {
      hide Consistent, Elsewhere, AllTight, Tight, WriteSpec, PutSpec, ShortOfBlocks, OutOfBlocks;
      panicked, r := false, count;
      if count < 0 {
        return false, SYSERR;
      }
      ghost var f, s0 := h.entry, img;
      if h.used {
        CachePlaces(img, f);
        ElsewhereRefl(img, f);
      }
      if h.used { NoWrite(File(h), buff); }
      var i := 0;
      while i < count
        invariant 0 <= i <= count && h.used == old(h.used) && (h.used ==> h.entry == f)
        invariant !h.used ==> i == 0 && unchanged(this) && unchanged(h)
        invariant Valid(h) && (h.used ==> (Saved() <==> old(Saved()) || old(h.pos) + i > |old(File(h)).data|))
        invariant i == 0 ==> unchanged(this) && unchanged(h)
        invariant h.used ==> File(h) == WriteSpec(old(File(h)), buff[..i])
        invariant h.used ==> Elsewhere(s0, img, f)
        invariant h.used && i > 0 ==> !ShortOfBlocks(s0, f, old(h.pos) + i)
      {
        ghost var s1 := img;
        ghost var c1 := if h.used then File(h) else Cursor([], 0);
        panicked, r := Putc(h, buff[i]);
        if panicked {
          Runout(s0, s1, f, old(h.pos), i, count);
          return;
        }
        if r == SYSERR {
          return;
        }
        WriteOn(old(File(h)), buff, i);
        ElsewhereTrans(s0, s1, img, f);
        NotShort(s0, img, f, old(h.pos), i + 1);
        i := i + 1;
      }
      r := count;
    }

    /** Reads up to `count` bytes, one at a time. */
    method Read(h: FileHandle, count: int) returns (r: int, buff: seq<byte>)
      requires Valid(h)
      modifies this, h`pos, h`iblock, h`inum, h`ibDirty, h`dnum, h`dblock, h`dbDirty, h`at
      ensures Valid(h)
      ensures count < 0 || (count > 0 && !old(h.used)) ==> r == SYSERR && unchanged(this) && unchanged(h)
      ensures count == 0 ==> r == 0 && unchanged(this) && unchanged(h)
      ensures old(h.used) && count >= 0 ==>
                && buff == old(File(h).data[h.pos..])[..if count < old(|File(h).data| - h.pos) then count
                                                        else old(|File(h).data| - h.pos)]
                && File(h) == old(File(h)).(pos := old(h.pos) + |buff|)
                && r == (if count > 0 && buff == [] then EOF else |buff|)
                && Same(old(img), img, h.entry)
                && Saved() == old(Saved())
    {
      hide Consistent, Same, AllTight, Tight;
      buff := [];
      if count < 0 {
        return SYSERR, buff;
      }
      ghost var f, s0 := h.entry, img;
      if h.used {
        CachePlaces(img, f);
        SameRefl(img, f);
      }
      while |buff| < count
        invariant |buff| <= count && h.used == old(h.used) && (h.used ==> h.entry == f)
        invariant !h.used ==> buff == [] && unchanged(this) && unchanged(h)
        invariant Valid(h) && (|buff| == 0 ==> unchanged(this) && unchanged(h))
        invariant h.used ==>
                    && old(h.pos) + |buff| <= |old(File(h)).data|
                    && buff == old(File(h)).data[old(h.pos)..old(h.pos) + |buff|]
                    && File(h) == old(File(h)).(pos := old(h.pos) + |buff|)
                    && Same(s0, img, f)
                    && Saved() == old(Saved())
      {
        ghost var s1 := img;
        r := Getc(h);
        if r == SYSERR {
          return;
        }
        SameTrans(s0, s1, img, f);
        if r == EOF {
          if |buff| != 0 {
            r := |buff|;
          }
          return;
        }
        buff := buff + [r as byte];
      }
      r := |buff|;
    }

    /** Writes back what is dirty and frees the handle. */
    method Close(h: FileHandle) returns (r: int)
      requires Valid(h)
      modifies this`db, this`ib, this`diskDir, this`dirDirty, this`img, h`ibDirty, h`dbDirty, h`used
      ensures Valid(h) && !h.used
      ensures r == if old(h.used) then OK else SYSERR
      ensures !old(h.used) ==> unchanged(this) && unchanged(h)
      ensures old(h.used) ==>
                && Same(old(img), img, h.entry) && img.views[h.entry].Closed?
                && img.chains == old(img.chains) && img.blocks == old(img.blocks)
                && diskDir == (if old(dirDirty) then dir else old(diskDir)) && !dirDirty
                && (diskDir == dir <==> old(Saved()))
    {
      hide Consistent, Same, AllTight, Elsewhere;
      if !h.used {
        return SYSERR;
      }
      ghost var f, s0 := h.entry, img;
      CachePlaces(img, f);
      SameRefl(img, f);
      if dirDirty || h.dbDirty || h.ibDirty {
        var _ := Flush(h);
      }
      ghost var s1 := img;
      SameSized(s0, s1, f);
      h.used := false;
      CloseView(img, f);
      img := WithView(img, f, Cache.Closed);
      ViewElsewhere(s0, s1, f, Cache.Closed);
      TightOf(s0, f);
      TightElsewhere(s0, img, f);
      r := OK;
    }

    /** Initialises a free handle for the closed file of entry `i`. */
    method Attach(h: FileHandle, i: nat)
      requires Valid(h) && !h.used && |h.dblock| == BLKSIZ
      requires i < |img.views| && img.views[i].Closed?
      modifies this`img, h`used, h`entry, h`pos, h`inum, h`dnum, h`at, h`ibDirty, h`dbDirty
      ensures Valid(h) && h.used && h.entry == i && Same(old(img), img, i)
      ensures File(h) == Cursor(old(img).data[i], 0)
    {
      hide Consistent, AllTight, Same;
      ghost var s := img;
      AreSized(s);
      h.used := true;
      h.entry := i;
      h.pos := 0;
      h.inum := INULL;
      h.dnum := DNULL;
      h.at := BLKSIZ;
      h.ibDirty := false;
      h.dbDirty := false;
      ghost var v := Cache.Open(0, INULL, h.iblock, DNULL, h.dblock, BLKSIZ, false, false, 0, 0);
      OpenView(s, i, v);
      img := WithView(img, i, v);
      SameRefl(s, i);
      ViewElsewhere(s, s, i, v);
      TightOf(s, i);
      TightElsewhere(s, img, i);
    }

    /** Opening is refused for a name that is too long, a file that must exist or must be new and does not or is not,
        and a new file for which the directory has no room. */
    predicate MayOpen(name: string, mustExist: bool, mustBeNew: bool)
      reads this
    {
      && |name| < NAMELEN
      && if Find(dir.entries, name) < |dir.entries| then !mustBeNew else !mustExist && |dir.entries| < NUMDIRENT
    }

    /** The file called `name` is open on `h`: the one there was, with its bytes, or a new one at the directory's
        end. */
    ghost predicate Opened(h: FileHandle, s: Image, was: Directory, name: string)
      reads this, h
    {
      && Valid(h) && h.used && h.entry == Find(was.entries, name)
      && dir == (if h.entry < |was.entries| then was else was.(entries := was.entries + [Entry(0, INULL, name)]))
      && if h.entry < |was.entries| then Same(s, img, h.entry) && File(h) == Cursor(s.data[h.entry], 0)
         else Same(Grown(s, name), img, h.entry) && File(h) == Cursor([], 0)
    }

    /** Opens the file called `name` on the free handle `h`, creating it if there is none. */
    method OpenOn(h: FileHandle, name: string, mustExist: bool, mustBeNew: bool) returns (r: int)
      requires Valid(h) && !h.used && |h.dblock| == BLKSIZ
      requires forall f :: 0 <= f < |img.views| && dir.entries[f].name == name ==> img.views[f].Closed?
      modifies this`dir, this`img, h`used, h`entry, h`pos, h`inum, h`dnum, h`at, h`ibDirty, h`dbDirty
      ensures r == if old(MayOpen(name, mustExist, mustBeNew)) then OK else SYSERR
      ensures r != OK ==> unchanged(this) && unchanged(h)
      ensures r == OK ==> Opened(h, old(img), old(dir), name)
    {
      hide Consistent, AllTight, Same;
      if |name| >= NAMELEN {
        return SYSERR;
      }
      AreSized(img);
      var i := 0;
      while i < |dir.entries| && dir.entries[i].name != name
        invariant i <= |dir.entries| && Find(dir.entries, name) == Find(dir.entries[i..], name) + i
      {
        i := i + 1;
      }
      if i == |dir.entries| {
        if mustExist || |dir.entries| >= NUMDIRENT {
          return SYSERR;
        }
        dir := dir.(entries := dir.entries + [Entry(0, INULL, name)]);
        Grow(img, name);
        img := Grown(img, name);
      } else if mustBeNew {
        return SYSERR;
      }
      Attach(h, i);
      r := OK;
    }

    /** Opens the file called `name` on the first free handle, and returns which that is. */
    method Open(hs: seq<FileHandle>, name: string, mustExist: bool, mustBeNew: bool) returns (r: int)
      requires var i := HandleFor(hs, name); i != SYSERR ==> Valid(hs[i]) && |hs[i].dblock| == BLKSIZ
      requires HandleFor(hs, name) != SYSERR ==>
                 forall f :: 0 <= f < |img.views| ==>
                   f < |dir.entries| && (dir.entries[f].name == name ==> img.views[f].Closed?)
      modifies this`dir, this`img, hs
      ensures r == if old(MayOpen(name, mustExist, mustBeNew)) then old(HandleFor(hs, name)) else SYSERR
      ensures r == SYSERR ==> unchanged(this) && forall g :: g in hs ==> unchanged(g)
      ensures r != SYSERR ==> 0 <= r < |hs| && forall g :: g in hs && g != hs[r] ==> unchanged(g)
      ensures r != SYSERR ==> Opened(hs[r], old(img), old(dir), name)
    {
      hide Consistent, AllTight, Same;
      if |name| >= NAMELEN {
        return SYSERR;
      }
      r := FindHandle(hs, name);
      if r != SYSERR {
        var done := OpenOn(hs[r], name, mustExist, mustBeNew);
        if done == SYSERR {
          r := SYSERR;
        }
      }
    }
  }
}
