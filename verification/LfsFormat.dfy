/** Formatting a disk, and counting its free blocks. */
module LfsFormat {
  import opened Codes
  import opened LfsLayout
  import opened Ownership
  import opened LfsImage
  import opened FileSpec

  const IBPERSECTOR := 7

  /** A disk before it carries a file system: each sector after the first seen as seven index blocks,
      and each sector seen as a data block. */
  class RawDisk {
    var ib: seq<IBlk>
    var db: seq<Sector>
    var dir: Directory
  }

  /** Sectors of index blocks for a request of `lfiblks`, in 32-bit unsigned arithmetic. */
  function IndexSectors(lfiblks: int): nat
  {
    (lfiblks + IBPERSECTOR - 1) % TWO32 / IBPERSECTOR
  }

  /** That is the least number of sectors that hold as many index blocks, exactly if the request is not so far below
      zero that rounding up leaves it negative: it is then taken for a huge one. */
  lemma IndexSectorsFit(lfiblks: int32)
    ensures (lfiblks <= IBPERSECTOR * IndexSectors(lfiblks) < lfiblks + IBPERSECTOR) <==> lfiblks > -IBPERSECTOR
  {
  }

  /** The file system with no files and every block free. */
  ghost function Fresh(ib: seq<IBlk>, db: seq<Sector>, dir: Directory, dBase: nat): Image
    requires dBase <= |db|
  {
    Image(ib, db, dir, dBase, Down(0, |ib|), Down(dBase, |db|), [], [], [], [],
          AllFree(0, |ib|), AllFree(dBase, |db|))
  }

  lemma FreshConsistent(ib: seq<IBlk>, db: seq<Sector>, dir: Directory, dBase: nat)
    requires 0 < |ib| && dBase < |db|
    requires dir.entries == [] && dir.ifree == 0 && dir.dfree == dBase
    requires forall x :: 0 <= x < |ib| ==> ib[x].next == if x + 1 < |ib| then x + 1 else INULL
    requires forall x :: dBase <= x < |db| ==> db[x] == Link(if x + 1 < |db| then x + 1 else DNULL)
    ensures Consistent(Fresh(ib, db, dir, dBase)) && AllTight(Fresh(ib, db, dir, dBase))
  {
    hide Owned, Down, AllFree;
    AllFreeOwned(0, |ib|);
    AllFreeOwned(dBase, |db|);
    DownLinkedI(ib);
    DownLinkedD(db, dBase);
  }

  lemma DownLinkedI(ib: seq<IBlk>)
    requires 0 < |ib|
    requires forall x :: 0 <= x < |ib| ==> ib[x].next == if x + 1 < |ib| then x + 1 else INULL
    ensures IFreeLinked(ib, Down(0, |ib|), 0)
  {
    hide Down;
    var free := Down(0, |ib|);
    forall k | 0 <= k < |free|
      ensures 0 <= free[k] < |ib| && ib[free[k]].next == Below(free, k)
    {
      assert free[k] == |ib| - 1 - k;
    }
  }

  lemma DownLinkedD(db: seq<Sector>, dBase: nat)
    requires dBase < |db|
    requires forall x :: dBase <= x < |db| ==> db[x] == Link(if x + 1 < |db| then x + 1 else DNULL)
    ensures DFreeLinked(db, Down(dBase, |db|), dBase)
  {
    hide Down;
    var free := Down(dBase, |db|);
    forall k | 0 <= k < |free|
      ensures 0 <= free[k] < |db| && db[free[k]] == Link(Below(free, k))
    {
      assert free[k] == |db| - 1 - k;
    }
  }

  /** Links index blocks 0 to n-1 in order. Block 0 is written even for n = 0: its sector is then the first
      data sector, all of which `LinkData` writes afterwards. */
  method LinkIndex(disk: RawDisk, n: nat)
    requires n <= |disk.ib| && 0 < |disk.ib|
    modifies disk`ib
    ensures |disk.ib| == old(|disk.ib|)
    ensures forall x :: 0 <= x < n ==> disk.ib[x].next == if x + 1 < n then x + 1 else INULL
  {
    var iblock := ClearedIBlk(0);
    var i := 0;
    while i < n - 1
      invariant 0 <= i && (if n > 0 then i < n else i == 0)
      invariant |disk.ib| == old(|disk.ib|)
      invariant forall x :: 0 <= x < i ==> disk.ib[x].next == x + 1
    {
      iblock := iblock.(next := i + 1);
      disk.ib := disk.ib[i := iblock];
      i := i + 1;
    }
    iblock := iblock.(next := INULL);
    disk.ib := disk.ib[i := iblock];
  }

  /** Links the last `dblks` sectors of the disk, from `first` on. */
  method LinkData(disk: RawDisk, first: nat, dblks: nat)
    requires dblks > 0 && first + dblks == |disk.db|
    modifies disk`db
    ensures |disk.db| == old(|disk.db|)
    ensures forall x :: first <= x < |disk.db| ==> disk.db[x] == Link(if x + 1 < |disk.db| then x + 1 else DNULL)
  {
    var dbindex := first;
    for i := 0 to dblks - 1
      invariant dbindex == first + i && |disk.db| == old(|disk.db|)
      invariant forall x :: first <= x < dbindex ==> disk.db[x] == Link(x + 1)
    {
      disk.db := disk.db[dbindex := Link(dbindex + 1)];
      dbindex := dbindex + 1;
    }
    disk.db := disk.db[dbindex := Link(DNULL)];
  }

  /** Builds an empty file system of `dsiz` bytes with room for at least `lfiblks` index blocks. */
  method Create(disk: RawDisk, lfiblks: int, dsiz: nat) returns (r: int)
    requires dsiz < TWO32 && |disk.db| == dsiz / BLKSIZ && |disk.ib| == IBPERSECTOR * |disk.db|
    requires IndexSectors(lfiblks) <= dsiz / BLKSIZ / 2 ==> IndexSectors(lfiblks) + 1 < dsiz / BLKSIZ
    modifies disk
    ensures r == OK <==> IndexSectors(lfiblks) <= dsiz / BLKSIZ / 2
    ensures r != OK ==> r == SYSERR && unchanged(disk)
    ensures r == OK ==> disk.dir == Directory(IndexSectors(lfiblks) + 1, 0, [])
    ensures r == OK ==> |disk.db| == old(|disk.db|) && |disk.ib| == old(|disk.ib|)
    ensures r == OK ==>
              var s := Fresh(disk.ib[..IBPERSECTOR * IndexSectors(lfiblks)], disk.db, disk.dir,
                             IndexSectors(lfiblks) + 1);
              (Consistent(s) && AllTight(s)) <==> IndexSectors(lfiblks) > 0
  {
    hide Consistent;
    var sectors := dsiz / BLKSIZ;
    var ibsectors := IndexSectors(lfiblks);
    var n := ibsectors * IBPERSECTOR;
    if ibsectors > sectors / 2 {
      return SYSERR;
    }
    var dbindex := ibsectors + 1;
    var dblks := sectors - ibsectors - 1;
    disk.dir := Directory(dbindex, 0, []);
    LinkIndex(disk, n);
    LinkData(disk, dbindex, dblks);
    if ibsectors > 0 {
      FreshConsistent(disk.ib[..n], disk.db, disk.dir, ibsectors + 1);
    } else {
      NeedsIndexSector(Fresh(disk.ib[..n], disk.db, disk.dir, ibsectors + 1));
    }
    r := OK;
  }

  /** With no index sector the formatted disk is not a file system: its directory names index block 0 as
      free, and there is none. */
  lemma NeedsIndexSector(s: Image)
    requires s.ib == [] && s.dir.ifree == 0
    ensures !Consistent(s)
  {
    if Consistent(s) {
      Heads(s);
      if s.iFree != [] { PopI(s.ib, s.iFree, s.dir.ifree); }
    }
  }

  method CountIndex(ib: seq<IBlk>, head: int, ghost free: seq<int>) returns (n: nat)
    requires IFreeLinked(ib, free, head)
    ensures n == |free|
  {
    n := 0;
    var nextib := head;
    ghost var rest := free;
    while nextib != INULL
      invariant n + |rest| == |free| && IFreeLinked(ib, rest, nextib)
      decreases |rest|
    {
      PopI(ib, rest, nextib);
      n := n + 1;
      nextib := ib[nextib].next;
      rest := rest[..|rest| - 1];
    }
  }

  method CountData(db: seq<Sector>, head: int, ghost free: seq<int>) returns (n: nat)
    requires DFreeLinked(db, free, head)
    ensures n == |free|
  {
    n := 0;
    var nextdb := head;
    ghost var rest := free;
    while nextdb != DNULL
      invariant n + |rest| == |free| && DFreeLinked(db, rest, nextdb)
      decreases |rest|
    {
      PopD(db, rest, nextdb);
      n := n + 1;
      nextdb := db[nextdb].next;
      rest := rest[..|rest| - 1];
    }
  }

  /** Follows both free lists on disk and counts them; the walks end because the lists do. */
  method Check(ib: seq<IBlk>, db: seq<Sector>, dir: Directory, ghost iFree: seq<int>, ghost dFree: seq<int>)
    returns (lfiblks: nat, ibsectors: nat, dblks: nat)
    requires IFreeLinked(ib, iFree, dir.ifree) && DFreeLinked(db, dFree, dir.dfree)
    ensures lfiblks == |iFree| && dblks == |dFree| && ibsectors == (|iFree| + 6) / 7
  {
    lfiblks := CountIndex(ib, dir.ifree, iFree);
    ibsectors := (lfiblks + 6) / 7;
    dblks := CountData(db, dir.dfree, dFree);
  }

  /** A disk just formatted is counted as all free. */
  method CreateThenCheck(disk: RawDisk, lfiblks: int, dsiz: nat)
    returns (r: int, found: nat, ibsectors: nat, dblks: nat)
    requires dsiz < TWO32 && |disk.db| == dsiz / BLKSIZ && |disk.ib| == IBPERSECTOR * |disk.db|
    requires 0 < IndexSectors(lfiblks) && IndexSectors(lfiblks) + 1 < dsiz / BLKSIZ
    modifies disk
    ensures r == OK <==> IndexSectors(lfiblks) <= dsiz / BLKSIZ / 2
    ensures r == OK ==> found == IBPERSECTOR * IndexSectors(lfiblks) && ibsectors == IndexSectors(lfiblks)
                        && dblks == dsiz / BLKSIZ - IndexSectors(lfiblks) - 1
  {
    found, ibsectors, dblks := 0, 0, 0;
    r := Create(disk, lfiblks, dsiz);
    if r == OK {
      var n := IndexSectors(lfiblks);
      ghost var s := Fresh(disk.ib[..IBPERSECTOR * n], disk.db, disk.dir, n + 1);
      found, ibsectors, dblks := Check(disk.ib[..IBPERSECTOR * n], disk.db, disk.dir, s.iFree, s.dFree);
    }
  }
}
