/** Layout of the local file system: sectors, index blocks, directory entries, and what it
    means for index blocks and sectors to hold a given file. */
module LfsLayout {

  newtype byte = x: int | 0 <= x < 256

  const BLKSIZ := 512   // bytes in a sector, and in a data block
  const IBLEN := 16     // data block pointers in an index block
  const IDATA := 8192   // bytes mapped by one index block
  const INULL := -1
  const DNULL := -1
  const DFILL: byte := 43
  const NAMELEN := 16
  const NUMDIRENT := 20

  datatype IBlk = IBlk(next: int, offset: int, dba: seq<int>)

  /** A sector of the data area holds file bytes, or a link of the free list. */
  datatype Sector = Data(bytes: seq<byte>) | Link(next: int)

  datatype Entry = Entry(size: nat, ilist: int, name: string)

  datatype Directory = Directory(dfree: int, ifree: int, entries: seq<Entry>)

  /** The first directory entry with a given name; the number of entries if there is none. */
  function Find(entries: seq<Entry>, name: string): (i: nat)
    ensures i <= |entries|
    ensures i < |entries| ==> entries[i].name == name
    ensures forall k :: 0 <= k < i ==> entries[k].name != name
  {
    if entries == [] || entries[0].name == name then 0 else 1 + Find(entries[1..], name)
  }

  /** An index block with no successor and no data. */
  function ClearedIBlk(offset: int): (b: IBlk)
  {
    IBlk(INULL, offset, seq(IBLEN, _ => DNULL))
  }

  function Blocks(n: nat): nat { (n + BLKSIZ - 1) / BLKSIZ }

  function IBlocks(n: nat): nat { (n + IDATA - 1) / IDATA }

  /** The pointer to a file's k-th data block. */
  function Ptr(blocks: seq<int>, k: nat): int
  {
    if k < |blocks| then blocks[k] else DNULL
  }

  function First(chain: seq<int>): int
  {
    if chain == [] then INULL else chain[0]
  }

  /** `b` is the c-th index block of a file made of `chain` and `blocks`. */
  ghost predicate IBlockIs(b: IBlk, chain: seq<int>, blocks: seq<int>, c: nat)
  {
    && b.next == (if c + 1 < |chain| then chain[c + 1] else INULL)
    && b.offset == IDATA * c
    && |b.dba| == IBLEN
    && forall j :: 0 <= j < IBLEN ==> b.dba[j] == Ptr(blocks, IBLEN * c + j)
  }

  /** `bytes` holds the k-th data block of a file; what lies beyond the end is arbitrary. */
  ghost predicate Holds(bytes: seq<byte>, data: seq<byte>, k: nat)
  {
    && |bytes| == BLKSIZ
    && forall j :: 0 <= j < BLKSIZ && BLKSIZ * k + j < |data| ==> bytes[j] == data[BLKSIZ * k + j]
  }

  /** The on-disk index blocks of a file, except the one at place `skip`. */
  ghost predicate IndexOk(ib: seq<IBlk>, chain: seq<int>, blocks: seq<int>, skip: int)
  {
    forall c :: 0 <= c < |chain| ==>
      0 <= chain[c] < |ib| && (c != skip ==> IBlockIs(ib[chain[c]], chain, blocks, c))
  }

  /** The on-disk data blocks of a file that hold any of its bytes, except the one at place `skip`. */
  ghost predicate DataOk(db: seq<Sector>, blocks: seq<int>, data: seq<byte>, skip: int)
  {
    forall k :: 0 <= k < |blocks| ==>
      && 0 <= blocks[k] < |db|
      && (k != skip && BLKSIZ * k < |data| ==> db[blocks[k]].Data? && Holds(db[blocks[k]].bytes, data, k))
  }

  /** The cache of an open file, with the places `ci` and `di` its two blocks have in the file. */
  datatype Cache = Closed | Open(pos: nat, inum: int, iblock: IBlk, dnum: int, dblock: seq<byte>, at: nat,
                                 ibDirty: bool, dbDirty: bool, ci: nat, di: nat)
  {
    ghost function DirtyI(): int { if Open? && ibDirty then ci else -1 }

    ghost function DirtyD(): int { if Open? && dbDirty then di else -1 }
  }

  ghost predicate CacheOk(v: Cache, chain: seq<int>, blocks: seq<int>, data: seq<byte>)
  {
    v.Open? ==>
      && v.pos <= |data|
      && |v.dblock| == BLKSIZ
      && v.at <= BLKSIZ
      && (v.ibDirty ==> v.inum != INULL)
      && (v.dbDirty ==> v.dnum != DNULL)
      && (v.inum != INULL ==> v.ci < |chain| && chain[v.ci] == v.inum && IBlockIs(v.iblock, chain, blocks, v.ci))
      && (v.dnum != DNULL ==>
            v.inum != INULL && v.di < |blocks| && blocks[v.di] == v.dnum && Holds(v.dblock, data, v.di))
      && (v.at < BLKSIZ ==> v.dnum != DNULL && v.di == v.pos / BLKSIZ && v.at == v.pos % BLKSIZ)
  }

  /** Disk and cache together denote a file: its chain of index blocks, its data blocks, its bytes. */
  ghost predicate FileInv(ib: seq<IBlk>, db: seq<Sector>, e: Entry, v: Cache,
                          chain: seq<int>, blocks: seq<int>, data: seq<byte>)
  {
    && e.size == |data|
    && e.ilist == First(chain)
    && |data| <= BLKSIZ * |blocks|
    && |blocks| <= IBLEN * |chain|
    && IndexOk(ib, chain, blocks, v.DirtyI())
    && DataOk(db, blocks, data, v.DirtyD())
    && CacheOk(v, chain, blocks, data)
  }

  /** A file owns no more blocks than its bytes need. */
  ghost predicate Tight(chain: seq<int>, blocks: seq<int>, n: nat)
  {
    |blocks| == Blocks(n) && |chain| == IBlocks(n)
  }

  /** How many blocks of each kind a file of `n` bytes lacks to hold a byte at `pos`. */
  lemma TightAt(chain: seq<int>, blocks: seq<int>, n: nat, pos: nat)
    requires Tight(chain, blocks, n) && pos <= n
    ensures pos / BLKSIZ <= |blocks| && pos / IDATA <= |chain|
    ensures pos / BLKSIZ == |blocks| <==> pos == n && pos % BLKSIZ == 0
    ensures pos / IDATA == |chain| <==> pos == n && pos % IDATA == 0
    ensures pos / BLKSIZ < |blocks| ==> pos / BLKSIZ * BLKSIZ < n
    ensures chain == [] <==> n == 0
    ensures pos % IDATA == 0 ==> pos % BLKSIZ == 0
  {
  }

  lemma TightAfter(chain: seq<int>, blocks: seq<int>, chain': seq<int>, blocks': seq<int>, n: nat, pos: nat)
    requires Tight(chain, blocks, n) && pos <= n
    requires |blocks'| == if |blocks| == pos / BLKSIZ then pos / BLKSIZ + 1 else |blocks|
    requires |chain'| == if |chain| == pos / IDATA then pos / IDATA + 1 else |chain|
    ensures Tight(chain', blocks', if pos < n then n else pos + 1)
  {
  }

  /** The block that place `k` of a free list links to. */
  ghost function Below(free: seq<int>, k: nat): int
    requires k < |free|
  {
    if k == 0 then -1 else free[k - 1]
  }

  ghost function Top(free: seq<int>): int
  {
    if free == [] then -1 else free[|free| - 1]
  }

  /** Free index blocks, last one at the head, are linked through their next fields. */
  ghost predicate IFreeLinked(ib: seq<IBlk>, free: seq<int>, head: int)
  {
    && head == Top(free)
    && forall k :: 0 <= k < |free| ==> 0 <= free[k] < |ib| && ib[free[k]].next == Below(free, k)
  }

  ghost predicate DFreeLinked(db: seq<Sector>, free: seq<int>, head: int)
  {
    && head == Top(free)
    && forall k :: 0 <= k < |free| ==> 0 <= free[k] < |db| && db[free[k]] == Link(Below(free, k))
  }

  lemma PopI(ib: seq<IBlk>, free: seq<int>, head: int)
    requires IFreeLinked(ib, free, head) && free != []
    ensures head == free[|free| - 1] && 0 <= head < |ib| && IFreeLinked(ib, free[..|free| - 1], ib[head].next)
  {
    assert ib[free[|free| - 1]].next == Below(free, |free| - 1);
  }

  lemma PopD(db: seq<Sector>, free: seq<int>, head: int)
    requires DFreeLinked(db, free, head) && free != []
    ensures head == free[|free| - 1] && 0 <= head < |db| && db[head].Link?
    ensures DFreeLinked(db, free[..|free| - 1], db[head].next)
  {
    assert db[free[|free| - 1]] == Link(Below(free, |free| - 1));
  }

  lemma PushD(db: seq<Sector>, free: seq<int>, head: int, y: int)
    requires DFreeLinked(db, free, head) && 0 <= y < |db|
    requires forall k :: 0 <= k < |free| ==> free[k] != y
    ensures DFreeLinked(db[y := Link(head)], free + [y], y)
  {
    var db', free' := db[y := Link(head)], free + [y];
    forall k | 0 <= k < |free'|
      ensures 0 <= free'[k] < |db'| && db'[free'[k]] == Link(Below(free', k))
    {
      if k < |free| {
        assert free[k] != y && Below(free', k) == Below(free, k);
      }
    }
  }

  lemma WriteI(ib: seq<IBlk>, free: seq<int>, head: int, x: int, b: IBlk)
    requires IFreeLinked(ib, free, head) && 0 <= x < |ib|
    requires forall k :: 0 <= k < |free| ==> free[k] != x
    ensures IFreeLinked(ib[x := b], free, head)
  {
  }

  lemma WriteD(db: seq<Sector>, free: seq<int>, head: int, y: int, d: Sector)
    requires DFreeLinked(db, free, head) && 0 <= y < |db|
    requires forall k :: 0 <= k < |free| ==> free[k] != y
    ensures DFreeLinked(db[y := d], free, head)
  {
  }

  /** A file is untouched by writes to blocks it does not own. */
  lemma FileInvFrame(ib: seq<IBlk>, db: seq<Sector>, ib': seq<IBlk>, db': seq<Sector>, e: Entry, v: Cache,
                     chain: seq<int>, blocks: seq<int>, data: seq<byte>)
    requires FileInv(ib, db, e, v, chain, blocks, data)
    requires |ib'| == |ib| && |db'| == |db|
    requires forall c :: 0 <= c < |chain| ==> 0 <= chain[c] < |ib| && ib'[chain[c]] == ib[chain[c]]
    requires forall k :: 0 <= k < |blocks| ==> 0 <= blocks[k] < |db| && db'[blocks[k]] == db[blocks[k]]
    ensures FileInv(ib', db', e, v, chain, blocks, data)
  {
  }

  lemma FlushDFile(ib: seq<IBlk>, db: seq<Sector>, e: Entry, v: Cache, chain: seq<int>, blocks: seq<int>,
                   data: seq<byte>)
    requires FileInv(ib, db, e, v, chain, blocks, data) && v.Open? && v.dbDirty
    requires forall k :: 0 <= k < |blocks| && k != v.di ==> blocks[k] != v.dnum
    ensures 0 <= v.dnum < |db|
    ensures FileInv(ib, db[v.dnum := Data(v.dblock)], e, v.(dbDirty := false), chain, blocks, data)
  {
    assert blocks[v.di] == v.dnum;
  }

  lemma FlushIFile(ib: seq<IBlk>, db: seq<Sector>, e: Entry, v: Cache, chain: seq<int>, blocks: seq<int>,
                   data: seq<byte>)
    requires FileInv(ib, db, e, v, chain, blocks, data) && v.Open? && v.ibDirty
    requires forall c :: 0 <= c < |chain| && c != v.ci ==> chain[c] != v.inum
    ensures 0 <= v.inum < |ib|
    ensures FileInv(ib[v.inum := v.iblock], db, e, v.(ibDirty := false), chain, blocks, data)
  {
    assert chain[v.ci] == v.inum;
  }

  lemma ExtendChainFile(ib: seq<IBlk>, db: seq<Sector>, e: Entry, v: Cache, chain: seq<int>, blocks: seq<int>,
                        data: seq<byte>, x: int)
    requires FileInv(ib, db, e, v, chain, blocks, data) && v.Open? && !v.ibDirty && !v.dbDirty
    requires v.inum != INULL && v.at == BLKSIZ && v.ci + 1 == |chain| && 0 <= x < |ib|
    requires forall c :: 0 <= c < |chain| ==> chain[c] != x && (c != v.ci ==> chain[c] != v.inum)
    ensures 0 <= v.inum < |ib|
    ensures FileInv(ib[v.inum := v.iblock.(next := x)], db, e,
                    v.(inum := x, iblock := ClearedIBlk(v.iblock.offset + IDATA), ibDirty := true, dnum := DNULL,
                       ci := v.ci + 1),
                    chain + [x], blocks, data)
  {
    assert chain[v.ci] == v.inum;
    var ib', chain' := ib[v.inum := v.iblock.(next := x)], chain + [x];
    forall c | 0 <= c < |chain|
      ensures 0 <= chain'[c] < |ib'| && IBlockIs(ib'[chain'[c]], chain', blocks, c)
    {
      assert chain'[c] == chain[c];
    }
  }

  /** An empty file gets its first index block, cached and not written. */
  lemma StartChainFile(ib: seq<IBlk>, db: seq<Sector>, e: Entry, v: Cache, blocks: seq<int>, data: seq<byte>, x: int)
    requires FileInv(ib, db, e, v, [], blocks, data) && v.Open? && 0 <= x < |ib|
    ensures FileInv(ib, db, e.(ilist := x), v.(inum := x, iblock := ClearedIBlk(0), ibDirty := true, ci := 0), [x],
                    blocks, data)
  {
    assert blocks == [];
    hide Holds;
    assert IBlockIs(ClearedIBlk(0), [x], blocks, 0);
  }

  lemma AppendBlockFile(ib: seq<IBlk>, db: seq<Sector>, e: Entry, v: Cache, chain: seq<int>, blocks: seq<int>,
                        data: seq<byte>, y: int)
    requires FileInv(ib, db, e, v, chain, blocks, data) && v.Open? && !v.dbDirty
    requires v.inum != INULL && v.at == BLKSIZ && v.ci == |blocks| / IBLEN && 0 <= y < |db|
    ensures |v.iblock.dba| == IBLEN
    ensures FileInv(ib, db, e,
                    v.(iblock := v.iblock.(dba := v.iblock.dba[|blocks| % IBLEN := y]), ibDirty := true,
                       dnum := y, dblock := seq(BLKSIZ, _ => DFILL), di := |blocks|),
                    chain, blocks + [y], data)
  {
    var n, blocks' := |blocks|, blocks + [y];
    forall c | 0 <= c < |chain| && c != v.ci
      ensures IBlockIs(ib[chain[c]], chain, blocks', c)
    {
      assert IBlockIs(ib[chain[c]], chain, blocks, c);
    }
  }

  /** Overwriting or appending one byte of a file. */
  function Stored(data: seq<byte>, pos: nat, ch: byte): seq<byte>
    requires pos <= |data|
  {
    if pos < |data| then data[pos := ch] else data + [ch]
  }

  lemma StoreByteFile(ib: seq<IBlk>, db: seq<Sector>, e: Entry, v: Cache, chain: seq<int>, blocks: seq<int>,
                      data: seq<byte>, ch: byte)
    requires FileInv(ib, db, e, v, chain, blocks, data) && v.Open? && v.at < BLKSIZ
    ensures v.pos <= |data| && |v.dblock| == BLKSIZ
    ensures var d := Stored(data, v.pos, ch);
            FileInv(ib, db, e.(size := |d|),
                    v.(pos := v.pos + 1, at := v.at + 1, dblock := v.dblock[v.at := ch], dbDirty := true),
                    chain, blocks, d)
  {
    var d := Stored(data, v.pos, ch);
    assert v.pos == BLKSIZ * v.di + v.at;
    forall k | 0 <= k < |blocks| && k != v.di && BLKSIZ * k < |d|
      ensures db[blocks[k]].Data? && Holds(db[blocks[k]].bytes, d, k)
    {
      assert BLKSIZ * k < |data|;
      assert Holds(db[blocks[k]].bytes, data, k);
    }
    assert Holds(v.dblock[v.at := ch], d, v.di);
  }

  lemma CachedByteFile(v: Cache, chain: seq<int>, blocks: seq<int>, data: seq<byte>)
    requires CacheOk(v, chain, blocks, data) && v.Open? && v.at < BLKSIZ && v.pos < |data|
    ensures |v.dblock| == BLKSIZ && v.dblock[v.at] == data[v.pos]
  {
    assert Holds(v.dblock, data, v.di) && BLKSIZ * v.di + v.at == v.pos;
  }
}
