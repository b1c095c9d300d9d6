/** Index blocks as bytes: seven of them, 72 bytes each, share a 512-byte sector of the disk. */
module LfsPacking {
  import opened Codes
  import opened LfsLayout

  const IBSIZE := 72
  const PERSECTOR := 7
  const AREA_IB := 1
  const TWO31 := 0x8000_0000

  function Sect(ib: nat): nat { ib / PERSECTOR + AREA_IB }

  function Disp(ib: nat): nat { ib % PERSECTOR * IBSIZE }

  class SectorDisk {
    var sectors: seq<seq<byte>>

    ghost predicate Valid()
      reads this
    {
      forall k :: 0 <= k < |sectors| ==> |sectors[k]| == BLKSIZ
    }
  }

  /** The bytes of index block `n` on a disk. */
  function IBytes(sectors: seq<seq<byte>>, n: nat): seq<byte>
    requires Sect(n) < |sectors| && |sectors[Sect(n)]| == BLKSIZ
  {
    sectors[Sect(n)][Disp(n)..Disp(n) + IBSIZE]
  }

  /** Copies index block `inum` from its sector to `ibuff`. */
  method IbGet(disk: SectorDisk, inum: nat, ibuff: array<byte>)
    requires disk.Valid() && Sect(inum) < |disk.sectors| && ibuff.Length == IBSIZE
    modifies ibuff
    ensures ibuff[..] == IBytes(disk.sectors, inum)
  {
    var dbuff := disk.sectors[Sect(inum)];
    var from := Disp(inum);
    for i := 0 to IBSIZE
      invariant forall k :: 0 <= k < i ==> ibuff[k] == dbuff[from + k]
    {
      ibuff[i] := dbuff[from + i];
    }
  }

  /** Replaces index block `inum` in its sector: reads the sector, copies the block in, writes it back. */
  method IbPut(disk: SectorDisk, inum: nat, ibuff: array<byte>)
    requires disk.Valid() && Sect(inum) < |disk.sectors| && ibuff.Length == IBSIZE
    modifies disk
    ensures disk.Valid() && |disk.sectors| == |old(disk.sectors)|
    ensures IBytes(disk.sectors, inum) == ibuff[..]
    ensures forall n :: n != inum && n >= 0 && Sect(n) < |disk.sectors| ==>
              IBytes(disk.sectors, n) == IBytes(old(disk.sectors), n)
    ensures forall k :: 0 <= k < |disk.sectors| && k != Sect(inum) ==> disk.sectors[k] == old(disk.sectors)[k]
    ensures disk.sectors[Sect(inum)][PERSECTOR * IBSIZE..] == old(disk.sectors)[Sect(inum)][PERSECTOR * IBSIZE..]
  {
    var dbuff := new byte[BLKSIZ];
    ghost var sector := disk.sectors[Sect(inum)];
    forall k | 0 <= k < BLKSIZ {
      dbuff[k] := disk.sectors[Sect(inum)][k];
    }
    var to := Disp(inum);
    for i := 0 to IBSIZE
      invariant disk.sectors == old(disk.sectors)
      invariant forall k :: 0 <= k < BLKSIZ ==> dbuff[k] == if to <= k < to + i then ibuff[k - to] else sector[k]
    {
      dbuff[to + i] := ibuff[i];
    }
    disk.sectors := disk.sectors[Sect(inum) := dbuff[..]];
    forall n | n != inum && n >= 0 && Sect(n) < |disk.sectors|
      ensures IBytes(disk.sectors, n) == IBytes(old(disk.sectors), n)
    {
      if Sect(n) == Sect(inum) {
        Apart(inum, n);
      }
    }
  }

  /** Two index blocks of one sector do not overlap. */
  lemma Apart(m: nat, n: nat)
    requires m != n && Sect(m) == Sect(n)
    ensures Disp(n) + IBSIZE <= Disp(m) || Disp(m) + IBSIZE <= Disp(n)
    ensures Disp(n) + IBSIZE <= BLKSIZ
  {
  }

  /** The first `k` sectors behind the first of the disk are filled by just the first 7k index blocks. */
  lemma InArea(n: nat, k: nat)
    ensures n < PERSECTOR * k <==> 1 <= Sect(n) <= k
    ensures Disp(n) + IBSIZE <= BLKSIZ
    ensures IBSIZE * n == IBSIZE * PERSECTOR * (Sect(n) - 1) + Disp(n)
  {
  }

  predicate IsInt32(x: int) { -TWO31 <= x < TWO31 }

  /** Index blocks that fit their C structure. */
  predicate Fits(b: IBlk)
  {
    IsInt32(b.next) && 0 <= b.offset < TWO32 && |b.dba| == IBLEN && forall j :: 0 <= j < IBLEN ==> IsInt32(b.dba[j])
  }

  /** The w-th 32-bit word of the structure. */
  function Word(b: IBlk, w: nat): int
    requires |b.dba| == IBLEN && w < IBLEN + 2
  {
    if w == 0 then b.next else if w == 1 then b.offset else b.dba[w - 2]
  }

  /** Byte `k` of a 32-bit word, least significant first. */
  function ByteOf(x: int, k: nat): byte
    requires k < 4
  {
    var u := x % TWO32;
    (if k == 0 then u % 0x100 else if k == 1 then u / 0x100 % 0x100
     else if k == 2 then u / 0x100 / 0x100 % 0x100 else u / 0x100 / 0x100 / 0x100) as byte
  }

  function Unsigned(bs: seq<byte>, at: nat): nat
    requires at + 4 <= |bs|
  {
    bs[at] as int + 0x100 * (bs[at + 1] as int + 0x100 * (bs[at + 2] as int + 0x100 * bs[at + 3] as int))
  }

  function Signed(u: nat): int { if u < TWO31 then u else u - TWO32 }

  function Encode(b: IBlk): (bs: seq<byte>)
    requires |b.dba| == IBLEN
    ensures |bs| == IBSIZE
  {
    seq(IBSIZE, i requires 0 <= i < IBSIZE => ByteOf(Word(b, i / 4), i % 4))
  }

  function Decode(bs: seq<byte>): (b: IBlk)
    requires |bs| == IBSIZE
  {
    IBlk(Signed(Unsigned(bs, 0)), Unsigned(bs, 4),
         seq(IBLEN, j requires 0 <= j < IBLEN => Signed(Unsigned(bs, 8 + 4 * j))))
  }

  lemma WordBack(x: int)
    ensures ByteOf(x, 0) as int
            + 0x100 * (ByteOf(x, 1) as int + 0x100 * (ByteOf(x, 2) as int + 0x100 * ByteOf(x, 3) as int))
            == x % TWO32
  {
    var u := x % TWO32;
    var u1 := u / 0x100;
    var u2 := u1 / 0x100;
    assert u == 0x100 * u1 + u % 0x100 && u1 == 0x100 * u2 + u1 % 0x100 && u2 == 0x100 * (u2 / 0x100) + u2 % 0x100;
  }

  lemma SignedBack(x: int)
    requires IsInt32(x)
    ensures Signed(x % TWO32) == x
  {
  }

  lemma WordAt(b: IBlk, w: nat)
    requires |b.dba| == IBLEN && w < IBLEN + 2
    ensures Unsigned(Encode(b), 4 * w) == Word(b, w) % TWO32
  {
    var bs := Encode(b);
    WordBack(Word(b, w));
    assert forall k :: 0 <= k < 4 ==> bs[4 * w + k] == ByteOf(Word(b, w), k);
  }

  /** Four bytes hold a number, least significant first, as a word of 32 bits. */
  predicate HoldsWord(bs: seq<byte>, at: nat, x: int)
    requires at + 4 <= |bs|
  {
    bs[at] as int + 0x100 * bs[at + 1] as int + 0x1_0000 * bs[at + 2] as int + 0x100_0000 * bs[at + 3] as int
    == x % TWO32
  }

  /** Where the parts of an index block are among its bytes: the link, the offset, the pointers in order. */
  lemma Layout(b: IBlk)
    requires |b.dba| == IBLEN
    ensures HoldsWord(Encode(b), 0, b.next) && HoldsWord(Encode(b), 4, b.offset)
    ensures forall j :: 0 <= j < IBLEN ==> HoldsWord(Encode(b), 8 + 4 * j, b.dba[j])
  {
    hide Encode;
    WordAt(b, 0);
    WordAt(b, 1);
    forall j | 0 <= j < IBLEN
      ensures HoldsWord(Encode(b), 8 + 4 * j, b.dba[j])
    {
      WordAt(b, j + 2);
      assert 8 + 4 * j == 4 * (j + 2);
    }
  }

  /** An index block survives its trip through bytes. */
  lemma DecodeEncode(b: IBlk)
    requires Fits(b)
    ensures Decode(Encode(b)) == b
  {
    hide Encode, Unsigned, Signed;
    WordAt(b, 0);
    SignedBack(b.next);
    WordAt(b, 1);
    var back := Decode(Encode(b));
    forall j | 0 <= j < IBLEN
      ensures back.dba[j] == b.dba[j]
    {
      WordAt(b, j + 2);
      SignedBack(b.dba[j]);
      assert 8 + 4 * j == 4 * (j + 2);
    }
  }

  /** The index area as index blocks: what the rest of the file system sees of those sectors. */
  function Area(sectors: seq<seq<byte>>, count: nat): (ib: seq<IBlk>)
    requires forall k :: 0 <= k < |sectors| ==> |sectors[k]| == BLKSIZ
    requires count > 0 ==> Sect(count - 1) < |sectors|
    ensures |ib| == count
    ensures forall n :: 0 <= n < count ==> Sect(n) < |sectors| && ib[n] == Decode(IBytes(sectors, n))
  {
    seq(count, n requires 0 <= n < count => Decode(IBytes(sectors, n)))
  }

  /** Putting the bytes of `b` in place of index block `inum` updates the area at `inum` and nowhere else,
      and getting it back gives `b`. */
  method PutThenGet(disk: SectorDisk, inum: nat, b: IBlk, ghost count: nat) returns (back: IBlk)
    requires disk.Valid() && Fits(b) && inum < count && Sect(count - 1) < |disk.sectors|
    modifies disk
    ensures disk.Valid() && Sect(count - 1) < |disk.sectors|
    ensures Area(disk.sectors, count) == Area(old(disk.sectors), count)[inum := b]
    ensures back == b
  {
    var bytes := Encode(b);
    var buff := new byte[IBSIZE](i requires 0 <= i < IBSIZE => bytes[i]);
    assert buff[..] == bytes;
    ghost var area := Area(disk.sectors, count);
    IbPut(disk, inum, buff);
    DecodeEncode(b);
    assert Area(disk.sectors, count) == area[inum := b];
    var buff2 := new byte[IBSIZE];
    IbGet(disk, inum, buff2);
    back := Decode(buff2[..]);
  }
}
