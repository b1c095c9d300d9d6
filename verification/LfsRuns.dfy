/** Whole runs on an open file, and what they leave for the next handle. */
module LfsRuns {
  import opened Codes
  import opened LfsLayout
  import opened Ownership
  import opened LfsImage
  import opened LocalFileSystem
  import opened FileSpec

  datatype Op = Put(ch: byte) | Get | SeekTo(offset: nat)

  function StepSpec(c: Cursor, op: Op): (r: (Cursor, int))
    requires c.pos <= |c.data|
    ensures r.0.pos <= |r.0.data|
  {
    match op
    case Put(ch) => (PutSpec(c, ch), OK)
    case Get => GetSpec(c)
    case SeekTo(offset) => SeekSpec(c, offset)
  }

  /** The cursor after a run, and what each operation answered. */
  function RunSpec(c: Cursor, ops: seq<Op>): (r: (Cursor, seq<int>))
    requires c.pos <= |c.data|
    ensures r.0.pos <= |r.0.data|
  {
    if ops == [] then (c, [])
    else
      var (c1, out) := RunSpec(c, ops[..|ops| - 1]);
      var (c2, x) := StepSpec(c1, ops[|ops| - 1]);
      (c2, out + [x])
  }

  lemma RunOn(c: Cursor, ops: seq<Op>, i: nat)
    requires c.pos <= |c.data| && i < |ops|
    ensures var (c1, out) := RunSpec(c, ops[..i]);
            var (c2, x) := StepSpec(c1, ops[i]);
            RunSpec(c, ops[..i + 1]) == (c2, out + [x])
  {
    assert ops[..i + 1][..i] == ops[..i];
  }

  /** A file only grows during a run. */
  lemma {:induction false} RunGrows(c: Cursor, ops: seq<Op>, i: nat)
    requires c.pos <= |c.data| && i <= |ops|
    ensures |c.data| <= |RunSpec(c, ops[..i]).0.data| <= |RunSpec(c, ops).0.data|
    decreases |ops|
  {
    if i < |ops| {
      RunGrows(c, ops[..|ops| - 1], i);
      assert ops[..|ops| - 1][..i] == ops[..i];
    } else if i > 0 {
      RunGrows(c, ops[..i - 1], i - 1);
      assert ops[..i] == ops && ops[..i - 1][..i - 1] == ops[..i - 1];
    }
  }

  /** The length of the file at the end of a run. */
  function FinalSize(c: Cursor, ops: seq<Op>): nat
    requires c.pos <= |c.data|
  {
    |RunSpec(c, ops).0.data|
  }

  /** A run stopped at its i-th operation was short of blocks for what the whole run would write. */
  lemma StoppedShort(s: Image, t: Image, f: nat, c: Cursor, ops: seq<Op>, i: nat)
    requires AllTight(s) && AllTight(t) && Elsewhere(s, t, f) && f < |s.data|
    requires c.pos <= |c.data| && c.data == s.data[f] && i < |ops| && ops[i].Put?
    requires t.data[f] == RunSpec(c, ops[..i]).0.data && OutOfBlocks(t, f, RunSpec(c, ops[..i]).0.pos)
    ensures ShortOfBlocks(s, f, FinalSize(c, ops))
  {
    RunGrows(c, ops, i);
    RunGrows(c, ops, i + 1);
    RunOn(c, ops, i);
    hide RunSpec;
    var n, m := |t.data[f]| - |c.data|, FinalSize(c, ops) - |c.data|;
    Runout(s, t, f, |c.data|, n, m);
  }

  /** Any run of writes, reads and seeks answers as the byte sequence does, and leaves every other file as it
      was. It stops early if and only if the free lists cannot feed the file to the size the run gives it. */
  method Run(fs: LocalFs, h: FileHandle, ops: seq<Op>) returns (panicked: bool, out: seq<int>)
    requires fs.Valid(h) && h.used
    modifies fs, h`pos, h`iblock, h`inum, h`ibDirty, h`dnum, h`dblock, h`dbDirty, h`at
    ensures panicked <==> old(Sized(fs.img) && h.entry < |fs.img.data|
                              && ShortOfBlocks(fs.img, h.entry, FinalSize(fs.File(h), ops)))
    ensures !panicked ==> fs.Valid(h) && (fs.File(h), out) == RunSpec(old(fs.File(h)), ops)
    ensures !panicked ==> Elsewhere(old(fs.img), fs.img, h.entry)
  {
    hide Consistent, Elsewhere, AllTight, ShortOfBlocks, OutOfBlocks, RunSpec, FinalSize;
    ghost var f, s0, c := h.entry, fs.img, fs.File(h);
    CachePlaces(s0, f);
    ElsewhereRefl(s0, f);
    panicked, out := false, [];
    assert RunSpec(c, ops[..0]) == (c, []) by { NoRun(c, ops); }
    for i := 0 to |ops|
      invariant fs.Valid(h) && h.used
      invariant (fs.File(h), out) == RunSpec(c, ops[..i])
      invariant Elsewhere(s0, fs.img, f)
    {
      ghost var s1 := fs.img;
      CachePlaces(s1, f);
      RunOn(c, ops, i);
      var r;
      match ops[i] {
        case Put(ch) =>
          panicked, r := fs.Putc(h, ch);
          if panicked {
            StoppedShort(s0, s1, f, c, ops, i);
            return;
          }
        case Get =>
          r := fs.Getc(h);
        case SeekTo(offset) =>
          r := fs.Seek(h, offset);
      }
      ElsewhereTrans(s0, s1, fs.img, f);
      out := out + [r];
    }
    assert ops[..|ops|] == ops;
    WentThrough(s0, fs.img, f, c, ops);
  }

  lemma NoRun(c: Cursor, ops: seq<Op>)
    requires c.pos <= |c.data|
    ensures RunSpec(c, ops[..0]) == (c, [])
  {
  }

  /** A run that went through was not short of blocks. */
  lemma WentThrough(s: Image, t: Image, f: nat, c: Cursor, ops: seq<Op>)
    requires AllTight(s) && AllTight(t) && Elsewhere(s, t, f) && f < |s.data|
    requires c.pos <= |c.data| && c.data == s.data[f] && t.data[f] == RunSpec(c, ops).0.data
    ensures !ShortOfBlocks(s, f, FinalSize(c, ops))
  {
    RunGrows(c, ops, |ops|);
    assert ops[..|ops|] == ops;
    hide RunSpec;
    NotShort(s, t, f, |c.data|, |t.data[f]| - |c.data|);
  }

  ghost predicate NamesDistinct(entries: seq<Entry>)
  {
    forall i, j :: 0 <= i < j < |entries| ==> entries[i].name != entries[j].name
  }

  /** Opens a closed file by its name and reads all of it. */
  method ReopenAndRead(fs: LocalFs, h: FileHandle, name: string) returns (back: seq<byte>)
    requires fs.Valid(h) && !h.used && |h.dblock| == BLKSIZ && |name| < NAMELEN
    requires Find(fs.dir.entries, name) < |fs.dir.entries| == |fs.img.data|
    requires forall f :: 0 <= f < |fs.img.views| ==>
               f < |fs.dir.entries| && (fs.dir.entries[f].name == name ==> fs.img.views[f].Closed?)
    modifies fs, h
    ensures fs.Valid(h) && h.used
    ensures back == fs.File(h).data == old(fs.img.data[Find(fs.dir.entries, name)])
  {
    hide Consistent, AllTight, Same, Elsewhere;
    ghost var s2 := fs.img;
    AreSized(s2);
    var r := fs.OpenOn(h, name, true, false);
    ghost var f := h.entry;
    SameSized(s2, fs.img, f);
    Ilist(fs.img, f);
    var size := fs.dir.entries[h.entry].size;
    ghost var s3 := fs.img;
    r, back := fs.Read(h, size);
    SameSized(s3, fs.img, f);
  }

  /** Writes a buffer, closes the file, opens it again by its name and reads all of it: what comes back is
      the old content with the buffer laid over it. */
  method WriteThenReopen(fs: LocalFs, h: FileHandle, buff: seq<byte>) returns (panicked: bool, back: seq<byte>)
    requires fs.Valid(h) && h.used
    requires NamesDistinct(fs.dir.entries) && h.entry < |fs.dir.entries| && |fs.dir.entries[h.entry].name| < NAMELEN
    modifies fs, h
    ensures panicked <==> buff != [] && old(Sized(fs.img) && ShortOfBlocks(fs.img, h.entry, h.pos + |buff|))
    ensures !panicked ==> fs.Valid(h) && h.used
    ensures !panicked ==> back == Laid(old(fs.File(h)).data, old(h.pos), buff) == fs.File(h).data
  {
    hide Consistent, AllTight, Same, Elsewhere, WriteSpec, ShortOfBlocks, Laid;
    ghost var f, c := h.entry, fs.File(h);
    var name := fs.dir.entries[h.entry].name;
    ghost var s0 := fs.img;
    AreSized(s0);
    var r;
    back := [];
    panicked, r := fs.Write(h, buff, |buff|);
    if panicked {
      return;
    }
    assert buff[..|buff|] == buff;
    WriteReplaces(c, buff);
    ghost var s1 := fs.img;
    CachePlaces(s1, f);
    r := fs.Close(h);
    NamesKept(s0, s1, fs.img, f);
    back := ReopenAndRead(fs, h, name);
  }

  /** Writes a buffer, seeks back to where the write began and reads as much: what comes back is the buffer. */
  method WriteSeekRead(fs: LocalFs, h: FileHandle, buff: seq<byte>) returns (panicked: bool, back: seq<byte>)
    requires fs.Valid(h) && h.used
    modifies fs, h`pos, h`iblock, h`inum, h`ibDirty, h`dnum, h`dblock, h`dbDirty, h`at
    ensures panicked <==> buff != [] && old(Sized(fs.img) && ShortOfBlocks(fs.img, h.entry, h.pos + |buff|))
    ensures !panicked ==> back == buff && fs.Valid(h) && h.used && h.pos == old(h.pos) + |buff|
  {
    hide Consistent, AllTight, Same, Elsewhere, ShortOfBlocks, WriteSpec, Laid;
    ghost var c := fs.File(h);
    var start := h.pos;
    AreSized(fs.img);
    CachePlaces(fs.img, h.entry);
    var r;
    back := [];
    panicked, r := fs.Write(h, buff, |buff|);
    if panicked {
      return;
    }
    assert buff[..|buff|] == buff;
    WriteReplaces(c, buff);
    r := fs.Seek(h, start);
    r, back := fs.Read(h, |buff|);
  }

  lemma NamesKept(s: Image, t: Image, u: Image, f: nat)
    requires Elsewhere(s, t, f) && Same(t, u, f) && f < |s.chains|
    requires NamesDistinct(s.dir.entries)
    ensures Sized(t) && Sized(u) && u.data == t.data && |u.dir.entries| == |s.dir.entries|
    ensures Find(u.dir.entries, s.dir.entries[f].name) == f
    ensures forall g :: 0 <= g < |u.views| && g != f ==> u.dir.entries[g].name != s.dir.entries[f].name
  {
    assert forall g :: 0 <= g < |s.chains| ==> u.dir.entries[g].name == s.dir.entries[g].name;
  }

  /** Creates a file and closes it without writing. Where the directory on disk was current, it is so afterwards
      if and only if the one in memory was marked as changed before. */
  method CreateUnwritten(fs: LocalFs, h: FileHandle, name: string) returns (r: int)
    requires fs.Valid(h) && !h.used && |h.dblock| == BLKSIZ && fs.Saved()
    requires |name| < NAMELEN && Find(fs.dir.entries, name) == |fs.dir.entries| < NUMDIRENT
    modifies fs, h
    ensures r == OK && fs.Valid(h)
    ensures |fs.dir.entries| == old(|fs.dir.entries|) + 1
    ensures fs.dir.entries[old(|fs.dir.entries|)] == Entry(0, INULL, name)
    ensures fs.diskDir == fs.dir <==> old(fs.dirDirty)
  {
    hide Consistent, AllTight, Same;
    AreSized(fs.img);
    r := fs.OpenOn(h, name, false, true);
    assert fs.dir.entries != old(fs.dir.entries);
    var entries := fs.dir.entries;
    r := fs.Close(h);
    assert fs.dir.entries == entries;
  }
}
