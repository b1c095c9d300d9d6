/** Whole sessions on a freshly formatted disk: any number of files and handles, opened, written, read, moved,
    emptied and closed in any order. What the user sees is a store of named byte sequences of limited size. */
module LfsSessions {
  import opened Codes
  import opened LfsLayout
  import opened Ownership
  import opened LfsImage
  import opened LocalFileSystem
  import opened FileSpec
  import LfsTruncate
  import LfsFormat

  datatype NamedFile = NamedFile(name: string, data: seq<byte>)

  datatype Place = Idle | At(file: nat, pos: nat)

  /** Files, where each handle stands, and how many blocks of each kind the disk has. */
  datatype Store = Store(files: seq<NamedFile>, handles: seq<Place>, iTotal: nat, dTotal: nat)

  datatype Cmd =
    | Open(name: string, mustExist: bool, mustBeNew: bool)
    | Put(h: nat, ch: byte) | Get(h: nat) | SeekTo(h: nat, offset: nat) | Truncate(h: nat) | Close(h: nat)

  predicate WellFormed(st: Store)
  {
    forall i :: 0 <= i < |st.handles| && st.handles[i].At? ==>
      st.handles[i].file < |st.files| && st.handles[i].pos <= |st.files[st.handles[i].file].data|
  }

  function FindFile(files: seq<NamedFile>, name: string): (i: nat)
    ensures i <= |files|
  {
    if files == [] || files[0].name == name then 0 else 1 + FindFile(files[1..], name)
  }

  function IndexUsed(files: seq<NamedFile>): nat
  {
    if files == [] then 0 else IndexUsed(files[..|files| - 1]) + IBlocks(|files[|files| - 1].data|)
  }

  function DataUsed(files: seq<NamedFile>): nat
  {
    if files == [] then 0 else DataUsed(files[..|files| - 1]) + Blocks(|files[|files| - 1].data|)
  }

  /** The files fill the disk, and a byte at `pos` of a file of `n` bytes would need another block. */
  predicate Full(st: Store, n: nat, pos: nat)
  {
    && pos == n && pos % BLKSIZ == 0
    && (DataUsed(st.files) >= st.dTotal || (pos % IDATA == 0 && IndexUsed(st.files) >= st.iTotal))
  }

  predicate AnyBusy(handles: seq<Place>)
  {
    exists i :: 0 <= i < |handles| && handles[i].At?
  }

  function FirstIdle(handles: seq<Place>): (i: nat)
    ensures i <= |handles| && (i < |handles| ==> handles[i].Idle?) && forall j :: 0 <= j < i ==> handles[j].At?
  {
    if handles == [] || handles[0].Idle? then 0 else 1 + FirstIdle(handles[1..])
  }

  /** The handle on which a file is opened: the first free one; none for the empty name while a file is open. */
  function HandleOf(handles: seq<Place>, name: string): (r: int)
    ensures r != SYSERR ==> 0 <= r < |handles| && handles[r].Idle?
  {
    if (name == "" && AnyBusy(handles)) || FirstIdle(handles) == |handles| then SYSERR else FirstIdle(handles)
  }

  /** A file is opened when no handle has it, but for the empty name, which is refused then; the other commands take
      any handle, emptying one that is in use. */
  predicate May(st: Store, c: Cmd)
    requires WellFormed(st)
  {
    match c
    case Open(name, _, _) =>
      name != "" ==>
        forall i :: 0 <= i < |st.handles| && st.handles[i].At? ==> st.files[st.handles[i].file].name != name
    case Truncate(h) => h < |st.handles| && st.handles[h].At?
    case _ => c.h < |st.handles|
  }

  function CursorAt(st: Store, h: nat): (c: Cursor)
    requires WellFormed(st) && h < |st.handles| && st.handles[h].At?
    ensures c.pos <= |c.data|
  {
    Cursor(st.files[st.handles[h].file].data, st.handles[h].pos)
  }

  function WithCursor(st: Store, h: nat, c: Cursor): Store
    requires WellFormed(st) && h < |st.handles| && st.handles[h].At?
  {
    var f := st.handles[h].file;
    st.(files := st.files[f := st.files[f].(data := c.data)], handles := st.handles[h := At(f, c.pos)])
  }

  function WithPlace(st: Store, h: nat, p: Place): Store
    requires h < |st.handles|
  {
    st.(handles := st.handles[h := p])
  }

  /** No two handles stand in one file. */
  predicate OneEach(st: Store)
  {
    forall i, j :: 0 <= i < j < |st.handles| && st.handles[i].At? && st.handles[j].At? ==>
      st.handles[i].file != st.handles[j].file
  }

  datatype Result = Stops | Answers(st: Store, r: int)

  /** What a command does to the store and answers. */
  function StepSpec(st: Store, c: Cmd): Result
    requires WellFormed(st) && May(st, c)
  {
    match c
    case Open(name, mustExist, mustBeNew) =>
      var i, h := FindFile(st.files, name), HandleOf(st.handles, name);
      if |name| >= NAMELEN || h == SYSERR then Answers(st, SYSERR)
      else if i == |st.files| then
        if mustExist || i >= NUMDIRENT then Answers(st, SYSERR)
        else Answers(WithPlace(st.(files := st.files + [NamedFile(name, [])]), h, At(i, 0)), h)
      else if mustBeNew then Answers(st, SYSERR)
      else Answers(WithPlace(st, h, At(i, 0)), h)
    case Put(h, ch) =>
      var place := st.handles[h];
      if place.Idle? then Answers(st, SYSERR)
      else if Full(st, |st.files[place.file].data|, place.pos) then Stops
      else Answers(WithCursor(st, h, PutSpec(CursorAt(st, h), ch)), OK)
    case Get(h) =>
      if st.handles[h].Idle? then Answers(st, SYSERR)
      else var (c', r) := GetSpec(CursorAt(st, h)); Answers(WithCursor(st, h, c'), r)
    case SeekTo(h, offset) =>
      if st.handles[h].Idle? then Answers(st, SYSERR)
      else var (c', r) := SeekSpec(CursorAt(st, h), offset); Answers(WithCursor(st, h, c'), r)
    case Truncate(h) => Answers(WithCursor(st, h, Cursor([], 0)), OK)
    case Close(h) =>
      if st.handles[h].Idle? then Answers(st, SYSERR) else Answers(WithPlace(st, h, Idle), OK)
  }

  /** Opening works just when the name is short enough, a handle is idle, the name is not the empty one while a file
      is open, and the file is there or may be made, as the caller demands. The first idle handle then stands at the
      start of the first file of that name, or of a new, empty one; all else is as it was. */
  lemma OpenMeans(st: Store, name: string, mustExist: bool, mustBeNew: bool)
    requires WellFormed(st) && May(st, Cmd.Open(name, mustExist, mustBeNew))
    ensures var s := StepSpec(st, Cmd.Open(name, mustExist, mustBeNew));
            var there := exists i :: 0 <= i < |st.files| && st.files[i].name == name;
            && s.Answers? && (s.r == SYSERR ==> s.st == st)
            && (s.r != SYSERR <==>
                  && |name| < NAMELEN
                  && (exists i :: 0 <= i < |st.handles| && st.handles[i].Idle?)
                  && (name == "" ==> forall i :: 0 <= i < |st.handles| ==> st.handles[i].Idle?)
                  && if there then !mustBeNew else !mustExist && |st.files| < NUMDIRENT)
            && (s.r != SYSERR ==>
                  && 0 <= s.r < |st.handles| && st.handles[s.r].Idle?
                  && (forall i :: 0 <= i < s.r ==> st.handles[i].At?)
                  && exists f: nat ::
                       && s.st == st.(files := if there then st.files else st.files + [NamedFile(name, [])],
                                      handles := st.handles[s.r := At(f, 0)])
                       && f < |s.st.files| && s.st.files[f].name == name
                       && forall g :: 0 <= g < f ==> s.st.files[g].name != name)
  {
    FindFirst(st.files, name);
    var f, h := FindFile(st.files, name), HandleOf(st.handles, name);
    if AnyBusy(st.handles) {
      var i :| 0 <= i < |st.handles| && st.handles[i].At?;
    }
    var s := StepSpec(st, Cmd.Open(name, mustExist, mustBeNew));
    if s.r != SYSERR {
      assert s.st.handles == st.handles[h := At(f, 0)];
    }
  }

  lemma {:induction false} FindFirst(files: seq<NamedFile>, name: string)
    ensures var i := FindFile(files, name);
            (i < |files| ==> files[i].name == name) && forall j :: 0 <= j < i ==> files[j].name != name
  {
    if files != [] && files[0].name != name {
      FindFirst(files[1..], name);
      assert forall j :: 0 < j < |files| ==> files[j] == files[1..][j - 1];
    }
  }

  /** What a command that moves the cursor of a handle, and perhaps changes its file, leaves. */
  lemma CursorKept(st: Store, h: nat, c: Cursor)
    requires WellFormed(st) && OneEach(st) && h < |st.handles| && st.handles[h].At? && c.pos <= |c.data|
    ensures WellFormed(WithCursor(st, h, c)) && OneEach(WithCursor(st, h, c))
  {
  }

  lemma OpenKept(st: Store, name: string, mustExist: bool, mustBeNew: bool)
    requires WellFormed(st) && OneEach(st) && May(st, Cmd.Open(name, mustExist, mustBeNew))
    ensures var s := StepSpec(st, Cmd.Open(name, mustExist, mustBeNew));
            && s.Answers? && WellFormed(s.st) && OneEach(s.st) && st.files <= s.st.files
  {
    FindFirst(st.files, name);
  }

  lemma StepKept(st: Store, c: Cmd)
    requires WellFormed(st) && OneEach(st) && May(st, c) && StepSpec(st, c).Answers?
    ensures WellFormed(StepSpec(st, c).st) && OneEach(StepSpec(st, c).st)
  {
    hide WithCursor, FindFile, HandleOf, Full, WellFormed, OneEach;
    if c.Open? {
      OpenKept(st, c.name, c.mustExist, c.mustBeNew);
    } else if st.handles[c.h].At? {
      match c
      case Put(h, ch) => CursorKept(st, h, PutSpec(CursorAt(st, h), ch));
      case Get(h) => CursorKept(st, h, GetSpec(CursorAt(st, h)).0);
      case SeekTo(h, offset) => CursorKept(st, h, SeekSpec(CursorAt(st, h), offset).0);
      case Truncate(h) => CursorKept(st, h, Cursor([], 0));
      case Close(h) => IdleKept(st, h);
    }
  }

  lemma IdleKept(st: Store, h: nat)
    requires WellFormed(st) && OneEach(st) && h < |st.handles|
    ensures WellFormed(WithPlace(st, h, Idle)) && OneEach(WithPlace(st, h, Idle))
  {
  }

  /** Whatever is done, a byte stays as it is until it is written over or its file truncated, files keep their names,
      and handles that the command does not name stay where they are. */
  lemma StoreKept(st: Store, c: Cmd)
    requires WellFormed(st) && OneEach(st) && May(st, c) && StepSpec(st, c).Answers?
    ensures var st' := StepSpec(st, c).st;
            && |st.files| <= |st'.files| && |st'.handles| == |st.handles|
            && (st'.iTotal, st'.dTotal) == (st.iTotal, st.dTotal)
            && (forall f :: 0 <= f < |st.files| ==> st'.files[f].name == st.files[f].name)
            && (forall f, q :: 0 <= f < |st.files| && 0 <= q < |st.files[f].data| ==>
                  || (c.Put? && st.handles[c.h] == At(f, q)) || (c.Truncate? && st.handles[c.h].file == f)
                  || (q < |st'.files[f].data| && st'.files[f].data[q] == st.files[f].data[q]))
            && forall i :: 0 <= i < |st.handles| && i != (if c.Open? then StepSpec(st, c).r else c.h) ==>
                 st'.handles[i] == st.handles[i]
  {
    hide FindFile, HandleOf, Full;
  }

  lemma PutStep(st: Store, h: nat, ch: byte)
    requires WellFormed(st) && OneEach(st) && h < |st.handles| && st.handles[h].At?
    requires !Full(st, |st.files[st.handles[h].file].data|, st.handles[h].pos)
    ensures var s, f, pos := StepSpec(st, Put(h, ch)), st.handles[h].file, st.handles[h].pos;
            && s.Answers? && s.r == OK && WellFormed(s.st) && OneEach(s.st) && h < |s.st.handles|
            && s.st.handles[h] == At(f, pos + 1) && s.st.files[f].data[pos] == ch
  {
    StepKept(st, Put(h, ch));
  }

  lemma SeekStep(st: Store, h: nat, pos: nat)
    requires WellFormed(st) && OneEach(st) && h < |st.handles| && st.handles[h].At?
    requires pos < |st.files[st.handles[h].file].data|
    ensures var s, f := StepSpec(st, SeekTo(h, pos)), st.handles[h].file;
            && s.Answers? && s.r == OK && WellFormed(s.st) && OneEach(s.st) && h < |s.st.handles|
            && s.st.handles[h] == At(f, pos) && s.st.files == st.files
            && StepSpec(s.st, Get(h)).Answers? && StepSpec(s.st, Get(h)).r == st.files[f].data[pos] as int
  {
    StepKept(st, SeekTo(h, pos));
    assert st.files[st.handles[h].file := st.files[st.handles[h].file]] == st.files;
  }

  /** A byte put is there to be read, once the handle has gone back. */
  lemma PutThenGet(st: Store, h: nat, ch: byte)
    requires WellFormed(st) && OneEach(st) && h < |st.handles| && st.handles[h].At?
    requires !Full(st, |st.files[st.handles[h].file].data|, st.handles[h].pos)
    ensures RunSpec(st, [Put(h, ch), SeekTo(h, st.handles[h].pos), Get(h)]).out == [OK, OK, ch as int]
  {
    var pos := st.handles[h].pos;
    PutStep(st, h, ch);
    SeekStep(StepSpec(st, Put(h, ch)).st, h, pos);
    hide RunSpec, StepSpec, WellFormed, OneEach, Full;
    var cs := [Put(h, ch), SeekTo(h, pos), Get(h)];
    assert cs[..3] == cs;
    NoCommands(st, cs);
    RunOn(st, cs, 0);
    RunOn(st, cs, 1);
    RunOn(st, cs, 2);
  }

  /** The files of the image are those of the store, and the blocks not free are just those they need. */
  ghost predicate Shows(s: Image, st: Store)
  {
    && Sized(s) && AllTight(s) && |st.files| == |s.data|
    && (forall f :: 0 <= f < |s.data| ==> st.files[f] == NamedFile(s.dir.entries[f].name, s.data[f]))
    && |s.iFree| + IndexUsed(st.files) == st.iTotal
    && |s.dFree| + DataUsed(st.files) == st.dTotal
  }

  predicate OpenOn(handles: seq<Place>, f: nat)
  {
    exists i :: 0 <= i < |handles| && handles[i].At? && handles[i].file == f
  }

  /** The handle and the cache recorded for its file are what the store says. */
  ghost predicate HandleIn(views: seq<Cache>, h: FileHandle, p: Place)
    reads h
  {
    && (h.used ==> h.entry < |views| && h.Shows(views[h.entry]))
    && |h.dblock| == BLKSIZ && p == if h.used then At(h.entry, h.pos) else Idle
  }

  ghost predicate Distinct(hs: seq<FileHandle>)
  {
    forall i, j :: 0 <= i < j < |hs| ==> hs[i] != hs[j]
  }

  /** The image holds what the store says, and all handles but the i-th do. */
  ghost predicate HeldBut(s: Image, hs: seq<FileHandle>, st: Store, i: nat)
    reads set j | 0 <= j < |hs| && j != i :: hs[j]
  {
    && Consistent(s) && Shows(s, st) && WellFormed(st) && OneEach(st) && Distinct(hs) && i < |hs| == |st.handles|
    && (forall j :: 0 <= j < |hs| && j != i ==> HandleIn(s.views, hs[j], st.handles[j]))
    && forall f :: 0 <= f < |s.views| && s.views[f].Open? ==> OpenOn(st.handles, f)
  }

  /** The disk and the handles hold what the store says. */
  ghost predicate Holds(fs: LocalFs, hs: seq<FileHandle>, st: Store)
    reads fs, hs
  {
    && fs.img.ib == fs.ib && fs.img.db == fs.db && fs.img.dir == fs.dir
    && Consistent(fs.img) && Shows(fs.img, st) && WellFormed(st) && OneEach(st) && Distinct(hs) && |hs| == |st.handles|
    && (forall i :: 0 <= i < |hs| ==> HandleIn(fs.img.views, hs[i], st.handles[i]))
    && forall f :: 0 <= f < |fs.img.views| && fs.img.views[f].Open? ==> OpenOn(st.handles, f)
  }

  lemma {:induction false} UsedUpdate(files: seq<NamedFile>, f: nat, x: NamedFile)
    requires f < |files|
    ensures IndexUsed(files[f := x]) == IndexUsed(files) - IBlocks(|files[f].data|) + IBlocks(|x.data|)
    ensures DataUsed(files[f := x]) == DataUsed(files) - Blocks(|files[f].data|) + Blocks(|x.data|)
    decreases |files|
  {
    var n := |files| - 1;
    if f < n {
      UsedUpdate(files[..n], f, x);
      assert files[f := x][..n] == files[..n][f := x];
    } else {
      assert files[f := x][..n] == files[..n];
    }
    hide Blocks, IBlocks;
  }

  lemma {:induction false} FindSame(files: seq<NamedFile>, entries: seq<Entry>, name: string)
    requires |files| == |entries| && forall f :: 0 <= f < |files| ==> files[f].name == entries[f].name
    ensures FindFile(files, name) == Find(entries, name)
  {
    if files != [] && files[0].name != name {
      FindSame(files[1..], entries[1..], name);
    }
  }

  /** The disk has no block for a byte exactly when the files fill it. */
  lemma FullIs(s: Image, st: Store, f: nat, pos: nat)
    requires Shows(s, st) && f < |s.data|
    ensures OutOfBlocks(s, f, pos) <==> Full(st, |s.data[f]|, pos)
  {
  }

  /** A step that changes one file of the image changes that file of the store. */
  lemma ShowsAfter(s: Image, s': Image, st: Store, f: nat)
    requires Shows(s, st) && AllTight(s') && Elsewhere(s, s', f) && f < |s.data|
    ensures |s'.data| == |s.data| && |st.files| == |s.data|
    ensures Shows(s', st.(files := st.files[f := st.files[f].(data := s'.data[f])]))
  {
    var x := st.files[f].(data := s'.data[f]);
    UsedUpdate(st.files, f, x);
    TightOf(s, f);
    TightOf(s', f);
    hide Blocks, IBlocks, IndexUsed, DataUsed, AllTight;
  }

  /** Only the handles matter to `Shows` through the files. */
  lemma ShowsHandles(s: Image, st: Store, handles: seq<Place>)
    requires Shows(s, st)
    ensures Shows(s, st.(handles := handles))
  {
  }

  /** Caches of other files are as before. */
  lemma OthersViews(s: Image, s': Image, f: nat)
    requires Elsewhere(s, s', f)
    ensures |s'.views| == |s.views| && forall g :: 0 <= g < |s.views| && g != f ==> s'.views[g] == s.views[g]
  {
  }

  lemma StillOpen(handles: seq<Place>, i: nat, p: Place, g: nat)
    requires OpenOn(handles, g) && i < |handles| && handles[i].At? && p.At? && p.file == handles[i].file
    ensures OpenOn(handles[i := p], g)
  {
    var k :| 0 <= k < |handles| && handles[k].At? && handles[k].file == g;
    assert handles[i := p][k].At? && handles[i := p][k].file == g;
  }

  lemma ShowsSizes(s: Image, st: Store)
    requires Shows(s, st)
    ensures Sized(s) && AllTight(s) && |st.files| == |s.data|
    ensures forall f :: 0 <= f < |s.data| ==> st.files[f] == NamedFile(s.dir.entries[f].name, s.data[f])
  {
  }

  /** What an operation on the file of one open handle leaves. */
  lemma FileOp(fs: LocalFs, hs: seq<FileHandle>, st: Store, i: nat, s0: Image)
    requires HeldBut(s0, hs, st, i) && st.handles[i].At? && st.handles[i].file == hs[i].entry < |s0.data|
    requires fs.Valid(hs[i]) && hs[i].used && Elsewhere(s0, fs.img, hs[i].entry)
    ensures Holds(fs, hs, WithCursor(st, i, fs.File(hs[i])))
  {
    hide Consistent, AllTight, Elsewhere, Shows;
    var f, s := hs[i].entry, fs.img;
    CachePlaces(s, f);
    ShowsSizes(s0, st);
    OthersViews(s0, s, f);
    var st' := WithCursor(st, i, fs.File(hs[i]));
    assert Shows(s, st') by {
      ShowsAfter(s0, s, st, f);
      ShowsHandles(s, st.(files := st.files[f := st.files[f].(data := s.data[f])]), st'.handles);
    }
    forall j | 0 <= j < |hs|
      ensures HandleIn(s.views, hs[j], st'.handles[j])
    {
      assert j != i ==> HandleIn(s0.views, hs[j], st.handles[j]);
    }
    forall g | 0 <= g < |s.views| && s.views[g].Open?
      ensures OpenOn(st'.handles, g)
    {
      StillOpen(st.handles, i, st'.handles[i], g);
    }
  }

  /** What closing a handle leaves. */
  lemma ClosedOp(fs: LocalFs, hs: seq<FileHandle>, st: Store, i: nat, s0: Image, f: nat)
    requires HeldBut(s0, hs, st, i) && st.handles[i].At? && st.handles[i].file == f < |s0.data|
    requires fs.Valid(hs[i]) && !hs[i].used && |hs[i].dblock| == BLKSIZ
    requires Same(s0, fs.img, f) && f < |fs.img.views| && fs.img.views[f].Closed?
    ensures Holds(fs, hs, WithPlace(st, i, Idle))
  {
    hide Consistent, AllTight, Elsewhere, Shows;
    var s := fs.img;
    ShowsSizes(s0, st);
    OthersViews(s0, s, f);
    var st' := WithPlace(st, i, Idle);
    assert Shows(s, st') by {
      ShowsAfter(s0, s, st, f);
      assert st.files[f := st.files[f].(data := s.data[f])] == st.files;
      ShowsHandles(s, st, st'.handles);
    }
    forall j | 0 <= j < |hs|
      ensures HandleIn(s.views, hs[j], st'.handles[j])
    {
      assert j != i ==> HandleIn(s0.views, hs[j], st.handles[j]);
    }
    forall g | 0 <= g < |s.views| && s.views[g].Open?
      ensures OpenOn(st'.handles, g)
    {
      var k :| 0 <= k < |st.handles| && st.handles[k].At? && st.handles[k].file == g;
      assert k != i && st'.handles[k] == st.handles[k];
    }
  }

  /** The image with one more file shows the store with one more file. */
  lemma GrownShows(s: Image, st: Store, name: string)
    requires Shows(s, st)
    ensures Sized(Grown(s, name)) && MoreClosed(s.views, Grown(s, name).views)
    ensures AllTight(Grown(s, name)) ==> Shows(Grown(s, name), st.(files := st.files + [NamedFile(name, [])]))
  {
    var files := st.files + [NamedFile(name, [])];
    assert files[..|files| - 1] == st.files;
  }

  /** Files added are closed. */
  predicate MoreClosed(views: seq<Cache>, views': seq<Cache>)
  {
    |views| <= |views'| && views'[..|views|] == views && forall g :: |views| <= g < |views'| ==> views'[g].Closed?
  }

  /** One more, empty, file, not open on any handle. */
  lemma GrownHeld(s: Image, hs: seq<FileHandle>, st: Store, i: nat, name: string)
    requires HeldBut(s, hs, st, i)
    ensures HeldBut(Grown(s, name), hs, st.(files := st.files + [NamedFile(name, [])]), i)
  {
    hide Consistent, AllTight, Shows;
    var s', st' := Grown(s, name), st.(files := st.files + [NamedFile(name, [])]);
    ShowsSizes(s, st);
    Grow(s, name);
    GrownShows(s, st, name);
    hide Grown;
    forall j | 0 <= j < |hs| && j != i
      ensures HandleIn(s'.views, hs[j], st'.handles[j])
    {
      assert HandleIn(s.views, hs[j], st.handles[j]);
      if hs[j].used { assert s'.views[hs[j].entry] == s.views[hs[j].entry]; }
    }
    forall f | 0 <= f < |s'.views| && s'.views[f].Open?
      ensures OpenOn(st'.handles, f)
    {
      assert f < |s.views| && s'.views[f] == s.views[f];
    }
  }

  /** What opening a file that is on no handle leaves. */
  lemma OpenedOp(fs: LocalFs, hs: seq<FileHandle>, st: Store, i: nat, s0: Image, f: nat)
    requires HeldBut(s0, hs, st, i) && st.handles[i].Idle? && f < |s0.data| && !OpenOn(st.handles, f)
    requires fs.Valid(hs[i]) && hs[i].used && hs[i].entry == f && hs[i].pos == 0 && Same(s0, fs.img, f)
    ensures Holds(fs, hs, WithPlace(st, i, At(f, 0)))
  {
    hide Consistent, AllTight, Elsewhere, Shows;
    var s := fs.img;
    CachePlaces(s, f);
    ShowsSizes(s0, st);
    OthersViews(s0, s, f);
    var st' := WithPlace(st, i, At(f, 0));
    assert Shows(s, st') by {
      ShowsAfter(s0, s, st, f);
      assert st.files[f := st.files[f].(data := s.data[f])] == st.files;
      ShowsHandles(s, st, st'.handles);
    }
    forall j | 0 <= j < |hs|
      ensures HandleIn(s.views, hs[j], st'.handles[j])
    {
      assert j != i ==> HandleIn(s0.views, hs[j], st.handles[j]);
    }
    forall g | 0 <= g < |s.views| && s.views[g].Open?
      ensures OpenOn(st'.handles, g)
    {
      if g == f {
        assert st'.handles[i].At? && st'.handles[i].file == f;
      } else {
        var k :| 0 <= k < |st.handles| && st.handles[k].At? && st.handles[k].file == g;
        assert k != i && st'.handles[k] == st.handles[k];
      }
    }
  }

  /** What the store says of a handle. */
  lemma HandleSays(fs: LocalFs, hs: seq<FileHandle>, st: Store, i: nat)
    requires Holds(fs, hs, st) && i < |hs|
    ensures WellFormed(st) && |st.handles| == |hs| && fs.Valid(hs[i]) && HandleIn(fs.img.views, hs[i], st.handles[i])
    ensures HeldBut(fs.img, hs, st, i)
    ensures hs[i].used ==> CursorAt(st, i) == fs.File(hs[i]) && hs[i].entry < |fs.img.data| == |st.files|
                           && st.files[hs[i].entry].data == fs.img.data[hs[i].entry]
  {
    hide Consistent, AllTight;
    ShowsSizes(fs.img, st);
    if hs[i].used { CachePlaces(fs.img, hs[i].entry); }
  }

  /** When a handle is found for a name, no handle stands in a file of that name: every such file is closed. */
  lemma ClosedByName(fs: LocalFs, hs: seq<FileHandle>, st: Store, name: string)
    requires Holds(fs, hs, st) && WellFormed(st) && |hs| == |st.handles|
    requires name != "" ==> forall k :: 0 <= k < |st.handles| && st.handles[k].At? ==>
               st.files[st.handles[k].file].name != name
    ensures HandleFor(hs, name) == HandleOf(st.handles, name)
    ensures fs.img.dir == fs.dir && Sized(fs.img) && Consistent(fs.img)
    ensures FindFile(st.files, name) == Find(fs.dir.entries, name)
    ensures |st.files| == |fs.dir.entries| == |fs.img.data|
    ensures HandleFor(hs, name) != SYSERR ==>
              forall f :: 0 <= f < |fs.img.views| ==>
                && f < |fs.dir.entries|
                && (fs.dir.entries[f].name == name ==> fs.img.views[f].Closed? && !OpenOn(st.handles, f))
  {
    hide Consistent, AllTight;
    SameHandle(fs, hs, st, name);
    ShowsSizes(fs.img, st);
    FindSame(st.files, fs.dir.entries, name);
  }

  lemma SameHandle(fs: LocalFs, hs: seq<FileHandle>, st: Store, name: string)
    requires Holds(fs, hs, st) && |hs| == |st.handles|
    ensures HandleFor(hs, name) == HandleOf(st.handles, name)
    ensures AnyUsed(hs) <==> AnyBusy(st.handles)
  {
    hide Consistent, AllTight, Shows;
    forall i | 0 <= i < |hs|
      ensures hs[i].used <==> st.handles[i].At?
    {
      assert HandleIn(fs.img.views, hs[i], st.handles[i]);
    }
    if AnyUsed(hs) {
      var i :| 0 <= i < |hs| && hs[i].used;
      assert st.handles[i].At?;
    }
    if AnyBusy(st.handles) {
      var i :| 0 <= i < |hs| && st.handles[i].At?;
      assert hs[i].used;
    }
  }

  lemma NobodyBeyond(st: Store)
    requires WellFormed(st)
    ensures !OpenOn(st.handles, |st.files|)
  {
  }

  /** What opening a file does to the store. */
  lemma OpenSpec(st: Store, name: string, mustExist: bool, mustBeNew: bool)
    requires WellFormed(st) && May(st, Cmd.Open(name, mustExist, mustBeNew))
    ensures var i, h := FindFile(st.files, name), HandleOf(st.handles, name);
            StepSpec(st, Cmd.Open(name, mustExist, mustBeNew)) ==
            if h == SYSERR || |name| >= NAMELEN || (if i < |st.files| then mustBeNew else mustExist || i >= NUMDIRENT)
            then Answers(st, SYSERR)
            else
              var st1 := if i < |st.files| then st else st.(files := st.files + [NamedFile(name, [])]);
              Answers(WithPlace(st1, h, At(i, 0)), h)
  {
  }

  /** The disk, the handles and the answer are what the store says of a command. */
  ghost predicate Does(fs: LocalFs, hs: seq<FileHandle>, st: Store, c: Cmd, panicked: bool, r: int)
    requires WellFormed(st) && May(st, c)
    reads fs, hs
  {
    match StepSpec(st, c)
    case Stops => panicked
    case Answers(st', x) => !panicked && r == x && Holds(fs, hs, st')
  }

  method DoOpen(fs: LocalFs, hs: seq<FileHandle>, name: string, mustExist: bool, mustBeNew: bool, ghost st: Store)
    returns (r: int)
    requires Holds(fs, hs, st) && WellFormed(st) && May(st, Cmd.Open(name, mustExist, mustBeNew))
    modifies fs, hs
    ensures Does(fs, hs, st, Cmd.Open(name, mustExist, mustBeNew), false, r)
  {
    hide Consistent, AllTight, Elsewhere, Same, Shows, StepSpec, HandleFor, WithPlace, OpenOn;
    OpenSpec(st, name, mustExist, mustBeNew);
    ClosedByName(fs, hs, st, name);
    ghost var s0, f, i := fs.img, Find(fs.dir.entries, name), HandleFor(hs, name);
    if i != SYSERR { HandleSays(fs, hs, st, i); }
    r := fs.Open(hs, name, mustExist, mustBeNew);
    if r != SYSERR {
      forall j | 0 <= j < |hs| && j != i
        ensures HandleIn(s0.views, hs[j], st.handles[j])
      {
        assert hs[j] in hs && hs[j] != hs[i];
        assert old(HandleIn(s0.views, hs[j], st.handles[j]));
      }
      assert HeldBut(s0, hs, st, i);
      if f == |s0.data| {
        NobodyBeyond(st);
        GrownHeld(s0, hs, st, i, name);
        OpenedOp(fs, hs, st.(files := st.files + [NamedFile(name, [])]), i, Grown(s0, name), f);
      } else {
        OpenedOp(fs, hs, st, i, s0, f);
      }
    } else {
      forall j | 0 <= j < |hs|
        ensures HandleIn(s0.views, hs[j], st.handles[j])
      {
        assert hs[j] in hs;
        assert old(HandleIn(s0.views, hs[j], st.handles[j]));
      }
    }
  }

  method DoPut(fs: LocalFs, hs: seq<FileHandle>, i: nat, ch: byte, ghost st: Store) returns (panicked: bool, r: int)
    requires Holds(fs, hs, st) && WellFormed(st) && May(st, Put(i, ch)) && i < |hs|
    modifies fs, hs[i]
    ensures Does(fs, hs, st, Put(i, ch), panicked, r)
  {
    hide Consistent, AllTight, Elsewhere, Same, Shows, Full, OutOfBlocks;
    ghost var s0 := fs.img;
    HandleSays(fs, hs, st, i);
    if hs[i].used { FullIs(fs.img, st, hs[i].entry, hs[i].pos); }
    panicked, r := fs.Putc(hs[i], ch);
    if !panicked && hs[i].used { FileOp(fs, hs, st, i, s0); }
  }

  method DoGet(fs: LocalFs, hs: seq<FileHandle>, i: nat, ghost st: Store) returns (r: int)
    requires Holds(fs, hs, st) && WellFormed(st) && May(st, Get(i)) && i < |hs|
    modifies fs, hs[i]
    ensures Does(fs, hs, st, Get(i), false, r)
  {
    hide Consistent, AllTight, Elsewhere, Shows;
    ghost var s0 := fs.img;
    HandleSays(fs, hs, st, i);
    r := fs.Getc(hs[i]);
    if hs[i].used { FileOp(fs, hs, st, i, s0); }
  }

  method DoSeek(fs: LocalFs, hs: seq<FileHandle>, i: nat, offset: nat, ghost st: Store) returns (r: int)
    requires Holds(fs, hs, st) && WellFormed(st) && May(st, SeekTo(i, offset)) && i < |hs|
    modifies fs, hs[i]
    ensures Does(fs, hs, st, SeekTo(i, offset), false, r)
  {
    hide Consistent, AllTight, Elsewhere, Shows;
    ghost var s0 := fs.img;
    HandleSays(fs, hs, st, i);
    r := fs.Seek(hs[i], offset);
    if hs[i].used { FileOp(fs, hs, st, i, s0); }
  }

  method DoTruncate(fs: LocalFs, hs: seq<FileHandle>, i: nat, ghost st: Store) returns (r: int)
    requires Holds(fs, hs, st) && WellFormed(st) && May(st, Truncate(i)) && i < |hs|
    modifies fs, hs[i]
    ensures Does(fs, hs, st, Truncate(i), false, r)
  {
    hide Consistent, AllTight, Elsewhere, Shows;
    ghost var s0 := fs.img;
    HandleSays(fs, hs, st, i);
    r := LfsTruncate.Truncate(fs, hs[i]);
    FileOp(fs, hs, st, i, s0);
  }

  method DoClose(fs: LocalFs, hs: seq<FileHandle>, i: nat, ghost st: Store) returns (r: int)
    requires Holds(fs, hs, st) && WellFormed(st) && May(st, Close(i)) && i < |hs|
    modifies fs, hs[i]
    ensures Does(fs, hs, st, Close(i), false, r)
  {
    hide Consistent, AllTight, Elsewhere, Same, Shows;
    ghost var s0 := fs.img;
    HandleSays(fs, hs, st, i);
    ghost var open, f := hs[i].used, hs[i].entry;
    r := fs.Close(hs[i]);
    if open {
      SameSized(s0, fs.img, f);
      ClosedOp(fs, hs, st, i, s0, f);
    }
  }

  /** One command. It stops the system if and only if it needs a block and the files fill the disk. */
  method Step(fs: LocalFs, hs: seq<FileHandle>, c: Cmd, ghost st: Store) returns (panicked: bool, r: int)
    requires Holds(fs, hs, st) && May(st, c)
    modifies fs, hs
    ensures panicked <==> StepSpec(st, c).Stops?
    ensures !panicked ==> r == StepSpec(st, c).r && Holds(fs, hs, StepSpec(st, c).st)
  {
    hide Holds, StepSpec;
    HoldsSizes(fs, hs, st);
    panicked := false;
    match c {
      case Open(name, mustExist, mustBeNew) => r := DoOpen(fs, hs, name, mustExist, mustBeNew, st);
      case Put(h, ch) => panicked, r := DoPut(fs, hs, h, ch, st);
      case Get(h) => r := DoGet(fs, hs, h, st);
      case SeekTo(h, offset) => r := DoSeek(fs, hs, h, offset, st);
      case Truncate(h) => r := DoTruncate(fs, hs, h, st);
      case Close(h) => r := DoClose(fs, hs, h, st);
    }
  }

  lemma HoldsSizes(fs: LocalFs, hs: seq<FileHandle>, st: Store)
    requires Holds(fs, hs, st)
    ensures |hs| == |st.handles| && WellFormed(st)
  {
  }

  /** The store after the commands that were carried out, what each answered, and whether the last one stopped. */
  datatype Outcome = Outcome(st: Store, out: seq<int>, stopped: bool)

  function RunSpec(st: Store, cs: seq<Cmd>): (o: Outcome)
  {
    if cs == [] then Outcome(st, [], false)
    else
      var o := RunSpec(st, cs[..|cs| - 1]);
      var c := cs[|cs| - 1];
      if o.stopped || !WellFormed(o.st) || !May(o.st, c) then o.(stopped := true)
      else match StepSpec(o.st, c)
        case Stops => o.(stopped := true)
        case Answers(st', r) => Outcome(st', o.out + [r], false)
  }

  /** Every command of the session was allowed where it was given. */
  ghost predicate Allowed(st: Store, cs: seq<Cmd>)
  {
    forall i :: 0 <= i < |cs| ==>
      var o := RunSpec(st, cs[..i]); !o.stopped ==> WellFormed(o.st) && May(o.st, cs[i])
  }

  lemma RunOn(st: Store, cs: seq<Cmd>, i: nat)
    requires i < |cs|
    ensures var o, o' := RunSpec(st, cs[..i]), RunSpec(st, cs[..i + 1]);
            if o.stopped || !WellFormed(o.st) || !May(o.st, cs[i]) then o' == o.(stopped := true)
            else match StepSpec(o.st, cs[i])
              case Stops => o' == o.(stopped := true)
              case Answers(st', r) => o' == Outcome(st', o.out + [r], false)
  {
    assert cs[..i + 1][..i] == cs[..i];
  }

  lemma {:induction false} StaysStopped(st: Store, cs: seq<Cmd>, i: nat)
    requires i <= |cs| && RunSpec(st, cs[..i]).stopped
    ensures RunSpec(st, cs) == RunSpec(st, cs[..i])
    decreases |cs|
  {
    if i < |cs| {
      assert cs[..|cs| - 1][..i] == cs[..i];
      StaysStopped(st, cs[..|cs| - 1], i);
    } else {
      assert cs[..i] == cs;
    }
  }

  /** Any session on a store answers as the store does, and stops exactly where the store is full. */
  method Serve(fs: LocalFs, hs: seq<FileHandle>, cs: seq<Cmd>, ghost st: Store) returns (stopped: bool, out: seq<int>)
    requires Holds(fs, hs, st) && Allowed(st, cs)
    modifies fs, hs
    ensures (out, stopped) == (RunSpec(st, cs).out, RunSpec(st, cs).stopped)
    ensures !stopped ==> Holds(fs, hs, RunSpec(st, cs).st)
  {
    hide Holds, RunSpec, StepSpec;
    stopped, out := false, [];
    assert RunSpec(st, cs[..0]) == Outcome(st, [], false) by { NoCommands(st, cs); }
    for i := 0 to |cs|
      invariant RunSpec(st, cs[..i]).out == out && !RunSpec(st, cs[..i]).stopped
      invariant Holds(fs, hs, RunSpec(st, cs[..i]).st)
    {
      RunOn(st, cs, i);
      var r;
      stopped, r := Step(fs, hs, cs[i], RunSpec(st, cs[..i]).st);
      if stopped {
        StaysStopped(st, cs, i + 1);
        return;
      }
      out := out + [r];
    }
    assert cs[..|cs|] == cs;
  }

  lemma NoCommands(st: Store, cs: seq<Cmd>)
    ensures RunSpec(st, cs[..0]) == Outcome(st, [], false)
  {
  }

  /** Control blocks for `n` files, none in use. */
  method MakeHandles(n: nat) returns (hs: seq<FileHandle>)
    ensures |hs| == n && fresh(hs) && Distinct(hs)
    ensures forall i :: 0 <= i < n ==> !hs[i].used && |hs[i].dblock| == BLKSIZ
  {
    hs := [];
    for k := 0 to n
      invariant |hs| == k && fresh(hs) && Distinct(hs)
      invariant forall i :: 0 <= i < k ==> !hs[i].used && |hs[i].dblock| == BLKSIZ
    {
      var h := new FileHandle();
      hs := hs + [h];
    }
  }

  /** The store of a freshly formatted disk. */
  function EmptyStore(n: nat, ibsectors: nat, sectors: nat): Store
    requires ibsectors + 1 <= sectors
  {
    Store([], seq(n, _ => Idle), LfsFormat.IBPERSECTOR * ibsectors, sectors - ibsectors - 1)
  }

  /** Formats a disk, makes handles, and serves any session: its answers, and where it stops, depend only on the
      commands and on how many blocks of each kind the disk has. */
  method FormatAndServe(disk: LfsFormat.RawDisk, lfiblks: int, dsiz: nat, n: nat, cs: seq<Cmd>)
    returns (r: int, stopped: bool, out: seq<int>)
    requires dsiz < TWO32 && |disk.db| == dsiz / BLKSIZ && |disk.ib| == LfsFormat.IBPERSECTOR * |disk.db|
    requires 0 < LfsFormat.IndexSectors(lfiblks) && LfsFormat.IndexSectors(lfiblks) + 1 < dsiz / BLKSIZ
    requires Allowed(EmptyStore(n, LfsFormat.IndexSectors(lfiblks), dsiz / BLKSIZ), cs)
    modifies disk
    ensures r == OK <==> LfsFormat.IndexSectors(lfiblks) <= dsiz / BLKSIZ / 2
    ensures r == OK ==>
              var o := RunSpec(EmptyStore(n, LfsFormat.IndexSectors(lfiblks), dsiz / BLKSIZ), cs);
              out == o.out && stopped == o.stopped
  {
    hide Consistent, RunSpec, Allowed, LfsFormat.IndexSectors, AllTight, StepSpec;
    stopped, out := false, [];
    r := LfsFormat.Create(disk, lfiblks, dsiz);
    if r != OK {
      return;
    }
    var ibsectors := LfsFormat.IndexSectors(lfiblks);
    var ib := disk.ib[..LfsFormat.IBPERSECTOR * ibsectors];
    ghost var s := LfsFormat.Fresh(ib, disk.db, disk.dir, ibsectors + 1);
    ghost var st := EmptyStore(n, ibsectors, dsiz / BLKSIZ);
    FreshShows(s, st, n, ibsectors, dsiz / BLKSIZ);
    var fs := new LocalFs(ib, disk.db, disk.dir, s);
    var hs := MakeHandles(n);
    hide LfsFormat.Fresh, Shows, Holds;
    FreshHolds(fs, hs, st);
    stopped, out := Serve(fs, hs, cs, st);
  }

  lemma FreshShows(s: Image, st: Store, n: nat, ibsectors: nat, sectors: nat)
    requires ibsectors + 1 <= sectors && st == EmptyStore(n, ibsectors, sectors)
    requires |s.ib| == LfsFormat.IBPERSECTOR * ibsectors && |s.db| == sectors && s.dir.entries == [] && AllTight(s)
    requires s == LfsFormat.Fresh(s.ib, s.db, s.dir, ibsectors + 1)
    ensures Shows(s, st) && s.views == []
  {
    hide AllTight;
  }

  lemma FreshHolds(fs: LocalFs, hs: seq<FileHandle>, st: Store)
    requires fs.img.ib == fs.ib && fs.img.db == fs.db && fs.img.dir == fs.dir && Consistent(fs.img)
    requires Shows(fs.img, st) && st.files == [] && Distinct(hs) && |hs| == |st.handles| && fs.img.views == []
    requires forall i :: 0 <= i < |hs| ==> !hs[i].used && |hs[i].dblock| == BLKSIZ && st.handles[i].Idle?
    ensures Holds(fs, hs, st)
  {
  }
}
