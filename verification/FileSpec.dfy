/** What an open file is to its user: a sequence of bytes and a cursor. */
module FileSpec {
  import opened Codes
  import opened LfsLayout

  const EOF := -2

  datatype Cursor = Cursor(data: seq<byte>, pos: nat)

  function PutSpec(c: Cursor, ch: byte): Cursor
    requires c.pos <= |c.data|
  {
    Cursor(Stored(c.data, c.pos, ch), c.pos + 1)
  }

  function GetSpec(c: Cursor): (Cursor, int)
  {
    if c.pos < |c.data| then (c.(pos := c.pos + 1), c.data[c.pos] as int) else (c, EOF)
  }

  function SeekSpec(c: Cursor, offset: nat): (Cursor, int)
  {
    if offset <= |c.data| then (c.(pos := offset), OK) else (c, SYSERR)
  }

  /** Putting the bytes of `bs` one after the other. */
  function WriteSpec(c: Cursor, bs: seq<byte>): (r: Cursor)
    requires c.pos <= |c.data|
    ensures r.pos == c.pos + |bs| <= |r.data|
    ensures |r.data| == if c.pos + |bs| > |c.data| then c.pos + |bs| else |c.data|
  {
    if bs == [] then c else PutSpec(WriteSpec(c, bs[..|bs| - 1]), bs[|bs| - 1])
  }

  lemma NoWrite(c: Cursor, bs: seq<byte>)
    requires c.pos <= |c.data|
    ensures WriteSpec(c, bs[..0]) == c
  {
  }

  lemma WriteOn(c: Cursor, bs: seq<byte>, i: nat)
    requires c.pos <= |c.data| && i < |bs|
    ensures WriteSpec(c, bs[..i + 1]) == PutSpec(WriteSpec(c, bs[..i]), bs[i])
  {
    assert bs[..i + 1][..i] == bs[..i];
  }

  /** `bs` laid over `data` from `pos` on. */
  function Laid(data: seq<byte>, pos: nat, bs: seq<byte>): seq<byte>
    requires pos <= |data|
  {
    data[..pos] + bs + (if pos + |bs| < |data| then data[pos + |bs|..] else [])
  }

  lemma LayOne(data: seq<byte>, pos: nat, bs: seq<byte>, ch: byte)
    requires pos <= |data|
    ensures Stored(Laid(data, pos, bs), pos + |bs|, ch) == Laid(data, pos, bs + [ch])
  {
    if pos + |bs| < |data| {
      assert data[pos + |bs|..] == [data[pos + |bs|]] + data[pos + |bs| + 1..];
    }
  }

  /** A write replaces what stands at the cursor, growing the file at its end; nothing else changes. */
  lemma {:induction false} WriteReplaces(c: Cursor, bs: seq<byte>)
    requires c.pos <= |c.data|
    ensures WriteSpec(c, bs).data == Laid(c.data, c.pos, bs)
    ensures forall i :: 0 <= i < |WriteSpec(c, bs).data| ==>
              WriteSpec(c, bs).data[i] == if c.pos <= i < c.pos + |bs| then bs[i - c.pos] else c.data[i]
  {
    if bs == [] {
      assert c.data == c.data[..c.pos] + c.data[c.pos..];
    } else {
      var n := |bs| - 1;
      WriteReplaces(c, bs[..n]);
      LayOne(c.data, c.pos, bs[..n], bs[n]);
      assert bs == bs[..n] + [bs[n]];
    }
  }

  /** The bytes a read of at most `count` gives. */
  function ReadBytes(c: Cursor, count: nat): seq<byte>
    requires c.pos <= |c.data|
  {
    if c.pos + count <= |c.data| then c.data[c.pos..c.pos + count] else c.data[c.pos..]
  }

  /** A seek works just when the position is not past the end; then reads go on from there, and they give what
      stands there up to the end. One that fails leaves the cursor. */
  lemma SeekThenRead(c: Cursor, offset: nat, count: nat)
    requires c.pos <= |c.data|
    ensures SeekSpec(c, offset).1 == if offset <= |c.data| then OK else SYSERR
    ensures offset > |c.data| ==> SeekSpec(c, offset).0 == c
    ensures offset <= |c.data| ==>
              var c' := SeekSpec(c, offset).0;
              && c'.data == c.data && c'.pos <= |c'.data|
              && ReadBytes(c', count)
                 == c.data[offset..][..if count < |c.data| - offset then count else |c.data| - offset]
  {
  }

  /** Reading back what was written, after any file content. */
  lemma ReadsBack(c: Cursor, bs: seq<byte>)
    requires c.pos <= |c.data|
    ensures ReadBytes(WriteSpec(c, bs).(pos := c.pos), |bs|) == bs
  {
    WriteReplaces(c, bs);
  }
}
