/** The 32-bit cyclic redundancy check: by table, eight bytes at a time, against the definition bit by bit. */
module Crc32 {

  const ONES: bv32 := 0xFFFF_FFFF

  /** The generator polynomial without its highest term, lowest power in the most significant bit. */
  const POLY: bv32 := 0xEDB8_8320

  // --- words ---

  function Xor(a: bv32, b: bv32): bv32 { a ^ b }

  function Half(c: bv32): bv32 { c >> 1 }

  predicate Odd(c: bv32) { c & 1 == 1 }

  function Down(c: bv32): bv32 { c >> 8 }

  function Low(c: bv32): bv32 { c & 0xFF }

  function High(c: bv32): bv32 { c & 0xFFFF_FF00 }

  lemma XorHalf(a: bv32, b: bv32)
    ensures Half(Xor(a, b)) == Xor(Half(a), Half(b))
  {
  }

  lemma XorOdd(a: bv32, b: bv32)
    ensures Odd(Xor(a, b)) <==> Odd(a) != Odd(b)
  {
  }

  lemma XorAssoc(a: bv32, b: bv32, c: bv32)
    ensures Xor(Xor(a, b), c) == Xor(a, Xor(b, c))
  {
  }

  lemma XorComm(a: bv32, b: bv32)
    ensures Xor(a, b) == Xor(b, a)
  {
  }

  lemma XorTwice(a: bv32, b: bv32)
    ensures Xor(Xor(a, b), b) == a
  {
  }

  /** Both sides added: what is common goes away. */
  lemma XorBoth(x: bv32, y: bv32, w: bv32)
    ensures Xor(Xor(x, w), Xor(y, w)) == Xor(x, y)
  {
    hide Xor;
    XorAssoc(Xor(x, w), y, w);
    XorAssoc(x, w, y);
    XorComm(w, y);
    XorAssoc(x, y, w);
    XorTwice(Xor(x, y), w);
  }

  lemma LowHigh(x: bv32)
    ensures x == Xor(Low(x), High(x))
  {
  }

  lemma HighClear(x: bv32)
    ensures Low(High(x)) == 0
  {
  }

  lemma HighWord(c: bv32, b: bv8)
    ensures Down(High(Xor(c, b as bv32))) == Down(c)
  {
  }

  lemma WordAgain(v: bv32)
    ensures (v as int) as bv32 == v
  {
  }

  lemma LowRange(v: bv32)
    ensures Low(v) as int < 256
  {
  }

  // --- the definition ---

  /** One bit shifted out of the register: multiplication by x, modulo the generator. */
  function Shift(c: bv32): bv32
  {
    if Odd(c) then Xor(POLY, Half(c)) else Half(c)
  }

  function Shifts(c: bv32, n: nat): bv32
  {
    if n == 0 then c else Shift(Shifts(c, n - 1))
  }

  /** The register after the bits of a message: each byte is added to its low end and shifted through. */
  function Bitwise(c: bv32, buf: seq<bv8>): bv32
  {
    if buf == [] then c else Shifts(Xor(Bitwise(c, buf[..|buf| - 1]), buf[|buf| - 1] as bv32), 8)
  }

  /** The check of a message that goes on from one whose check was `crc`; that of no message at all is 0. */
  function Crc(crc: bv32, buf: seq<bv8>): bv32
  {
    Xor(Bitwise(Xor(crc, ONES), buf), ONES)
  }

  /** Shifting is linear. */
  lemma ShiftLinear(a: bv32, b: bv32)
    ensures Shift(Xor(a, b)) == Xor(Shift(a), Shift(b))
  {
    hide Xor, Half, Odd;
    XorHalf(a, b);
    XorOdd(a, b);
    XorComm(POLY, Half(a));
    XorComm(POLY, Half(b));
    XorBoth(Half(a), Half(b), POLY);
    XorAssoc(POLY, Half(a), Half(b));
    XorAssoc(Half(a), POLY, Half(b));
  }

  lemma {:induction false} ShiftsLinear(a: bv32, b: bv32, n: nat)
    ensures Shifts(Xor(a, b), n) == Xor(Shifts(a, n), Shifts(b, n))
  {
    hide Shift, Xor;
    if n > 0 {
      ShiftsLinear(a, b, n - 1);
      ShiftLinear(Shifts(a, n - 1), Shifts(b, n - 1));
    }
  }

  lemma Bits(c: bv32)
    requires Low(c) == 0
    ensures !Odd(c) && !Odd(c >> 1) && !Odd(c >> 2) && !Odd(c >> 3)
    ensures !Odd(c >> 4) && !Odd(c >> 5) && !Odd(c >> 6) && !Odd(c >> 7)
    ensures Half(c) == c >> 1 && Half(c >> 1) == c >> 2 && Half(c >> 2) == c >> 3 && Half(c >> 3) == c >> 4
    ensures Half(c >> 4) == c >> 5 && Half(c >> 5) == c >> 6 && Half(c >> 6) == c >> 7 && Half(c >> 7) == c >> 8
  {
  }

  lemma Eight(c: bv32)
    ensures Shifts(c, 8) == Shift(Shift(Shift(Shift(Shift(Shift(Shift(Shift(c))))))))
  {
    hide Shift;
    assert Shifts(c, 0) == c;
    assert Shifts(c, 1) == Shift(c);
    assert Shifts(c, 2) == Shift(Shifts(c, 1));
    assert Shifts(c, 3) == Shift(Shifts(c, 2));
    assert Shifts(c, 4) == Shift(Shifts(c, 3));
    assert Shifts(c, 5) == Shift(Shifts(c, 4));
    assert Shifts(c, 6) == Shift(Shifts(c, 5));
    assert Shifts(c, 7) == Shift(Shifts(c, 6));
  }

  /** A register whose low byte is clear is only moved down. */
  lemma ShiftClear(c: bv32)
    requires Low(c) == 0
    ensures Shifts(c, 8) == Down(c)
  {
    Bits(c);
    Eight(c);
    hide Xor, Half, Odd, Low;
  }

  /** What the table holds for each byte: the byte shifted through. */
  function Entry(n: nat): bv32
    requires n < 256
  {
    Shifts(n as bv32, 8)
  }

  ghost predicate IsTable(t: seq<bv32>)
  {
    |t| == 256 && forall n :: 0 <= n < 256 ==> t[n] == Entry(n)
  }

  function Index(c: bv32, b: bv8): (n: nat)
    ensures n < 256
  {
    LowRange(Xor(c, b as bv32));
    Low(Xor(c, b as bv32)) as int
  }

  lemma IndexWord(c: bv32, b: bv8)
    ensures Index(c, b) as bv32 == Low(Xor(c, b as bv32))
  {
    hide Xor, Low;
    WordAgain(Low(Xor(c, b as bv32)));
  }

  lemma EntryIndex(c: bv32, b: bv8)
    ensures Entry(Index(c, b)) == Shifts(Low(Xor(c, b as bv32)), 8)
  {
    hide Xor, Low, Index, Shifts;
    IndexWord(c, b);
  }

  /** A byte by the table is eight shifts. */
  lemma TableStep(t: seq<bv32>, c: bv32, b: bv8)
    requires IsTable(t)
    ensures Xor(t[Index(c, b)], Down(c)) == Shifts(Xor(c, b as bv32), 8)
  {
    hide Xor, Low, High, Index, Shifts, Down, Entry;
    var x := Xor(c, b as bv32);
    LowHigh(x);
    HighClear(x);
    HighWord(c, b);
    EntryIndex(c, b);
    ShiftsLinear(Low(x), High(x), 8);
    ShiftClear(High(x));
    assert t[Index(c, b)] == Entry(Index(c, b));
  }

  lemma {:induction false} BitwiseConcat(c: bv32, a: seq<bv8>, b: seq<bv8>)
    ensures Bitwise(c, a + b) == Bitwise(Bitwise(c, a), b)
  {
    hide Xor, Shifts;
    if b == [] {
      assert a + b == a;
    } else {
      var n := |b| - 1;
      BitwiseConcat(c, a, b[..n]);
      assert (a + b)[..|a + b| - 1] == a + b[..n];
    }
  }

  /** The check of a message in two parts goes on from that of the first. */
  lemma CrcConcat(crc: bv32, a: seq<bv8>, b: seq<bv8>)
    ensures Crc(Crc(crc, a), b) == Crc(crc, a + b)
  {
    hide Xor, Bitwise;
    BitwiseConcat(Xor(crc, ONES), a, b);
    XorTwice(Bitwise(Xor(crc, ONES), a), ONES);
  }

  /** The difference that the register makes to the check does not depend on the message. */
  lemma {:induction false} BitwiseLinear(c: bv32, d: bv32, buf: seq<bv8>)
    ensures Xor(Bitwise(c, buf), Bitwise(d, buf)) == Shifts(Xor(c, d), 8 * |buf|)
  {
    hide Xor, Shift;
    if buf != [] {
      var n := |buf| - 1;
      var x, y, w := Bitwise(c, buf[..n]), Bitwise(d, buf[..n]), buf[n] as bv32;
      BitwiseLinear(c, d, buf[..n]);
      ShiftsLinear(Xor(x, w), Xor(y, w), 8);
      XorBoth(x, y, w);
      ShiftsAdd(Xor(c, d), 8 * n, 8);
    }
  }

  lemma {:induction false} ShiftsAdd(c: bv32, n: nat, m: nat)
    ensures Shifts(Shifts(c, n), m) == Shifts(c, n + m)
  {
    hide Shift;
    if m > 0 {
      ShiftsAdd(c, n, m - 1);
    }
  }

  // --- the program ---

  /** The powers of x in the generator polynomial, except the highest. */
  const TERMS: seq<nat> := [0, 1, 2, 4, 5, 7, 8, 10, 11, 12, 16, 22, 23, 26]

  function Term(n: nat): bv32
    requires n < 32
  {
    (1 as bv32) << (31 - n)
  }

  function Terms(n: nat): bv32
    requires n <= 14
  {
    if n == 0 then 0 else Terms(n - 1) | Term(TERMS[n - 1])
  }

  /** The terms make up the polynomial. */
  lemma TermsArePoly()
    ensures Terms(14) == POLY
  {
    FirstTerms();
    hide Term;
    LastTerms();
    assert Terms(10) == Terms(9) | Term(12);
    assert Terms(11) == Terms(10) | Term(16);
    assert Terms(12) == Terms(11) | Term(22);
    assert Terms(13) == Terms(12) | Term(23);
    assert Terms(14) == Terms(13) | Term(26);
  }

  lemma LastTerms()
    ensures Term(12) == 0x8_0000 && Term(16) == 0x8000 && Term(22) == 0x200 && Term(23) == 0x100 && Term(26) == 0x20
  {
  }

  lemma HighTerms()
    ensures Term(0) == 0x8000_0000 && Term(1) == 0x4000_0000 && Term(2) == 0x2000_0000 && Term(4) == 0x800_0000
    ensures Term(5) == 0x400_0000 && Term(7) == 0x100_0000 && Term(8) == 0x80_0000 && Term(10) == 0x20_0000
    ensures Term(11) == 0x10_0000
  {
  }

  lemma FirstTerms()
    ensures Terms(9) == 0xEDB0_0000
  {
    hide Term;
    HighTerms();
    assert Terms(1) == 0x8000_0000;
    assert Terms(2) == 0xC000_0000;
    assert Terms(3) == 0xE000_0000;
    assert Terms(4) == 0xE800_0000;
    assert Terms(5) == 0xEC00_0000;
    assert Terms(6) == 0xED00_0000;
    assert Terms(7) == 0xED80_0000;
    assert Terms(8) == 0xEDA0_0000;
  }

  /** Shifts a byte through bit by bit. */
  method MakeEntry(n: nat, poly: bv32) returns (c: bv32)
    requires n < 256 && poly == POLY
    ensures c == Entry(n)
  {
    hide Shift, Shifts;
    c := n as bv32;
    ghost var start := c;
    NoShift(start);
    for k := 0 to 8
      invariant c == Shifts(start, k)
    {
      ShiftIs(c);
      NextShift(start, k);
      c := if c & 1 != 0 then poly ^ (c >> 1) else c >> 1;
    }
  }

  method MakeTable(table: array<bv32>)
    requires table.Length == 256
    modifies table
    ensures IsTable(table[..])
  {
    hide Term, Entry;
    var poly: bv32 := 0;
    for n := 0 to 14
      invariant poly == Terms(n)
    {
      poly := poly | Term(TERMS[n]);
    }
    TermsArePoly();
    for n := 0 to 256
      invariant forall i :: 0 <= i < n ==> table[i] == Entry(i)
    {
      table[n] := MakeEntry(n, poly);
    }
  }

  lemma ShiftIs(c: bv32)
    ensures Shift(c) == if c & 1 != 0 then POLY ^ (c >> 1) else c >> 1
  {
  }

  lemma NoShift(c: bv32)
    ensures Shifts(c, 0) == c
  {
  }

  lemma NextShift(c: bv32, k: nat)
    ensures Shifts(c, k + 1) == Shift(Shifts(c, k))
  {
  }

  lemma OneMoreByte(c: bv32, buf: seq<bv8>, at: nat)
    requires at < |buf|
    ensures Bitwise(c, buf[..at + 1]) == Shifts(Xor(Bitwise(c, buf[..at]), buf[at] as bv32), 8)
  {
    hide Shifts, Xor;
    assert buf[..at + 1][..at] == buf[..at];
  }

  /** One byte: an entry of the table added to what is left of the register. */
  method Do1(table: array<bv32>, crc: bv32, buf: seq<bv8>, at: nat, ghost start: bv32) returns (r: bv32)
    requires IsTable(table[..]) && at < |buf| && crc == Bitwise(start, buf[..at])
    ensures r == Bitwise(start, buf[..at + 1])
  {
    hide Shifts, Xor, Low, Down, Index, Entry, Bitwise;
    TableStep(table[..], crc, buf[at]);
    OneMoreByte(start, buf, at);
    r := Xor(table[Index(crc, buf[at])], Down(crc));
  }

  method Do2(table: array<bv32>, crc: bv32, buf: seq<bv8>, at: nat, ghost start: bv32) returns (r: bv32)
    requires IsTable(table[..]) && at + 2 <= |buf| && crc == Bitwise(start, buf[..at])
    ensures r == Bitwise(start, buf[..at + 2])
  {
    hide Bitwise, IsTable;
    r := Do1(table, crc, buf, at, start);
    r := Do1(table, r, buf, at + 1, start);
  }

  method Do4(table: array<bv32>, crc: bv32, buf: seq<bv8>, at: nat, ghost start: bv32) returns (r: bv32)
    requires IsTable(table[..]) && at + 4 <= |buf| && crc == Bitwise(start, buf[..at])
    ensures r == Bitwise(start, buf[..at + 4])
  {
    hide Bitwise, IsTable;
    r := Do2(table, crc, buf, at, start);
    r := Do2(table, r, buf, at + 2, start);
  }

  method Do8(table: array<bv32>, crc: bv32, buf: seq<bv8>, at: nat, ghost start: bv32) returns (r: bv32)
    requires IsTable(table[..]) && at + 8 <= |buf| && crc == Bitwise(start, buf[..at])
    ensures r == Bitwise(start, buf[..at + 8])
  {
    hide Bitwise, IsTable;
    r := Do4(table, crc, buf, at, start);
    r := Do4(table, r, buf, at + 4, start);
  }

  lemma NoBytes(c: bv32)
    ensures Bitwise(c, []) == c
  {
  }

  /** The check of a message: eight bytes at a time, then one at a time. */
  method Compute(table: array<bv32>, crc: bv32, buf: seq<bv8>) returns (r: bv32)
    requires IsTable(table[..])
    ensures r == Crc(crc, buf)
  {
    hide Xor, Bitwise, IsTable;
    r := Xor(crc, ONES);
    ghost var start := r;
    NoBytes(start);
    var at: nat, len: nat := 0, |buf|;
    while len >= 8
      invariant at + len == |buf| && r == Bitwise(start, buf[..at])
    {
      r := Do8(table, r, buf, at, start);
      at, len := at + 8, len - 8;
    }
    while len > 0
      invariant at + len == |buf| && r == Bitwise(start, buf[..at])
    {
      r := Do1(table, r, buf, at, start);
      at, len := at + 1, len - 1;
    }
    assert buf[..at] == buf;
    r := Xor(r, ONES);
  }

  // --- what the check is good for ---

  function LowByte(w: bv32): bv8
  {
    LowRange(w);
    Low(w) as bv8
  }

  /** The `n` low bytes of a word, lowest first. */
  function LowBytes(w: bv32, n: nat): seq<bv8>
  {
    if n == 0 then [] else [LowByte(w)] + LowBytes(Down(w), n - 1)
  }

  /** The word moved down by `n` bytes. */
  function DownBy(w: bv32, n: nat): bv32
  {
    if n == 0 then w else DownBy(Down(w), n - 1)
  }

  lemma DownHigh(w: bv32)
    ensures Down(High(w)) == Down(w)
  {
  }

  lemma DownFour(w: bv32)
    ensures DownBy(w, 4) == 0
  {
    assert Down(Down(Down(Down(w)))) == 0;
    hide Down;
    assert DownBy(w, 4) == DownBy(Down(w), 3) == DownBy(Down(Down(w)), 2) == DownBy(Down(Down(Down(w))), 1)
           == DownBy(Down(Down(Down(Down(w)))), 0);
  }

  lemma AddNothing(w: bv32)
    ensures Xor(w, 0) == w
  {
  }

  lemma LowAgain(w: bv32)
    ensures LowByte(w) as bv32 == Low(w)
  {
  }

  /** A byte of a word shifted through, the rest of the word added before or, moved down, afterwards. */
  lemma ByteOfWord(c: bv32, w: bv32)
    ensures Shifts(Xor(c, w), 8) == Xor(Shifts(Xor(c, Low(w)), 8), Down(w))
  {
    hide Xor, Low, High, Shifts, Down;
    LowHigh(w);
    HighClear(w);
    DownHigh(w);
    XorAssoc(c, Low(w), High(w));
    ShiftsLinear(Xor(c, Low(w)), High(w), 8);
    ShiftClear(High(w));
  }

  lemma OneByte(c: bv32, b: bv8)
    ensures Bitwise(c, [b]) == Shifts(Xor(c, b as bv32), 8)
  {
    hide Xor, Shifts;
    assert [b][..0] == [];
  }

  /** A word's bytes, lowest first, make the register what shifting through the word at once does. */
  lemma {:induction false} BytesOfWord(c: bv32, w: bv32, n: nat)
    ensures Xor(Bitwise(c, LowBytes(w, n)), DownBy(w, n)) == Shifts(Xor(c, w), 8 * n)
    decreases n
  {
    hide Xor, Low, Shift, Down, Bitwise;
    if n == 0 {
      NoBytes(c);
    } else {
      var b := LowByte(w);
      BitwiseConcat(c, [b], LowBytes(Down(w), n - 1));
      OneByte(c, b);
      LowAgain(w);
      ByteOfWord(c, w);
      BytesOfWord(Bitwise(c, [b]), Down(w), n - 1);
      ShiftsAdd(Xor(c, w), 8, 8 * (n - 1));
    }
  }

  /** Ones, shifted through a word's length. */
  lemma OnesShifted()
    ensures Shifts(ONES, 8) == 0x2DFD_1072 && Shifts(ONES, 32) == 0xDEBB_20E3
  {
    Eight(ONES);
    Eight(0x2DFD_1072);
    Eight(0xBE26_ED00);
    Eight(0x00BE_26ED);
    ShiftsAdd(ONES, 8, 8);
    ShiftsAdd(ONES, 16, 8);
    ShiftsAdd(ONES, 24, 8);
    hide Shifts;
  }

  /** A message with its check behind it, lowest byte first, always has the same check. */
  lemma CheckOfChecked(crc: bv32, buf: seq<bv8>)
    ensures Crc(crc, buf + LowBytes(Crc(crc, buf), 4)) == 0x2144_DF1C
  {
    hide Xor, Low, Shift, Down, Bitwise, LowBytes, Shifts, DownBy;
    var r := Bitwise(Xor(crc, ONES), buf);
    var w := Crc(crc, buf);
    BitwiseConcat(Xor(crc, ONES), buf, LowBytes(w, 4));
    BytesOfWord(r, w, 4);
    DownFour(w);
    AddNothing(Bitwise(r, LowBytes(w, 4)));
    XorComm(r, ONES);
    XorTwice(ONES, r);
    XorComm(r, Xor(ONES, r));
    OnesShifted();
    LastComplement();
  }

  lemma LastComplement()
    ensures Xor(0xDEBB_20E3, ONES) == 0x2144_DF1C && Xor(0x2DFD_1072, ONES) == 0xD202_EF8D
  {
  }

  /** The digits from 1 to 9, in ASCII. */
  const DIGITS: seq<bv8> := [0x31, 0x32, 0x33, 0x34, 0x35, 0x36, 0x37, 0x38, 0x39]

  lemma ThreeBytes(c: bv32, b0: bv8, b1: bv8, b2: bv8)
    ensures Bitwise(c, [b0, b1, b2])
            == Shifts(Xor(Shifts(Xor(Shifts(Xor(c, b0 as bv32), 8), b1 as bv32), 8), b2 as bv32), 8)
  {
    hide Xor, Shifts;
    OneByte(c, b0);
    assert [b0, b1][..1] == [b0];
    assert [b0, b1, b2][..2] == [b0, b1];
  }

  lemma FirstThree()
    ensures Bitwise(ONES, [0x31, 0x32, 0x33]) == 0x77B7_9C2D
  {
    ThreeBytes(ONES, 0x31, 0x32, 0x33);
    Eight(0xFFFF_FFCE);
    Eight(0x7C23_107A);
    Eight(0xB0AC_BB01);
    hide Shifts, Bitwise;
  }

  lemma NextThree()
    ensures Bitwise(0x77B7_9C2D, [0x34, 0x35, 0x36]) == 0xF68D_2C9E
  {
    ThreeBytes(0x77B7_9C2D, 0x34, 0x35, 0x36);
    Eight(0x77B7_9C19);
    Eight(0x641C_1F69);
    Eight(0x340A_C5D5);
    hide Shifts, Bitwise;
  }

  lemma LastThree()
    ensures Bitwise(0xF68D_2C9E, [0x37, 0x38, 0x39]) == 0x340B_C6D9
  {
    ThreeBytes(0xF68D_2C9E, 0x37, 0x38, 0x39);
    Eight(0xF68D_2CA9);
    Eight(0xAFFC_9658);
    Eight(0x651F_2569);
    hide Shifts, Bitwise;
  }

  /** Known checks: of one zero byte, and of the nine digits. */
  lemma KnownChecks()
    ensures Crc(0, [0]) == 0xD202_EF8D
    ensures Crc(0, DIGITS) == 0xCBF4_3926
  {
    assert Xor(0, ONES) == ONES && Xor(ONES, 0) == ONES && Xor(0x340B_C6D9, ONES) == 0xCBF4_3926;
    LastComplement();
    hide Xor, Bitwise, Shifts;
    OneByte(ONES, 0);
    OnesShifted();
    FirstThree();
    NextThree();
    LastThree();
    BitwiseConcat(ONES, [0x31, 0x32, 0x33], [0x34, 0x35, 0x36]);
    BitwiseConcat(ONES, [0x31, 0x32, 0x33] + [0x34, 0x35, 0x36], [0x37, 0x38, 0x39]);
    assert DIGITS == [0x31, 0x32, 0x33] + [0x34, 0x35, 0x36] + [0x37, 0x38, 0x39];
  }
}
