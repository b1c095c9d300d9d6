/** What calls return, numbers of 32 bits, and places in tables that are searched going round. */
module Codes {
  const OK := 1
  const SYSERR := -1

  const TWO32 := 0x1_0000_0000
  const MAXINT := 0x7FFF_FFFF

  type int32 = x: int | -MAXINT - 1 <= x <= MAXINT
  type uint32 = x: int | 0 <= x < TWO32

  /** What a signed word of 32 bits keeps of a number. */
  function ToInt32(x: int): (r: int32)
    ensures -MAXINT - 1 <= x <= MAXINT ==> r == x
    ensures MAXINT < x < MAXINT + TWO32 ==> r == x - TWO32
    ensures -MAXINT - 1 - TWO32 <= x < -MAXINT - 1 ==> r == x + TWO32
  {
    var u := x % TWO32;
    if u <= MAXINT then u else u - TWO32
  }

  /** How many places on from `from` the place `x` is, going round a table. */
  function Distance(from: int, x: int, size: int): int { if x >= from then x - from else x - from + size }

  /** A place past the end of a table, going round. */
  function Wrapped(x: nat, size: nat): nat { if x >= size then x - size else x }
}
