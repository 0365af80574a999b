/** How both hash tables choose the size of their directory. */
module Capacity {

  import opened Words

  ghost predicate IsPow2(n: nat)
    decreases n
  {
    n == 1 || (n > 1 && n % 2 == 0 && IsPow2(n / 2))
  }

  /** Number of bits needed to write n: 64 minus the leading zeros of a 64-bit word. */
  function BitLength(n: nat): (e: nat)
  {
    if n == 0 then 0 else 1 + BitLength(n / 2)
  }

  /** Entries a directory may index at a load factor of 0.7. */
  function Limit(capacity: nat): nat { 7 * capacity / 10 }

  /** The directory size for n entries. */
  function CapacityFor(n: nat): (capacity: nat)
    requires n > 0
  {
    var exp := BitLength(n);
    if 7 * Shift(exp) < 10 * n then Shift(exp + 1) else Shift(exp)
  }

  lemma {:induction false} ShiftIsPow2(e: nat)
    ensures IsPow2(Shift(e))
  {
    if e > 0 { ShiftIsPow2(e - 1); }
  }

  lemma {:induction false} BitLengthBounds(n: nat)
    requires n > 0
    ensures n < Shift(BitLength(n)) <= 2 * n
  {
    if n > 1 { BitLengthBounds(n / 2); }
  }

  /** The directory is a power of two, so a mask selects its slots; all n entries stay within the
      load limit; and it is never more than four times as large as asked for. */
  lemma CapacityIsEnough(n: nat)
    requires n > 0
    ensures IsPow2(CapacityFor(n)) && n <= Limit(CapacityFor(n)) && CapacityFor(n) <= 4 * n
  {
    BitLengthBounds(n);
    ShiftIsPow2(BitLength(n));
    ShiftIsPow2(BitLength(n) + 1);
  }

  /** No smaller power of two keeps n entries within the load limit. */
  lemma CapacityIsLeast(n: nat, capacity: nat)
    requires n > 0 && IsPow2(capacity) && n <= Limit(capacity)
    ensures CapacityFor(n) <= capacity
  {
    CapacityIsEnough(n);
    BitLengthBounds(n);
    if capacity < CapacityFor(n) {
      DoublingFits(capacity, CapacityFor(n));
    }
  }

  /** Doubling stays below every larger power of two. */
  lemma {:induction false} DoublingFits(a: nat, b: nat)
    requires IsPow2(a) && IsPow2(b) && a < b
    ensures IsPow2(2 * a) && 2 * a <= b
  {
    if a > 1 { DoublingFits(a / 2, b / 2); }
  }
}
