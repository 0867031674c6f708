/** The 32-bit `unsigned long` that `millis()` returns on the ESP32, and its
    wrap-around subtraction. */
module UInt32 {

  const Modulus: int := 0x1_0000_0000

  type U32 = x: int | 0 <= x < Modulus

  /** `a - b` on unsigned 32-bit operands: the result wraps modulo 2^32. It is
      the unique 32-bit value that, added to `b` with wrap-around, gives `a`. */
  function Sub(a: U32, b: U32): (r: U32)
    ensures (b + r) % Modulus == a
    ensures b <= a ==> r == a - b
    ensures a < b ==> r == Modulus + a - b
  {
    (a - b) % Modulus
  }

  /** Subtracting a start value from a clock that has advanced `d` ticks past it
      recovers `d` exactly, even when the clock wrapped past 2^32 meanwhile. */
  lemma SubUndoesWrappingAdd(b: U32, d: int)
    requires 0 <= d < Modulus
    ensures Sub((b + d) % Modulus, b) == d
  {
  }

}
