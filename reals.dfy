/** Minimum, maximum and the distributive law on reals, shared by the other modules. */
module Reals {
  function Min(a: real, b: real): real { if a <= b then a else b }

  function Max(a: real, b: real): real { if a >= b then a else b }

  /** Multiplying a sum `x == a + s` by `n` multiplies each part. */
  lemma Distributes(x: real, a: real, s: real, n: real)
    requires x == a + s
    ensures x * n == a * n + s * n
  {
  }
}
