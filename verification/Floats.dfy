/** Conversions between 64-bit integers and IEEE double values, with rounding written out. */
module Floats {
  const TWO53: nat := 0x20_0000_0000_0000
  const TWO64: nat := 0x1_0000_0000_0000_0000

  /** Distance between neighbouring doubles around `n`: the least power of two with n / ulp < 2^53. */
  function Ulp(n: nat): (u: nat)
    ensures u >= 1
  {
    if n < TWO53 then 1 else 2 * Ulp(n / 2)
  }

  /** `float64(n)`: round to nearest, ties to even. */
  function ToDouble(n: nat): nat {
    var u := Ulp(n);
    var q, r := n / u, n % u;
    if 2 * r < u || (2 * r == u && q % 2 == 0) then q * u else (q + 1) * u
  }

  predicate Representable(n: nat) { n % Ulp(n) == 0 }

  /** `uint64(f)` for a whole double: exact below 2^64, and the processor's overflow value above. */
  function ToUint64(f: nat): nat {
    if f < TWO64 then f else 0x8000_0000_0000_0000
  }

  lemma Quotient(n: nat, u: nat)
    requires u >= 1
    ensures n == (n / u) * u + n % u && (n / u + 1) * u == n - n % u + u
  {
    assert n == u * (n / u) + n % u;
  }

  /** Rounding moves an integer to itself or to a neighbour less than one step away. */
  lemma Rounds(n: nat)
    ensures ToDouble(n) == n - n % Ulp(n) || ToDouble(n) == n - n % Ulp(n) + Ulp(n)
    ensures n % Ulp(n) == 0 ==> ToDouble(n) == n
  {
    Quotient(n, Ulp(n));
  }

  /** The conversion there and back is exact precisely for representable integers. */
  lemma ThereAndBack(n: nat)
    requires n < TWO64
    ensures ToUint64(ToDouble(n)) == n <==> Representable(n)
  {
    Rounds(n);
    UlpSmall(n);
  }

  lemma {:induction false} UlpSmall(n: nat)
    ensures n >= TWO53 ==> 2 * Ulp(n) <= n
    ensures n < TWO53 ==> Ulp(n) == 1
  {
    if n >= TWO53 {
      UlpSmall(n / 2);
    }
  }

  /** Every byte count up to 2^53 is representable. */
  lemma SmallRepresentable(n: nat)
    requires n <= TWO53
    ensures Representable(n)
  {
    assert n == TWO53 ==> Ulp(n) == 2 * Ulp(n / 2) == 2;
  }
}
