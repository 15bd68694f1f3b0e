/** Fixed-point ratios by shift and add, in machine registers that never overflow. */
module Ratio {
  import opened Arith
  import opened Bitwise

  newtype u32 = x: int | 0 <= x < 0x1_0000_0000
  newtype u64 = x: int | 0 <= x < 0x1_0000_0000_0000_0000

  /** floor(numerator * scale / denominator), capped at the scale; 0 for a zero denominator. */
  function Scaled(numerator: nat, denominator: nat, scale: nat): int {
    if denominator == 0 then 0
    else
      var exact := numerator * scale / denominator;
      if exact > scale then scale else exact
  }

  // ----- The bits of the scale

  /** `s` shifted right by `k`. */
  function Shifted(s: nat, k: nat): (t: nat)
    ensures t <= s
  {
    if k == 0 then s else Shifted(s, k - 1) / 2
  }

  predicate BitSet(s: nat, position: nat) {
    Shifted(s, position) % 2 == 1
  }

  lemma {:induction false} ShiftedBelow(s: nat, k: nat, n: nat)
    requires k <= n && s < Pow2(n)
    ensures Shifted(s, k) < Pow2(n - k)
    decreases k
  {
    if k > 0 {
      ShiftedBelow(s, k - 1, n);
    }
  }

  lemma ShiftedOut(s: nat)
    requires s < 0x1_0000_0000
    ensures Shifted(s, 32) == 0
  {
    assert Pow2(8) == 256;
    assert Pow2(16) == 256 * Pow2(8);
    assert Pow2(24) == 256 * Pow2(16);
    assert Pow2(32) == 256 * Pow2(24);
    ShiftedBelow(s, 32, 32);
  }

  // ----- The loop

  /** The one-bit mask of the source is kept as its position: `bits` is one more than the position
      of the mask, and 0 when the mask has been shifted out. Every register operation is on a type
      of the register's width, so the proof shows that none of them wraps around. */
  method RatioScaled(numerator: u64, denominator: u64, scale: u32) returns (quotient: u32)
    ensures quotient as int == Scaled(numerator as int, denominator as int, scale as int)
  {
    hide Shifted;
    ghost var n, d, s := numerator as int, denominator as int, scale as int;
    if denominator == 0 || numerator == 0 || scale == 0 {
      ZeroScaled(n, d, s);
      return 0;
    }
    if numerator >= denominator {
      CappedScaled(n, d, s);
      return scale;
    }
    quotient := 0;
    var remainder: u64 := 0;
    var bits: nat := 32;
    ShiftedOut(s);
    while bits != 0 && !BitSet(scale as int, bits - 1)
      invariant Shifted(s, bits) == 0
      decreases bits
    {
      NextBit(s, bits);
      bits := bits - 1;
    }
    ZeroTimes(d, n);
    while bits != 0
      invariant remainder < denominator
      invariant quotient as int * d + remainder as int == Shifted(s, bits) * n
      decreases bits
    {
      ghost var c := Shifted(s, bits);
      NextBit(s, bits);
      Doubling(quotient as int, remainder as int, d, c, n);
      if remainder >= denominator - remainder {
        AtMost(2 * quotient as int + 1, 2 * remainder as int - d, d, 2 * c, n);
        quotient := quotient * 2;
        remainder := remainder - (denominator - remainder);
        quotient := quotient + 1;
      } else {
        AtMost(2 * quotient as int, 2 * remainder as int, d, 2 * c, n);
        quotient := quotient * 2;
        remainder := remainder + remainder;
      }
      if BitSet(scale as int, bits - 1) {
        Adding(quotient as int, remainder as int, d, 2 * c, n);
        if remainder >= denominator - numerator {
          AtMost(quotient as int + 1, remainder as int + n - d, d, 2 * c + 1, n);
          remainder := remainder - (denominator - numerator);
          quotient := quotient + 1;
        } else {
          remainder := remainder + numerator;
        }
      }
      bits := bits - 1;
    }
    NoShift(s);
    Exact(quotient as int, remainder as int, d, s, n);
  }

  // ----- Steps of the loop

  lemma NextBit(s: nat, bits: nat)
    requires bits > 0
    ensures Shifted(s, bits - 1) == 2 * Shifted(s, bits) + (if BitSet(s, bits - 1) then 1 else 0)
    ensures Shifted(s, bits - 1) <= s
  {
  }

  lemma NoShift(s: nat)
    ensures Shifted(s, 0) == s
  {
  }

  lemma ZeroTimes(d: int, n: int)
    ensures 0 * d + 0 == 0 * n
  {
  }

  /** A quotient of `c * n` by `d` is at most `c` when `n < d`. */
  lemma AtMost(q: nat, r: nat, d: nat, c: nat, n: nat)
    requires n < d && q * d + r == c * n
    ensures q <= c
  {
    if q > c {
      Monotone(c + 1, q, d);
      Monotone(n, d, c);
      assert false;
    }
  }

  lemma Doubling(q: nat, r: nat, d: nat, c: nat, n: nat)
    requires q * d + r == c * n
    ensures (2 * q) * d + 2 * r == (2 * c) * n
    ensures (2 * q + 1) * d + (2 * r - d) == (2 * c) * n
  {
    assert (2 * q) * d == 2 * (q * d);
    assert (2 * c) * n == 2 * (c * n);
  }

  lemma Adding(q: nat, r: nat, d: nat, c: nat, n: nat)
    requires q * d + r == c * n
    ensures q * d + (r + n) == (c + 1) * n
    ensures (q + 1) * d + (r + n - d) == (c + 1) * n
  {
  }

  lemma Exact(q: nat, r: nat, d: nat, scale: nat, n: nat)
    requires r < d && n < d && q * d + r == scale * n
    ensures q == Scaled(n, d, scale)
  {
    AtMost(q, r, d, scale, n);
    assert n * scale == scale * n;
    DivisionUnique(q, r, d, n * scale);
  }

  lemma ZeroScaled(n: nat, d: nat, scale: nat)
    requires d == 0 || n == 0 || scale == 0
    ensures Scaled(n, d, scale) == 0
  {
  }

  lemma CappedScaled(n: nat, d: nat, scale: nat)
    requires 0 < d <= n
    ensures Scaled(n, d, scale) == scale
  {
    Monotone(d, n, scale);
    QuotientBelow(n * scale, d, scale);
  }
}
