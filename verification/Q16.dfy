/** Unsigned 16-bit fractions, where 65535 stands for one, and their exponential averages. */
module Q16 {
  import opened Bitwise

  type q16 = n: int | 0 <= n < 65536

  const ONE: q16 := 65535

  /** A cast to 16 bits. */
  function Cast(n: nat): q16 {
    n % 65536
  }

  /** The two strengths of averaging that the recorder uses. */
  predicate Strength(shift: nat) {
    shift == 2 || shift == 4
  }

  function Parts(shift: nat): (p: nat)
    requires Strength(shift)
    ensures p > 0
  {
    if shift == 2 then 4 else 16
  }

  /** Multiplication by `(1 << shift) - 1`, and division by `1 << shift`. */
  function Retained(n: nat, shift: nat): nat
    requires Strength(shift)
  {
    if shift == 2 then n * 3 else n * 15
  }

  function ShiftedDown(n: nat, shift: nat): nat
    requires Strength(shift)
  {
    if shift == 2 then n / 4 else n / 16
  }

  /** One step of an average: the old value keeps all but one part, the input gets that part. */
  function Smooth(current: q16, input: q16, shift: nat): q16
    requires Strength(shift)
  {
    Cast(ShiftedDown(Retained(current, shift) + input, shift))
  }

  function Average(left: q16, right: q16): q16 {
    Cast((left + right) / 2)
  }

  function Distance(left: q16, right: q16): q16 {
    if left >= right then Cast(left - right) else Cast(right - left)
  }

  /** A step never leaves the interval between the old value and the input, and the cast loses
      nothing: the result is the exact mean rounded down. */
  lemma SmoothBetween(current: q16, input: q16, shift: nat)
    requires Strength(shift)
    ensures var r := Smooth(current, input, shift);
            && r == ShiftedDown(Retained(current, shift) + input, shift)
            && if input <= current then input <= r <= current else current <= r <= input
  {
  }

  // ----- Convergence towards a constant input

  /** Where the average no longer moves: at the input, or within reach of the rounding below it. */
  predicate Settled(x: q16, input: q16, shift: nat)
    requires Strength(shift)
  {
    x == input || (x < input && input - x < Parts(shift))
  }

  /** The mean rounded down, as bounds. */
  lemma SmoothBounds(x: q16, input: q16, shift: nat)
    requires Strength(shift)
    ensures var r := Smooth(x, input, shift);
            if shift == 2 then 4 * r <= 3 * x + input < 4 * r + 4 else 16 * r <= 15 * x + input < 16 * r + 16
  {
    SmoothBetween(x, input, shift);
  }

  lemma DistanceIs(x: q16, y: q16)
    ensures Distance(x, y) == if x >= y then x - y else y - x
  {
  }

  /** A settled average stays where it is; any other moves strictly towards the input, and it never
      passes it. */
  lemma SettledIsFixed(x: q16, input: q16, shift: nat)
    requires Strength(shift)
    ensures Smooth(x, input, shift) == x <==> Settled(x, input, shift)
    ensures !Settled(x, input, shift) ==> Distance(Smooth(x, input, shift), input) < Distance(x, input)
    ensures (x <= input ==> Smooth(x, input, shift) <= input) && (x >= input ==> Smooth(x, input, shift) >= input)
  {
    hide Smooth, Distance;
    SmoothBounds(x, input, shift);
    DistanceIs(x, input);
    DistanceIs(Smooth(x, input, shift), input);
  }

  /** A step takes at least the whole parts off the distance. */
  lemma DistanceShrinks(x: q16, input: q16, shift: nat)
    requires Strength(shift)
    ensures Distance(Smooth(x, input, shift), input) <= Distance(x, input) - ShiftedDown(Distance(x, input), shift)
  {
    hide Smooth, Distance;
    SmoothBounds(x, input, shift);
    DistanceIs(x, input);
    DistanceIs(Smooth(x, input, shift), input);
  }

  /** How far an average can still be from its input after `n` steps. */
  function Reach(n: nat, shift: nat): (d: nat)
    requires Strength(shift)
    ensures d <= 65535
  {
    if n == 0 then 65535 else Reach(n - 1, shift) - ShiftedDown(Reach(n - 1, shift), shift)
  }

  lemma ReachBounds(x: q16, input: q16, shift: nat, n: nat)
    requires Strength(shift) && Distance(x, input) <= Reach(n, shift)
    ensures Distance(Smooth(x, input, shift), input) <= Reach(n + 1, shift)
  {
    hide Smooth, Distance;
    DistanceShrinks(x, input, shift);
    DistanceMonotone(Distance(x, input), Reach(n, shift), shift);
  }

  lemma DistanceMonotone(a: nat, b: nat, shift: nat)
    requires Strength(shift) && a <= b
    ensures a - ShiftedDown(a, shift) <= b - ShiftedDown(b, shift)
  {
  }

  /** While the distance is above `u` parts, every step takes at least `u` off. */
  lemma {:induction false} Approach(n: nat, j: nat, u: nat, shift: nat)
    requires Strength(shift) && Reach(n, shift) <= 2 * u * Parts(shift)
    ensures Reach(n + j, shift) <= u * Parts(shift) || Reach(n + j, shift) <= 2 * u * Parts(shift) - j * u
    decreases j
  {
    if j > 0 {
      Approach(n, j - 1, u, shift);
      assert j * u == (j - 1) * u + u;
      var d := Reach(n + j - 1, shift);
      if d > u * Parts(shift) {
        assert ShiftedDown(d, shift) >= u;
      }
    }
  }

  /** The distance is halved at least every `Parts(shift)` steps. */
  lemma {:induction false} Halves(p: nat, u: nat, shift: nat)
    requires Strength(shift) && Pow2(p) * u * Parts(shift) == 65536
    ensures Reach(p * Parts(shift), shift) <= u * Parts(shift)
    decreases p
  {
    if p > 0 {
      var parts := Parts(shift);
      Regroup(Pow2(p - 1), u, parts);
      Halves(p - 1, 2 * u, shift);
      Approach((p - 1) * parts, parts, u, shift);
      assert (p - 1) * parts + parts == p * parts;
    }
  }

  lemma Regroup(a: nat, u: nat, k: nat)
    ensures (2 * a) * u * k == a * (2 * u) * k
  {
  }

  /** From anywhere, 57 steps of the fast average and 193 of the slow one come within the rounding. */
  lemma WithinRounding()
    ensures Reach(57, 2) <= 3
    ensures Reach(193, 4) <= 15
  {
    assert Pow2(4) == 16 && Pow2(8) == 256 && Pow2(12) == 4096 && Pow2(14) == 16384;
    Halves(14, 1, 2);
    Halves(12, 1, 4);
    DistanceMonotone(Reach(56, 2), 4, 2);
    DistanceMonotone(Reach(192, 4), 16, 4);
  }
}
