/** The first eighty prime numbers, and the fractional parts of their square and cube roots: where the
    constants of the SHA-2 family come from (section 4.2 of FIPS 180-4). */
module Primes {
  import opened Arith

  ghost predicate IsPrime(n: nat) {
    n >= 2 && forall d :: 2 <= d < n ==> n % d != 0
  }

  function Prime(t: nat): nat
    requires t < 80
  {
    var row := match t / 8
      case 0 => [2, 3, 5, 7, 11, 13, 17, 19]
      case 1 => [23, 29, 31, 37, 41, 43, 47, 53]
      case 2 => [59, 61, 67, 71, 73, 79, 83, 89]
      case 3 => [97, 101, 103, 107, 109, 113, 127, 131]
      case 4 => [137, 139, 149, 151, 157, 163, 167, 173]
      case 5 => [179, 181, 191, 193, 197, 199, 211, 223]
      case 6 => [227, 229, 233, 239, 241, 251, 257, 263]
      case 7 => [269, 271, 277, 281, 283, 293, 307, 311]
      case 8 => [313, 317, 331, 337, 347, 349, 353, 359]
      case _ => [367, 373, 379, 383, 389, 397, 401, 409];
    row[t % 8]
  }

  /** Divisible by none of the primes below 23, or one of them. */
  predicate Undivided(n: nat) {
    && (n % 2 != 0 || n == 2) && (n % 3 != 0 || n == 3) && (n % 5 != 0 || n == 5) && (n % 7 != 0 || n == 7)
    && (n % 11 != 0 || n == 11) && (n % 13 != 0 || n == 13) && (n % 17 != 0 || n == 17) && (n % 19 != 0 || n == 19)
  }

  lemma MultipleOf(n: nat, d: nat, q: nat)
    requires d > 0 && n == d * q
    ensures n % d == 0
  {
    assert n == q * d + 0;
    DivisionUnique(q, 0, d, n);
  }

  /** A divisor of a divisor divides. */
  lemma DividesThrough(n: nat, e: nat, s: nat)
    requires s > 0 && e > 0 && n % e == 0 && e % s == 0
    ensures n % s == 0
  {
    var a, b := n / e, e / s;
    assert n == e * a && e == s * b;
    assert n == s * (b * a);
    MultipleOf(n, s, b * a);
  }

  lemma Divided(n: nat, s: nat)
    requires s in [2, 3, 5, 7, 11, 13, 17, 19] && n % s == 0 && n != s
    ensures !Undivided(n)
  {
  }

  lemma SmallDivisor(n: nat, e: nat)
    requires 2 <= e < 23 && e < n && n % e == 0
    ensures !Undivided(n)
  {
    hide Undivided;
    var s := if e % 2 == 0 then 2 else if e % 3 == 0 then 3 else if e % 5 == 0 then 5 else if e % 7 == 0 then 7 else e;
    SmallestFactor(e, s);
    DividesThrough(n, e, s);
    Divided(n, s);
  }

  lemma SmallestFactor(e: nat, s: nat)
    requires 2 <= e < 23
    requires s == if e % 2 == 0 then 2 else if e % 3 == 0 then 3 else if e % 5 == 0 then 5 else if e % 7 == 0 then 7 else e
    ensures s in [2, 3, 5, 7, 11, 13, 17, 19] && s <= e && e % s == 0
  {
  }

  /** Below 23 * 23 it is enough to try the eight smallest primes. */
  lemma UndividedIsPrime(n: nat)
    requires 2 <= n < 529
    ensures IsPrime(n) <==> Undivided(n)
  {
    if Undivided(n) {
      forall d | 2 <= d < n ensures n % d != 0 {
        if n % d == 0 {
          var q := n / d;
          assert n == d * q;
          SmallerFactor(n, d, q);
          MultipleOf(n, q, d);
          SmallDivisor(n, if d < 23 then d else q);
        }
      }
    }
  }

  lemma SmallerFactor(n: nat, d: nat, q: nat)
    requires n == d * q < 529 && 2 <= d < n
    ensures 2 <= q < n && (d < 23 || q < 23)
  {
  }

  /** No number strictly between is undivided. */
  predicate NoneBetween(a: nat, b: nat)
    decreases b - a
  {
    a + 1 >= b || (!Undivided(a + 1) && NoneBetween(a + 1, b))
  }

  lemma {:induction false} Between(a: nat, b: nat, n: nat)
    requires NoneBetween(a, b) && a < n < b
    ensures !Undivided(n)
    decreases b - a
  {
    if n > a + 1 {
      Between(a + 1, b, n);
    }
  }

  lemma Row0(t: nat)
    requires 0 <= t < 8
    ensures Undivided(Prime(t)) && Prime(t) < Prime(t + 1) && NoneBetween(Prime(t), Prime(t + 1))
  {
    if t == 0 { assert NoneBetween(2, 3); }
    else if t == 1 { assert NoneBetween(3, 5); }
    else if t == 2 { assert NoneBetween(5, 7); }
    else if t == 3 { assert NoneBetween(7, 11); }
    else if t == 4 { assert NoneBetween(11, 13); }
    else if t == 5 { assert NoneBetween(13, 17); }
    else if t == 6 { assert NoneBetween(17, 19); }
    else if t == 7 { assert NoneBetween(19, 23); }
  }

  lemma Row1(t: nat)
    requires 8 <= t < 16
    ensures Undivided(Prime(t)) && Prime(t) < Prime(t + 1) && NoneBetween(Prime(t), Prime(t + 1))
  {
    if t == 8 { assert NoneBetween(23, 29); }
    else if t == 9 { assert NoneBetween(29, 31); }
    else if t == 10 { assert NoneBetween(31, 37); }
    else if t == 11 { assert NoneBetween(37, 41); }
    else if t == 12 { assert NoneBetween(41, 43); }
    else if t == 13 { assert NoneBetween(43, 47); }
    else if t == 14 { assert NoneBetween(47, 53); }
    else if t == 15 { assert NoneBetween(53, 59); }
  }

  lemma Row2(t: nat)
    requires 16 <= t < 24
    ensures Undivided(Prime(t)) && Prime(t) < Prime(t + 1) && NoneBetween(Prime(t), Prime(t + 1))
  {
    if t == 16 { assert NoneBetween(59, 61); }
    else if t == 17 { assert NoneBetween(61, 67); }
    else if t == 18 { assert NoneBetween(67, 71); }
    else if t == 19 { assert NoneBetween(71, 73); }
    else if t == 20 { assert NoneBetween(73, 79); }
    else if t == 21 { assert NoneBetween(79, 83); }
    else if t == 22 { assert NoneBetween(83, 89); }
    else if t == 23 { assert NoneBetween(89, 97); }
  }

  lemma Row3(t: nat)
    requires 24 <= t < 32
    ensures Undivided(Prime(t)) && Prime(t) < Prime(t + 1) && NoneBetween(Prime(t), Prime(t + 1))
  {
    if t == 24 { assert NoneBetween(97, 101); }
    else if t == 25 { assert NoneBetween(101, 103); }
    else if t == 26 { assert NoneBetween(103, 107); }
    else if t == 27 { assert NoneBetween(107, 109); }
    else if t == 28 { assert NoneBetween(109, 113); }
    else if t == 29 { assert NoneBetween(113, 127); }
    else if t == 30 { assert NoneBetween(127, 131); }
    else if t == 31 { assert NoneBetween(131, 137); }
  }

  lemma Row4(t: nat)
    requires 32 <= t < 40
    ensures Undivided(Prime(t)) && Prime(t) < Prime(t + 1) && NoneBetween(Prime(t), Prime(t + 1))
  {
    if t == 32 { assert NoneBetween(137, 139); }
    else if t == 33 { assert NoneBetween(139, 149); }
    else if t == 34 { assert NoneBetween(149, 151); }
    else if t == 35 { assert NoneBetween(151, 157); }
    else if t == 36 { assert NoneBetween(157, 163); }
    else if t == 37 { assert NoneBetween(163, 167); }
    else if t == 38 { assert NoneBetween(167, 173); }
    else if t == 39 { assert NoneBetween(173, 179); }
  }

  lemma Row5(t: nat)
    requires 40 <= t < 48
    ensures Undivided(Prime(t)) && Prime(t) < Prime(t + 1) && NoneBetween(Prime(t), Prime(t + 1))
  {
    if t == 40 { assert NoneBetween(179, 181); }
    else if t == 41 { assert NoneBetween(181, 191); }
    else if t == 42 { assert NoneBetween(191, 193); }
    else if t == 43 { assert NoneBetween(193, 197); }
    else if t == 44 { assert NoneBetween(197, 199); }
    else if t == 45 { assert NoneBetween(199, 211); }
    else if t == 46 { assert NoneBetween(211, 223); }
    else if t == 47 { assert NoneBetween(223, 227); }
  }

  lemma Row6(t: nat)
    requires 48 <= t < 56
    ensures Undivided(Prime(t)) && Prime(t) < Prime(t + 1) && NoneBetween(Prime(t), Prime(t + 1))
  {
    if t == 48 { assert NoneBetween(227, 229); }
    else if t == 49 { assert NoneBetween(229, 233); }
    else if t == 50 { assert NoneBetween(233, 239); }
    else if t == 51 { assert NoneBetween(239, 241); }
    else if t == 52 { assert NoneBetween(241, 251); }
    else if t == 53 { assert NoneBetween(251, 257); }
    else if t == 54 { assert NoneBetween(257, 263); }
    else if t == 55 { assert NoneBetween(263, 269); }
  }

  lemma Row7(t: nat)
    requires 56 <= t < 64
    ensures Undivided(Prime(t)) && Prime(t) < Prime(t + 1) && NoneBetween(Prime(t), Prime(t + 1))
  {
    if t == 56 { assert NoneBetween(269, 271); }
    else if t == 57 { assert NoneBetween(271, 277); }
    else if t == 58 { assert NoneBetween(277, 281); }
    else if t == 59 { assert NoneBetween(281, 283); }
    else if t == 60 { assert NoneBetween(283, 293); }
    else if t == 61 { assert NoneBetween(293, 307); }
    else if t == 62 { assert NoneBetween(307, 311); }
    else if t == 63 { assert NoneBetween(311, 313); }
  }

  lemma Row8(t: nat)
    requires 64 <= t < 72
    ensures Undivided(Prime(t)) && Prime(t) < Prime(t + 1) && NoneBetween(Prime(t), Prime(t + 1))
  {
    if t == 64 { assert NoneBetween(313, 317); }
    else if t == 65 { assert NoneBetween(317, 331); }
    else if t == 66 { assert NoneBetween(331, 337); }
    else if t == 67 { assert NoneBetween(337, 347); }
    else if t == 68 { assert NoneBetween(347, 349); }
    else if t == 69 { assert NoneBetween(349, 353); }
    else if t == 70 { assert NoneBetween(353, 359); }
    else if t == 71 { assert NoneBetween(359, 367); }
  }

  lemma Row9(t: nat)
    requires 72 <= t < 79
    ensures Undivided(Prime(t)) && Prime(t) < Prime(t + 1) && NoneBetween(Prime(t), Prime(t + 1))
  {
    if t == 72 { assert NoneBetween(367, 373); }
    else if t == 73 { assert NoneBetween(373, 379); }
    else if t == 74 { assert NoneBetween(379, 383); }
    else if t == 75 { assert NoneBetween(383, 389); }
    else if t == 76 { assert NoneBetween(389, 397); }
    else if t == 77 { assert NoneBetween(397, 401); }
    else if t == 78 { assert NoneBetween(401, 409); }
  }

  lemma Consecutive(t: nat)
    requires t < 79
    ensures Undivided(Prime(t)) && Prime(t) < Prime(t + 1) && NoneBetween(Prime(t), Prime(t + 1))
  {
    hide Prime, Undivided, NoneBetween;
    match t / 8
    case 0 => Row0(t);
    case 1 => Row1(t);
    case 2 => Row2(t);
    case 3 => Row3(t);
    case 4 => Row4(t);
    case 5 => Row5(t);
    case 6 => Row6(t);
    case 7 => Row7(t);
    case 8 => Row8(t);
    case _ => Row9(t);
  }

  lemma {:induction false} Increasing(s: nat, t: nat)
    requires s < t < 80
    ensures Prime(s) < Prime(t)
    decreases t
  {
    hide Prime, Undivided, NoneBetween;
    Consecutive(t - 1);
    if s < t - 1 {
      Increasing(s, t - 1);
    }
  }

  /** Every number up to the last prime of the table is one of them or lies between two of them. */
  lemma {:induction false} Located(n: nat, t: nat) returns (s: nat)
    requires t < 80 && Prime(0) <= n <= Prime(t)
    ensures s < 80 && (n == Prime(s) || (s < 79 && Prime(s) < n < Prime(s + 1)))
    decreases t
  {
    hide Prime;
    if n == Prime(t) || t == 0 {
      s := t;
    } else if n > Prime(t - 1) {
      s := t - 1;
    } else {
      s := Located(n, t - 1);
    }
  }

  /** The table holds the first eighty primes, in order. */
  lemma FirstEighty()
    ensures forall s, t :: 0 <= s < t < 80 ==> Prime(s) < Prime(t)
    ensures forall n: nat :: n <= Prime(79) ==> (IsPrime(n) <==> exists t: nat :: t < 80 && Prime(t) == n)
  {
    hide Prime, Undivided, NoneBetween, IsPrime;
    forall s, t | 0 <= s < t < 80 ensures Prime(s) < Prime(t) {
      Increasing(s, t);
    }
    Ends();
    forall n: nat | n <= Prime(79) ensures IsPrime(n) <==> exists t: nat :: t < 80 && Prime(t) == n {
      if n < 2 {
        NotBelowTwo(n);
      } else {
        UndividedIsPrime(n);
        var s := Located(n, 79);
        if n == Prime(s) {
          if s < 79 { Consecutive(s); }
        } else {
          Consecutive(s);
          Between(Prime(s), Prime(s + 1), n);
          forall t: nat | t < 80 ensures Prime(t) != n {
            if t < s { Increasing(t, s); }
            if s + 1 < t { Increasing(s + 1, t); }
          }
        }
      }
    }
  }

  lemma Ends()
    ensures Prime(0) == 2 && Prime(79) == 409 && Undivided(409)
    ensures forall t :: 0 <= t < 80 ==> Prime(t) >= 2
  {
  }

  lemma NotBelowTwo(n: nat)
    requires n < 2
    ensures !IsPrime(n)
  {
  }
}
