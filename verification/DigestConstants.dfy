/** The constants of SHA-256 and SHA-512 are what sections 4.2 and 5.3 of FIPS 180-4 say they are: the
    first bits of the fractional parts of the roots of the first primes. */
module DigestConstants {
  import opened Arith
  import opened Bytes
  import opened Primes
  import Sha256
  import Sha512

  function Square(x: nat): nat { x * x }
  function Cube(x: nat): nat { x * x * x }

  /** `whole` and `k / unit` are the whole and, cut off, the fractional part of the square root of `p`. */
  predicate SquareRoot(p: nat, whole: nat, k: nat, unit: nat) {
    k < unit && Square(whole * unit + k) <= p * Square(unit) < Square(whole * unit + k + 1)
  }

  predicate CubeRoot(p: nat, whole: nat, k: nat, unit: nat) {
    k < unit && Cube(whole * unit + k) <= p * Cube(unit) < Cube(whole * unit + k + 1)
  }

  ghost predicate SquareRootPart(p: nat, k: nat, unit: nat) {
    exists whole: nat :: SquareRoot(p, whole, k, unit)
  }

  ghost predicate CubeRootPart(p: nat, k: nat, unit: nat) {
    exists whole: nat :: CubeRoot(p, whole, k, unit)
  }

  lemma SquareLess(a: nat, b: nat)
    requires a < b
    ensures Square(a) < Square(b)
  {
  }

  lemma CubeLess(a: nat, b: nat)
    requires a < b
    ensures Cube(a) < Cube(b)
  {
    SquareLess(a, b);
    assert Cube(a) == Square(a) * a && Cube(b) == Square(b) * b;
    assert Square(a) * a <= Square(b) * a <= Square(b) * b;
  }

  lemma SquareBetween(x: nat, y: nat, n: nat)
    requires Square(x) <= n < Square(x + 1) && Square(y) <= n < Square(y + 1)
    ensures x == y
  {
    hide Square;
    if x + 1 < y { SquareLess(x + 1, y); }
    if y + 1 < x { SquareLess(y + 1, x); }
  }

  lemma CubeBetween(x: nat, y: nat, n: nat)
    requires Cube(x) <= n < Cube(x + 1) && Cube(y) <= n < Cube(y + 1)
    ensures x == y
  {
    hide Cube;
    if x + 1 < y { CubeLess(x + 1, y); }
    if y + 1 < x { CubeLess(y + 1, x); }
  }

  lemma SameParts(w: nat, k: nat, w': nat, k': nat, unit: nat)
    requires k < unit && k' < unit && w * unit + k == w' * unit + k'
    ensures k == k'
  {
    DivisionUnique(w, k, unit, w * unit + k);
    DivisionUnique(w', k', unit, w * unit + k);
  }

  /** There is only one such number, so no other table would do. */
  lemma PartUnique(p: nat, k: nat, k': nat, unit: nat)
    ensures SquareRootPart(p, k, unit) && SquareRootPart(p, k', unit) ==> k == k'
    ensures CubeRootPart(p, k, unit) && CubeRootPart(p, k', unit) ==> k == k'
  {
    hide Square, Cube;
    if SquareRootPart(p, k, unit) && SquareRootPart(p, k', unit) {
      var w: nat :| SquareRoot(p, w, k, unit);
      var w': nat :| SquareRoot(p, w', k', unit);
      SquareBetween(w * unit + k, w' * unit + k', p * Square(unit));
      SameParts(w, k, w', k', unit);
    }
    if CubeRootPart(p, k, unit) && CubeRootPart(p, k', unit) {
      var w: nat :| CubeRoot(p, w, k, unit);
      var w': nat :| CubeRoot(p, w', k', unit);
      CubeBetween(w * unit + k, w' * unit + k', p * Cube(unit));
      SameParts(w, k, w', k', unit);
    }
  }

  // ----- SHA-256

  lemma Sha256Row0(t: nat)
    requires 0 <= t < 8
    ensures CubeRootPart(Prime(t), Sha256.K(t) as nat, U32)
  {
    if t == 0 { assert CubeRoot(2, 1, 0x428a2f98, U32); }
    else if t == 1 { assert CubeRoot(3, 1, 0x71374491, U32); }
    else if t == 2 { assert CubeRoot(5, 1, 0xb5c0fbcf, U32); }
    else if t == 3 { assert CubeRoot(7, 1, 0xe9b5dba5, U32); }
    else if t == 4 { assert CubeRoot(11, 2, 0x3956c25b, U32); }
    else if t == 5 { assert CubeRoot(13, 2, 0x59f111f1, U32); }
    else if t == 6 { assert CubeRoot(17, 2, 0x923f82a4, U32); }
    else if t == 7 { assert CubeRoot(19, 2, 0xab1c5ed5, U32); }
  }

  lemma Sha256Row1(t: nat)
    requires 8 <= t < 16
    ensures CubeRootPart(Prime(t), Sha256.K(t) as nat, U32)
  {
    if t == 8 { assert CubeRoot(23, 2, 0xd807aa98, U32); }
    else if t == 9 { assert CubeRoot(29, 3, 0x12835b01, U32); }
    else if t == 10 { assert CubeRoot(31, 3, 0x243185be, U32); }
    else if t == 11 { assert CubeRoot(37, 3, 0x550c7dc3, U32); }
    else if t == 12 { assert CubeRoot(41, 3, 0x72be5d74, U32); }
    else if t == 13 { assert CubeRoot(43, 3, 0x80deb1fe, U32); }
    else if t == 14 { assert CubeRoot(47, 3, 0x9bdc06a7, U32); }
    else if t == 15 { assert CubeRoot(53, 3, 0xc19bf174, U32); }
  }

  lemma Sha256Row2(t: nat)
    requires 16 <= t < 24
    ensures CubeRootPart(Prime(t), Sha256.K(t) as nat, U32)
  {
    if t == 16 { assert CubeRoot(59, 3, 0xe49b69c1, U32); }
    else if t == 17 { assert CubeRoot(61, 3, 0xefbe4786, U32); }
    else if t == 18 { assert CubeRoot(67, 4, 0x0fc19dc6, U32); }
    else if t == 19 { assert CubeRoot(71, 4, 0x240ca1cc, U32); }
    else if t == 20 { assert CubeRoot(73, 4, 0x2de92c6f, U32); }
    else if t == 21 { assert CubeRoot(79, 4, 0x4a7484aa, U32); }
    else if t == 22 { assert CubeRoot(83, 4, 0x5cb0a9dc, U32); }
    else if t == 23 { assert CubeRoot(89, 4, 0x76f988da, U32); }
  }

  lemma Sha256Row3(t: nat)
    requires 24 <= t < 32
    ensures CubeRootPart(Prime(t), Sha256.K(t) as nat, U32)
  {
    if t == 24 { assert CubeRoot(97, 4, 0x983e5152, U32); }
    else if t == 25 { assert CubeRoot(101, 4, 0xa831c66d, U32); }
    else if t == 26 { assert CubeRoot(103, 4, 0xb00327c8, U32); }
    else if t == 27 { assert CubeRoot(107, 4, 0xbf597fc7, U32); }
    else if t == 28 { assert CubeRoot(109, 4, 0xc6e00bf3, U32); }
    else if t == 29 { assert CubeRoot(113, 4, 0xd5a79147, U32); }
    else if t == 30 { assert CubeRoot(127, 5, 0x06ca6351, U32); }
    else if t == 31 { assert CubeRoot(131, 5, 0x14292967, U32); }
  }

  lemma Sha256Row4(t: nat)
    requires 32 <= t < 40
    ensures CubeRootPart(Prime(t), Sha256.K(t) as nat, U32)
  {
    if t == 32 { assert CubeRoot(137, 5, 0x27b70a85, U32); }
    else if t == 33 { assert CubeRoot(139, 5, 0x2e1b2138, U32); }
    else if t == 34 { assert CubeRoot(149, 5, 0x4d2c6dfc, U32); }
    else if t == 35 { assert CubeRoot(151, 5, 0x53380d13, U32); }
    else if t == 36 { assert CubeRoot(157, 5, 0x650a7354, U32); }
    else if t == 37 { assert CubeRoot(163, 5, 0x766a0abb, U32); }
    else if t == 38 { assert CubeRoot(167, 5, 0x81c2c92e, U32); }
    else if t == 39 { assert CubeRoot(173, 5, 0x92722c85, U32); }
  }

  lemma Sha256Row5(t: nat)
    requires 40 <= t < 48
    ensures CubeRootPart(Prime(t), Sha256.K(t) as nat, U32)
  {
    if t == 40 { assert CubeRoot(179, 5, 0xa2bfe8a1, U32); }
    else if t == 41 { assert CubeRoot(181, 5, 0xa81a664b, U32); }
    else if t == 42 { assert CubeRoot(191, 5, 0xc24b8b70, U32); }
    else if t == 43 { assert CubeRoot(193, 5, 0xc76c51a3, U32); }
    else if t == 44 { assert CubeRoot(197, 5, 0xd192e819, U32); }
    else if t == 45 { assert CubeRoot(199, 5, 0xd6990624, U32); }
    else if t == 46 { assert CubeRoot(211, 5, 0xf40e3585, U32); }
    else if t == 47 { assert CubeRoot(223, 6, 0x106aa070, U32); }
  }

  lemma Sha256Row6(t: nat)
    requires 48 <= t < 56
    ensures CubeRootPart(Prime(t), Sha256.K(t) as nat, U32)
  {
    if t == 48 { assert CubeRoot(227, 6, 0x19a4c116, U32); }
    else if t == 49 { assert CubeRoot(229, 6, 0x1e376c08, U32); }
    else if t == 50 { assert CubeRoot(233, 6, 0x2748774c, U32); }
    else if t == 51 { assert CubeRoot(239, 6, 0x34b0bcb5, U32); }
    else if t == 52 { assert CubeRoot(241, 6, 0x391c0cb3, U32); }
    else if t == 53 { assert CubeRoot(251, 6, 0x4ed8aa4a, U32); }
    else if t == 54 { assert CubeRoot(257, 6, 0x5b9cca4f, U32); }
    else if t == 55 { assert CubeRoot(263, 6, 0x682e6ff3, U32); }
  }

  lemma Sha256Row7(t: nat)
    requires 56 <= t < 64
    ensures CubeRootPart(Prime(t), Sha256.K(t) as nat, U32)
  {
    if t == 56 { assert CubeRoot(269, 6, 0x748f82ee, U32); }
    else if t == 57 { assert CubeRoot(271, 6, 0x78a5636f, U32); }
    else if t == 58 { assert CubeRoot(277, 6, 0x84c87814, U32); }
    else if t == 59 { assert CubeRoot(281, 6, 0x8cc70208, U32); }
    else if t == 60 { assert CubeRoot(283, 6, 0x90befffa, U32); }
    else if t == 61 { assert CubeRoot(293, 6, 0xa4506ceb, U32); }
    else if t == 62 { assert CubeRoot(307, 6, 0xbef9a3f7, U32); }
    else if t == 63 { assert CubeRoot(311, 6, 0xc67178f2, U32); }
  }

  /** Constant `t` is the beginning of the fractional part of the cube root of the prime `t`. */
  lemma Sha256Constants(t: nat)
    requires t < 64
    ensures CubeRootPart(Prime(t), Sha256.K(t) as nat, U32)
  {
    hide Prime, Sha256.K;
    match t / 8
    case 0 => Sha256Row0(t);
    case 1 => Sha256Row1(t);
    case 2 => Sha256Row2(t);
    case 3 => Sha256Row3(t);
    case 4 => Sha256Row4(t);
    case 5 => Sha256Row5(t);
    case 6 => Sha256Row6(t);
    case _ => Sha256Row7(t);
  }

  /** The start is the same for the square roots of the first eight primes. */
  lemma Sha256Start()
    ensures SquareRootPart(Prime(0), Sha256.START.a as nat, U32)
    ensures SquareRootPart(Prime(1), Sha256.START.b as nat, U32)
    ensures SquareRootPart(Prime(2), Sha256.START.c as nat, U32)
    ensures SquareRootPart(Prime(3), Sha256.START.d as nat, U32)
    ensures SquareRootPart(Prime(4), Sha256.START.e as nat, U32)
    ensures SquareRootPart(Prime(5), Sha256.START.f as nat, U32)
    ensures SquareRootPart(Prime(6), Sha256.START.g as nat, U32)
    ensures SquareRootPart(Prime(7), Sha256.START.h as nat, U32)
  {
    assert SquareRoot(2, 1, 0x6a09e667, U32);
    assert SquareRoot(3, 1, 0xbb67ae85, U32);
    assert SquareRoot(5, 2, 0x3c6ef372, U32);
    assert SquareRoot(7, 2, 0xa54ff53a, U32);
    assert SquareRoot(11, 3, 0x510e527f, U32);
    assert SquareRoot(13, 3, 0x9b05688c, U32);
    assert SquareRoot(17, 4, 0x1f83d9ab, U32);
    assert SquareRoot(19, 4, 0x5be0cd19, U32);
  }

  // ----- SHA-512

  lemma Sha512Row0(t: nat)
    requires 0 <= t < 8
    ensures CubeRootPart(Prime(t), Sha512.K(t) as nat, U64)
  {
    if t == 0 { assert CubeRoot(2, 1, 0x428a2f98d728ae22, U64); }
    else if t == 1 { assert CubeRoot(3, 1, 0x7137449123ef65cd, U64); }
    else if t == 2 { assert CubeRoot(5, 1, 0xb5c0fbcfec4d3b2f, U64); }
    else if t == 3 { assert CubeRoot(7, 1, 0xe9b5dba58189dbbc, U64); }
    else if t == 4 { assert CubeRoot(11, 2, 0x3956c25bf348b538, U64); }
    else if t == 5 { assert CubeRoot(13, 2, 0x59f111f1b605d019, U64); }
    else if t == 6 { assert CubeRoot(17, 2, 0x923f82a4af194f9b, U64); }
    else if t == 7 { assert CubeRoot(19, 2, 0xab1c5ed5da6d8118, U64); }
  }

  lemma Sha512Row1(t: nat)
    requires 8 <= t < 16
    ensures CubeRootPart(Prime(t), Sha512.K(t) as nat, U64)
  {
    if t == 8 { assert CubeRoot(23, 2, 0xd807aa98a3030242, U64); }
    else if t == 9 { assert CubeRoot(29, 3, 0x12835b0145706fbe, U64); }
    else if t == 10 { assert CubeRoot(31, 3, 0x243185be4ee4b28c, U64); }
    else if t == 11 { assert CubeRoot(37, 3, 0x550c7dc3d5ffb4e2, U64); }
    else if t == 12 { assert CubeRoot(41, 3, 0x72be5d74f27b896f, U64); }
    else if t == 13 { assert CubeRoot(43, 3, 0x80deb1fe3b1696b1, U64); }
    else if t == 14 { assert CubeRoot(47, 3, 0x9bdc06a725c71235, U64); }
    else if t == 15 { assert CubeRoot(53, 3, 0xc19bf174cf692694, U64); }
  }

  lemma Sha512Row2(t: nat)
    requires 16 <= t < 24
    ensures CubeRootPart(Prime(t), Sha512.K(t) as nat, U64)
  {
    if t == 16 { assert CubeRoot(59, 3, 0xe49b69c19ef14ad2, U64); }
    else if t == 17 { assert CubeRoot(61, 3, 0xefbe4786384f25e3, U64); }
    else if t == 18 { assert CubeRoot(67, 4, 0x0fc19dc68b8cd5b5, U64); }
    else if t == 19 { assert CubeRoot(71, 4, 0x240ca1cc77ac9c65, U64); }
    else if t == 20 { assert CubeRoot(73, 4, 0x2de92c6f592b0275, U64); }
    else if t == 21 { assert CubeRoot(79, 4, 0x4a7484aa6ea6e483, U64); }
    else if t == 22 { assert CubeRoot(83, 4, 0x5cb0a9dcbd41fbd4, U64); }
    else if t == 23 { assert CubeRoot(89, 4, 0x76f988da831153b5, U64); }
  }

  lemma Sha512Row3(t: nat)
    requires 24 <= t < 32
    ensures CubeRootPart(Prime(t), Sha512.K(t) as nat, U64)
  {
    if t == 24 { assert CubeRoot(97, 4, 0x983e5152ee66dfab, U64); }
    else if t == 25 { assert CubeRoot(101, 4, 0xa831c66d2db43210, U64); }
    else if t == 26 { assert CubeRoot(103, 4, 0xb00327c898fb213f, U64); }
    else if t == 27 { assert CubeRoot(107, 4, 0xbf597fc7beef0ee4, U64); }
    else if t == 28 { assert CubeRoot(109, 4, 0xc6e00bf33da88fc2, U64); }
    else if t == 29 { assert CubeRoot(113, 4, 0xd5a79147930aa725, U64); }
    else if t == 30 { assert CubeRoot(127, 5, 0x06ca6351e003826f, U64); }
    else if t == 31 { assert CubeRoot(131, 5, 0x142929670a0e6e70, U64); }
  }

  lemma Sha512Row4(t: nat)
    requires 32 <= t < 40
    ensures CubeRootPart(Prime(t), Sha512.K(t) as nat, U64)
  {
    if t == 32 { assert CubeRoot(137, 5, 0x27b70a8546d22ffc, U64); }
    else if t == 33 { assert CubeRoot(139, 5, 0x2e1b21385c26c926, U64); }
    else if t == 34 { assert CubeRoot(149, 5, 0x4d2c6dfc5ac42aed, U64); }
    else if t == 35 { assert CubeRoot(151, 5, 0x53380d139d95b3df, U64); }
    else if t == 36 { assert CubeRoot(157, 5, 0x650a73548baf63de, U64); }
    else if t == 37 { assert CubeRoot(163, 5, 0x766a0abb3c77b2a8, U64); }
    else if t == 38 { assert CubeRoot(167, 5, 0x81c2c92e47edaee6, U64); }
    else if t == 39 { assert CubeRoot(173, 5, 0x92722c851482353b, U64); }
  }

  lemma Sha512Row5(t: nat)
    requires 40 <= t < 48
    ensures CubeRootPart(Prime(t), Sha512.K(t) as nat, U64)
  {
    if t == 40 { assert CubeRoot(179, 5, 0xa2bfe8a14cf10364, U64); }
    else if t == 41 { assert CubeRoot(181, 5, 0xa81a664bbc423001, U64); }
    else if t == 42 { assert CubeRoot(191, 5, 0xc24b8b70d0f89791, U64); }
    else if t == 43 { assert CubeRoot(193, 5, 0xc76c51a30654be30, U64); }
    else if t == 44 { assert CubeRoot(197, 5, 0xd192e819d6ef5218, U64); }
    else if t == 45 { assert CubeRoot(199, 5, 0xd69906245565a910, U64); }
    else if t == 46 { assert CubeRoot(211, 5, 0xf40e35855771202a, U64); }
    else if t == 47 { assert CubeRoot(223, 6, 0x106aa07032bbd1b8, U64); }
  }

  lemma Sha512Row6(t: nat)
    requires 48 <= t < 56
    ensures CubeRootPart(Prime(t), Sha512.K(t) as nat, U64)
  {
    if t == 48 { assert CubeRoot(227, 6, 0x19a4c116b8d2d0c8, U64); }
    else if t == 49 { assert CubeRoot(229, 6, 0x1e376c085141ab53, U64); }
    else if t == 50 { assert CubeRoot(233, 6, 0x2748774cdf8eeb99, U64); }
    else if t == 51 { assert CubeRoot(239, 6, 0x34b0bcb5e19b48a8, U64); }
    else if t == 52 { assert CubeRoot(241, 6, 0x391c0cb3c5c95a63, U64); }
    else if t == 53 { assert CubeRoot(251, 6, 0x4ed8aa4ae3418acb, U64); }
    else if t == 54 { assert CubeRoot(257, 6, 0x5b9cca4f7763e373, U64); }
    else if t == 55 { assert CubeRoot(263, 6, 0x682e6ff3d6b2b8a3, U64); }
  }

  lemma Sha512Row7(t: nat)
    requires 56 <= t < 64
    ensures CubeRootPart(Prime(t), Sha512.K(t) as nat, U64)
  {
    if t == 56 { assert CubeRoot(269, 6, 0x748f82ee5defb2fc, U64); }
    else if t == 57 { assert CubeRoot(271, 6, 0x78a5636f43172f60, U64); }
    else if t == 58 { assert CubeRoot(277, 6, 0x84c87814a1f0ab72, U64); }
    else if t == 59 { assert CubeRoot(281, 6, 0x8cc702081a6439ec, U64); }
    else if t == 60 { assert CubeRoot(283, 6, 0x90befffa23631e28, U64); }
    else if t == 61 { assert CubeRoot(293, 6, 0xa4506cebde82bde9, U64); }
    else if t == 62 { assert CubeRoot(307, 6, 0xbef9a3f7b2c67915, U64); }
    else if t == 63 { assert CubeRoot(311, 6, 0xc67178f2e372532b, U64); }
  }

  lemma Sha512Row8(t: nat)
    requires 64 <= t < 72
    ensures CubeRootPart(Prime(t), Sha512.K(t) as nat, U64)
  {
    if t == 64 { assert CubeRoot(313, 6, 0xca273eceea26619c, U64); }
    else if t == 65 { assert CubeRoot(317, 6, 0xd186b8c721c0c207, U64); }
    else if t == 66 { assert CubeRoot(331, 6, 0xeada7dd6cde0eb1e, U64); }
    else if t == 67 { assert CubeRoot(337, 6, 0xf57d4f7fee6ed178, U64); }
    else if t == 68 { assert CubeRoot(347, 7, 0x06f067aa72176fba, U64); }
    else if t == 69 { assert CubeRoot(349, 7, 0x0a637dc5a2c898a6, U64); }
    else if t == 70 { assert CubeRoot(353, 7, 0x113f9804bef90dae, U64); }
    else if t == 71 { assert CubeRoot(359, 7, 0x1b710b35131c471b, U64); }
  }

  lemma Sha512Row9(t: nat)
    requires 72 <= t < 80
    ensures CubeRootPart(Prime(t), Sha512.K(t) as nat, U64)
  {
    if t == 72 { assert CubeRoot(367, 7, 0x28db77f523047d84, U64); }
    else if t == 73 { assert CubeRoot(373, 7, 0x32caab7b40c72493, U64); }
    else if t == 74 { assert CubeRoot(379, 7, 0x3c9ebe0a15c9bebc, U64); }
    else if t == 75 { assert CubeRoot(383, 7, 0x431d67c49c100d4c, U64); }
    else if t == 76 { assert CubeRoot(389, 7, 0x4cc5d4becb3e42b6, U64); }
    else if t == 77 { assert CubeRoot(397, 7, 0x597f299cfc657e2a, U64); }
    else if t == 78 { assert CubeRoot(401, 7, 0x5fcb6fab3ad6faec, U64); }
    else if t == 79 { assert CubeRoot(409, 7, 0x6c44198c4a475817, U64); }
  }

  /** Constant `t` is the beginning of the fractional part of the cube root of the prime `t`. */
  lemma Sha512Constants(t: nat)
    requires t < 80
    ensures CubeRootPart(Prime(t), Sha512.K(t) as nat, U64)
  {
    hide Prime, Sha512.K;
    match t / 8
    case 0 => Sha512Row0(t);
    case 1 => Sha512Row1(t);
    case 2 => Sha512Row2(t);
    case 3 => Sha512Row3(t);
    case 4 => Sha512Row4(t);
    case 5 => Sha512Row5(t);
    case 6 => Sha512Row6(t);
    case 7 => Sha512Row7(t);
    case 8 => Sha512Row8(t);
    case _ => Sha512Row9(t);
  }

  /** The start is the same for the square roots of the first eight primes. */
  lemma Sha512Start()
    ensures SquareRootPart(Prime(0), Sha512.START.a as nat, U64)
    ensures SquareRootPart(Prime(1), Sha512.START.b as nat, U64)
    ensures SquareRootPart(Prime(2), Sha512.START.c as nat, U64)
    ensures SquareRootPart(Prime(3), Sha512.START.d as nat, U64)
    ensures SquareRootPart(Prime(4), Sha512.START.e as nat, U64)
    ensures SquareRootPart(Prime(5), Sha512.START.f as nat, U64)
    ensures SquareRootPart(Prime(6), Sha512.START.g as nat, U64)
    ensures SquareRootPart(Prime(7), Sha512.START.h as nat, U64)
  {
    assert SquareRoot(2, 1, 0x6a09e667f3bcc908, U64);
    assert SquareRoot(3, 1, 0xbb67ae8584caa73b, U64);
    assert SquareRoot(5, 2, 0x3c6ef372fe94f82b, U64);
    assert SquareRoot(7, 2, 0xa54ff53a5f1d36f1, U64);
    assert SquareRoot(11, 3, 0x510e527fade682d1, U64);
    assert SquareRoot(13, 3, 0x9b05688c2b3e6c1f, U64);
    assert SquareRoot(17, 4, 0x1f83d9abfb41bd6b, U64);
    assert SquareRoot(19, 4, 0x5be0cd19137e2179, U64);
  }
}
