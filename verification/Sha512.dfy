/** SHA-512 (section 6.4 of FIPS 180-4) and its streaming form. */
module Sha512 {
  import opened Arith
  import opened Bytes
  import Streaming

  // ----- 64-bit words

  function Add(x: bv64, y: bv64): bv64 { x + y }
  function Xor(x: bv64, y: bv64): bv64 { x ^ y }
  function And(x: bv64, y: bv64): bv64 { x & y }
  function Not(x: bv64): bv64 { !x }

  function Rotr(x: bv64, n: nat): bv64
    requires 0 < n < 64
  {
    (x >> n) | (x << (64 - n))
  }

  function LoadBig(p: seq<byte>, at: nat): bv64
    requires at + 8 <= |p|
  {
    ((p[at] as bv64) << 56) | ((p[at + 1] as bv64) << 48) | ((p[at + 2] as bv64) << 40) | ((p[at + 3] as bv64) << 32)
    | ((p[at + 4] as bv64) << 24) | ((p[at + 5] as bv64) << 16) | ((p[at + 6] as bv64) << 8) | (p[at + 7] as bv64)
  }

  function StoreBig(x: bv64): (s: seq<byte>)
    ensures |s| == 8
  {
    [((x >> 56) & 0xff) as bv8, ((x >> 48) & 0xff) as bv8, ((x >> 40) & 0xff) as bv8, ((x >> 32) & 0xff) as bv8,
     ((x >> 24) & 0xff) as bv8, ((x >> 16) & 0xff) as bv8, ((x >> 8) & 0xff) as bv8, (x & 0xff) as bv8]
  }

  // ----- The compression function

  datatype Words = Words(a: bv64, b: bv64, c: bv64, d: bv64, e: bv64, f: bv64, g: bv64, h: bv64)

  const START: Words :=
    Words(0x6a09e667f3bcc908, 0xbb67ae8584caa73b, 0x3c6ef372fe94f82b, 0xa54ff53a5f1d36f1,
          0x510e527fade682d1, 0x9b05688c2b3e6c1f, 0x1f83d9abfb41bd6b, 0x5be0cd19137e2179)

  function K(t: nat): bv64
    requires t < 80
  {
    var row := match t / 4
      case 0 => [0x428a2f98d728ae22, 0x7137449123ef65cd, 0xb5c0fbcfec4d3b2f, 0xe9b5dba58189dbbc]
      case 1 => [0x3956c25bf348b538, 0x59f111f1b605d019, 0x923f82a4af194f9b, 0xab1c5ed5da6d8118]
      case 2 => [0xd807aa98a3030242, 0x12835b0145706fbe, 0x243185be4ee4b28c, 0x550c7dc3d5ffb4e2]
      case 3 => [0x72be5d74f27b896f, 0x80deb1fe3b1696b1, 0x9bdc06a725c71235, 0xc19bf174cf692694]
      case 4 => [0xe49b69c19ef14ad2, 0xefbe4786384f25e3, 0x0fc19dc68b8cd5b5, 0x240ca1cc77ac9c65]
      case 5 => [0x2de92c6f592b0275, 0x4a7484aa6ea6e483, 0x5cb0a9dcbd41fbd4, 0x76f988da831153b5]
      case 6 => [0x983e5152ee66dfab, 0xa831c66d2db43210, 0xb00327c898fb213f, 0xbf597fc7beef0ee4]
      case 7 => [0xc6e00bf33da88fc2, 0xd5a79147930aa725, 0x06ca6351e003826f, 0x142929670a0e6e70]
      case 8 => [0x27b70a8546d22ffc, 0x2e1b21385c26c926, 0x4d2c6dfc5ac42aed, 0x53380d139d95b3df]
      case 9 => [0x650a73548baf63de, 0x766a0abb3c77b2a8, 0x81c2c92e47edaee6, 0x92722c851482353b]
      case 10 => [0xa2bfe8a14cf10364, 0xa81a664bbc423001, 0xc24b8b70d0f89791, 0xc76c51a30654be30]
      case 11 => [0xd192e819d6ef5218, 0xd69906245565a910, 0xf40e35855771202a, 0x106aa07032bbd1b8]
      case 12 => [0x19a4c116b8d2d0c8, 0x1e376c085141ab53, 0x2748774cdf8eeb99, 0x34b0bcb5e19b48a8]
      case 13 => [0x391c0cb3c5c95a63, 0x4ed8aa4ae3418acb, 0x5b9cca4f7763e373, 0x682e6ff3d6b2b8a3]
      case 14 => [0x748f82ee5defb2fc, 0x78a5636f43172f60, 0x84c87814a1f0ab72, 0x8cc702081a6439ec]
      case 15 => [0x90befffa23631e28, 0xa4506cebde82bde9, 0xbef9a3f7b2c67915, 0xc67178f2e372532b]
      case 16 => [0xca273eceea26619c, 0xd186b8c721c0c207, 0xeada7dd6cde0eb1e, 0xf57d4f7fee6ed178]
      case 17 => [0x06f067aa72176fba, 0x0a637dc5a2c898a6, 0x113f9804bef90dae, 0x1b710b35131c471b]
      case 18 => [0x28db77f523047d84, 0x32caab7b40c72493, 0x3c9ebe0a15c9bebc, 0x431d67c49c100d4c]
      case _ => [0x4cc5d4becb3e42b6, 0x597f299cfc657e2a, 0x5fcb6fab3ad6faec, 0x6c44198c4a475817];
    row[t % 4]
  }

  function Ch(x: bv64, y: bv64, z: bv64): bv64 {
    Xor(And(x, y), And(Not(x), z))
  }

  function Maj(x: bv64, y: bv64, z: bv64): bv64 {
    Xor(Xor(And(x, y), And(x, z)), And(y, z))
  }

  function BigSigma0(x: bv64): bv64 {
    Xor(Xor(Rotr(x, 28), Rotr(x, 34)), Rotr(x, 39))
  }

  function BigSigma1(x: bv64): bv64 {
    Xor(Xor(Rotr(x, 14), Rotr(x, 18)), Rotr(x, 41))
  }

  function SmallSigma0(x: bv64): bv64 {
    Xor(Xor(Rotr(x, 1), Rotr(x, 8)), x >> 7)
  }

  function SmallSigma1(x: bv64): bv64 {
    Xor(Xor(Rotr(x, 19), Rotr(x, 61)), x >> 6)
  }

  function NextWord(w2: bv64, w7: bv64, w15: bv64, w16: bv64): bv64 {
    Add(Add(Add(SmallSigma1(w2), w7), SmallSigma0(w15)), w16)
  }

  /** Word `t` of the message schedule. */
  function W(block: seq<byte>, t: nat): bv64
    requires |block| == 128 && t < 80
  {
    if t < 16 then LoadBig(block, 8 * t)
    else NextWord(W(block, t - 2), W(block, t - 7), W(block, t - 15), W(block, t - 16))
  }

  function T1(v: Words, k: bv64, w: bv64): bv64 {
    Add(Add(Add(Add(v.h, BigSigma1(v.e)), Ch(v.e, v.f, v.g)), k), w)
  }

  function T2(v: Words): bv64 {
    Add(BigSigma0(v.a), Maj(v.a, v.b, v.c))
  }

  function Round(v: Words, k: bv64, w: bv64): Words {
    Words(Add(T1(v, k, w), T2(v)), v.a, v.b, v.c, Add(v.d, T1(v, k, w)), v.e, v.f, v.g)
  }

  /** The working variables after the first `n` rounds. */
  function Rounds(block: seq<byte>, v: Words, n: nat): Words
    requires |block| == 128 && n <= 80
  {
    if n == 0 then v else Round(Rounds(block, v, n - 1), K(n - 1), W(block, n - 1))
  }

  function Sum(h: Words, v: Words): Words {
    Words(Add(h.a, v.a), Add(h.b, v.b), Add(h.c, v.c), Add(h.d, v.d),
          Add(h.e, v.e), Add(h.f, v.f), Add(h.g, v.g), Add(h.h, v.h))
  }

  function Compress(h: Words, block: seq<byte>): Words
    requires |block| == 128
  {
    Sum(h, Rounds(block, h, 80))
  }

  // ----- The loops

  method Schedule(block: seq<byte>, w: array<bv64>)
    requires |block| == 128 && w.Length == 80
    modifies w
    ensures forall t :: 0 <= t < 80 ==> w[t] == W(block, t)
  {
    hide LoadBig, NextWord;
    for i := 0 to 16
      invariant forall t :: 0 <= t < i ==> w[t] == W(block, t)
    {
      w[i] := LoadBig(block, 8 * i);
    }
    for i := 16 to 80
      invariant forall t :: 0 <= t < i ==> w[t] == W(block, t)
    {
      w[i] := NextWord(w[i - 2], w[i - 7], w[i - 15], w[i - 16]);
    }
  }

  method CompressBlock(h: Words, block: seq<byte>) returns (out: Words)
    requires |block| == 128
    ensures out == Compress(h, block)
  {
    hide K, W, Round, Sum;
    var w := new bv64[80];
    Schedule(block, w);
    var v := h;
    for i := 0 to 80
      invariant forall t :: 0 <= t < 80 ==> w[t] == W(block, t)
      invariant v == Rounds(block, h, i)
    {
      v := Turn(v, K(i), w[i]);
      NextRound(block, h, i);
    }
    out := Sum(h, v);
  }

  lemma NextRound(block: seq<byte>, start: Words, n: nat)
    requires |block| == 128 && n < 80
    ensures Rounds(block, start, n + 1) == Round(Rounds(block, start, n), K(n), W(block, n))
  {
    hide K, W, Round;
  }

  method Turn(v: Words, k: bv64, w: bv64) returns (next: Words)
    ensures next == Round(v, k, w)
  {
    hide T1, T2, Add;
    var t1, t2 := T1(v, k, w), T2(v);
    next := v.(h := v.g, g := v.f, f := v.e, e := Add(v.d, t1), d := v.c, c := v.b, b := v.a, a := Add(t1, t2));
  }

  // ----- Streaming

  function Output(h: Words): seq<byte> {
    StoreBig(h.a) + StoreBig(h.b) + StoreBig(h.c) + StoreBig(h.d)
    + StoreBig(h.e) + StoreBig(h.f) + StoreBig(h.g) + StoreBig(h.h)
  }

  /** The length in bits, in two 64-bit registers. */
  function LengthField(total: u64): (s: seq<byte>)
    ensures |s| == 16
  {
    BigEndian(total / 0x2000_0000_0000_0000, 8) + BigEndian(total * 8 % U64, 8)
  }

  function Algorithm(): Streaming.Algorithm<Words> {
    Streaming.Algorithm(128, 16, START,
      (h: Words, block: seq<byte>) => if |block| == 128 then Compress(h, block) else h,
      LengthField, Output)
  }

  /** A big-endian number is its high part followed by its low part. */
  lemma {:induction false} BigEndianSplit(n: nat, high: nat, low: nat, k: nat, m: nat)
    requires low < Pow256(m) && n == high * Pow256(m) + low
    ensures BigEndian(n, k + m) == BigEndian(high, k) + BigEndian(low, m)
    decreases m
  {
    hide ByteOf;
    if m > 0 {
      var p, q, r := Pow256(m - 1), low / 256, low % 256;
      Regroup(high, p, q, r);
      assert n == 256 * (high * p + q) + r;
      assert n / 256 == high * p + q && n % 256 == r;
      BigEndianSplit(high * p + q, high, q, k, m - 1);
      assert BigEndian(n, k + m) == BigEndian(high * p + q, k + m - 1) + [ByteOf(r)];
    }
  }

  lemma Regroup(high: nat, p: nat, q: nat, r: nat)
    ensures high * (256 * p) + (256 * q + r) == 256 * (high * p + q) + r
  {
  }

  /** Below 2^64 bytes the two registers together hold the exact 128-bit length in bits, as section
      5.1.2 of FIPS 180-4 asks, and the padding tells all such messages apart. */
  lemma PaddingConforms(m: seq<byte>, n: seq<byte>)
    requires |m| < U64 && |n| < U64
    ensures Algorithm().Valid()
    ensures LengthField(Streaming.Wrap64(|m|)) == BigEndian(8 * |m|, 16)
    ensures Streaming.Padded(Algorithm(), m) == Streaming.Padded(Algorithm(), n) ==> m == n
  {
    hide BigEndian, Streaming.Padded, Compress, Output, LengthField, Pow256;
    LengthExact(|m|);
    LengthExact(|n|);
    WidePow();
    if Streaming.Padded(Algorithm(), m) == Streaming.Padded(Algorithm(), n) {
      if LengthField(Streaming.Wrap64(|m|)) == LengthField(Streaming.Wrap64(|n|)) {
        BigEndianInjective(8 * |m|, 8 * |n|, 16);
      }
      Streaming.PaddingInjective(Algorithm(), m, n);
    }
  }

  lemma WidePow()
    ensures Pow256(16) > 8 * U64 && Pow256(8) == U64
  {
    Pow256Values();
    assert Pow256(10) == 256 * 256 * Pow256(8);
    assert Pow256(13) == 256 * 256 * 256 * Pow256(10);
    assert Pow256(16) == 256 * 256 * 256 * Pow256(13);
  }

  lemma LengthExact(n: nat)
    requires n < U64
    ensures LengthField(Streaming.Wrap64(n)) == BigEndian(8 * n, 16)
  {
    hide BigEndian;
    assert Streaming.Wrap64(n) == n;
    WidePow();
    BigEndianSplit(8 * n, n / 0x2000_0000_0000_0000, 8 * n % U64, 8, 8);
  }
}
