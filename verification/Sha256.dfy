/** SHA-256 (section 6.2 of FIPS 180-4) and its streaming form. */
module Sha256 {
  import opened Bytes
  import opened Words32
  import Streaming

  /** A chaining value, and the working variables of the rounds. */
  datatype Words = Words(a: bv32, b: bv32, c: bv32, d: bv32, e: bv32, f: bv32, g: bv32, h: bv32)

  function K(t: nat): bv32
    requires t < 64
  {
    var row := match t / 8
      case 0 => [0x428a2f98, 0x71374491, 0xb5c0fbcf, 0xe9b5dba5, 0x3956c25b, 0x59f111f1, 0x923f82a4, 0xab1c5ed5]
      case 1 => [0xd807aa98, 0x12835b01, 0x243185be, 0x550c7dc3, 0x72be5d74, 0x80deb1fe, 0x9bdc06a7, 0xc19bf174]
      case 2 => [0xe49b69c1, 0xefbe4786, 0x0fc19dc6, 0x240ca1cc, 0x2de92c6f, 0x4a7484aa, 0x5cb0a9dc, 0x76f988da]
      case 3 => [0x983e5152, 0xa831c66d, 0xb00327c8, 0xbf597fc7, 0xc6e00bf3, 0xd5a79147, 0x06ca6351, 0x14292967]
      case 4 => [0x27b70a85, 0x2e1b2138, 0x4d2c6dfc, 0x53380d13, 0x650a7354, 0x766a0abb, 0x81c2c92e, 0x92722c85]
      case 5 => [0xa2bfe8a1, 0xa81a664b, 0xc24b8b70, 0xc76c51a3, 0xd192e819, 0xd6990624, 0xf40e3585, 0x106aa070]
      case 6 => [0x19a4c116, 0x1e376c08, 0x2748774c, 0x34b0bcb5, 0x391c0cb3, 0x4ed8aa4a, 0x5b9cca4f, 0x682e6ff3]
      case _ => [0x748f82ee, 0x78a5636f, 0x84c87814, 0x8cc70208, 0x90befffa, 0xa4506ceb, 0xbef9a3f7, 0xc67178f2];
    row[t % 8]
  }

  const START: Words :=
    Words(0x6a09e667, 0xbb67ae85, 0x3c6ef372, 0xa54ff53a, 0x510e527f, 0x9b05688c, 0x1f83d9ab, 0x5be0cd19)

  function Ch(x: bv32, y: bv32, z: bv32): bv32 {
    Xor(And(x, y), And(Not(x), z))
  }

  function Maj(x: bv32, y: bv32, z: bv32): bv32 {
    Xor(Xor(And(x, y), And(x, z)), And(y, z))
  }

  function BigSigma0(x: bv32): bv32 {
    Xor(Xor(Rotr(x, 2), Rotr(x, 13)), Rotr(x, 22))
  }

  function BigSigma1(x: bv32): bv32 {
    Xor(Xor(Rotr(x, 6), Rotr(x, 11)), Rotr(x, 25))
  }

  function SmallSigma0(x: bv32): bv32 {
    Xor(Xor(Rotr(x, 7), Rotr(x, 18)), Shr(x, 3))
  }

  function SmallSigma1(x: bv32): bv32 {
    Xor(Xor(Rotr(x, 17), Rotr(x, 19)), Shr(x, 10))
  }

  function NextWord(w2: bv32, w7: bv32, w15: bv32, w16: bv32): bv32 {
    Add(Add(Add(SmallSigma1(w2), w7), SmallSigma0(w15)), w16)
  }

  /** Word `t` of the message schedule. */
  function W(block: seq<byte>, t: nat): bv32
    requires |block| == 64 && t < 64
  {
    if t < 16 then LoadBig(block, 4 * t)
    else NextWord(W(block, t - 2), W(block, t - 7), W(block, t - 15), W(block, t - 16))
  }

  function T1(v: Words, k: bv32, w: bv32): bv32 {
    Add(Add(Add(Add(v.h, BigSigma1(v.e)), Ch(v.e, v.f, v.g)), k), w)
  }

  function T2(v: Words): bv32 {
    Add(BigSigma0(v.a), Maj(v.a, v.b, v.c))
  }

  function Round(v: Words, k: bv32, w: bv32): Words {
    Words(Add(T1(v, k, w), T2(v)), v.a, v.b, v.c, Add(v.d, T1(v, k, w)), v.e, v.f, v.g)
  }

  /** The working variables after the first `n` rounds. */
  function Rounds(block: seq<byte>, v: Words, n: nat): Words
    requires |block| == 64 && n <= 64
  {
    if n == 0 then v else Round(Rounds(block, v, n - 1), K(n - 1), W(block, n - 1))
  }

  function WordsOf(h: seq<bv32>): Words
    requires |h| == 8
  {
    Words(h[0], h[1], h[2], h[3], h[4], h[5], h[6], h[7])
  }

  function Sum(h: Words, v: Words): Words {
    Words(Add(h.a, v.a), Add(h.b, v.b), Add(h.c, v.c), Add(h.d, v.d),
          Add(h.e, v.e), Add(h.f, v.f), Add(h.g, v.g), Add(h.h, v.h))
  }

  function Compress(h: Words, block: seq<byte>): Words
    requires |block| == 64
  {
    Sum(h, Rounds(block, h, 64))
  }

  // ----- The loops

  method Schedule(block: seq<byte>, w: array<bv32>)
    requires |block| == 64 && w.Length == 64
    modifies w
    ensures forall t :: 0 <= t < 64 ==> w[t] == W(block, t)
  {
    hide LoadBig, NextWord;
    for i := 0 to 16
      invariant forall t :: 0 <= t < i ==> w[t] == W(block, t)
    {
      w[i] := LoadBig(block, 4 * i);
    }
    for i := 16 to 64
      invariant forall t :: 0 <= t < i ==> w[t] == W(block, t)
    {
      w[i] := NextWord(w[i - 2], w[i - 7], w[i - 15], w[i - 16]);
    }
  }

  method RunRounds(block: seq<byte>, start: Words) returns (v: Words)
    requires |block| == 64
    ensures v == Rounds(block, start, 64)
  {
    hide K, W, Round;
    var w := new bv32[64];
    Schedule(block, w);
    v := start;
    for i := 0 to 64
      invariant forall t :: 0 <= t < 64 ==> w[t] == W(block, t)
      invariant v == Rounds(block, start, i)
    {
      v := Turn(v, K(i), w[i]);
      NextRound(block, start, i);
    }
  }

  lemma NextRound(block: seq<byte>, start: Words, n: nat)
    requires |block| == 64 && n < 64
    ensures Rounds(block, start, n + 1) == Round(Rounds(block, start, n), K(n), W(block, n))
  {
    hide K, W, Round;
  }

  /** One round: every variable moves on by one, two of them take the new sums. */
  method Turn(v: Words, k: bv32, w: bv32) returns (next: Words)
    ensures next == Round(v, k, w)
  {
    hide T1, T2, Add;
    var t1, t2 := T1(v, k, w), T2(v);
    next := v.(h := v.g, g := v.f, f := v.e, e := Add(v.d, t1), d := v.c, c := v.b, b := v.a, a := Add(t1, t2));
  }

  method CompressInPlace(h: array<bv32>, block: seq<byte>)
    requires h.Length == 8 && |block| == 64
    modifies h
    ensures WordsOf(h[..]) == Compress(old(WordsOf(h[..])), block)
  {
    hide Rounds, Sum;
    var v := RunRounds(block, WordsOf(h[..]));
    var sum := Sum(WordsOf(h[..]), v);
    h[0], h[1], h[2], h[3] := sum.a, sum.b, sum.c, sum.d;
    h[4], h[5], h[6], h[7] := sum.e, sum.f, sum.g, sum.h;
  }

  // ----- Streaming

  function Output(h: Words): seq<byte> {
    StoreBig(h.a) + StoreBig(h.b) + StoreBig(h.c) + StoreBig(h.d) + StoreBig(h.e) + StoreBig(h.f) + StoreBig(h.g) + StoreBig(h.h)
  }

  /** The length in bits, in a 64-bit register. */
  function LengthField(total: u64): (s: seq<byte>)
    ensures |s| == 8
  {
    BigEndian(total * 8 % U64, 8)
  }

  function Algorithm(): Streaming.Algorithm<Words> {
    Streaming.Algorithm(64, 8, START,
      (h: Words, block: seq<byte>) => if |block| == 64 then Compress(h, block) else h,
      LengthField, Output)
  }

  /** For messages below 2^61 bytes the length field is the exact length in bits, as section 5.1.1 of
      FIPS 180-4 asks, and the padding tells all such messages apart. */
  lemma PaddingConforms(m: seq<byte>, n: seq<byte>)
    requires |m| < 0x2000_0000_0000_0000 && |n| < 0x2000_0000_0000_0000
    ensures Algorithm().Valid()
    ensures LengthField(Streaming.Wrap64(|m|)) == BigEndian(8 * |m|, 8)
    ensures Streaming.Padded(Algorithm(), m) == Streaming.Padded(Algorithm(), n) ==> m == n
  {
    hide BigEndian, Streaming.Padded, Compress, Output;
    LengthExact(|m|);
    LengthExact(|n|);
    Pow256Values();
    if Streaming.Padded(Algorithm(), m) == Streaming.Padded(Algorithm(), n) {
      if LengthField(Streaming.Wrap64(|m|)) == LengthField(Streaming.Wrap64(|n|)) {
        BigEndianInjective(8 * |m|, 8 * |n|, 8);
      }
      Streaming.PaddingInjective(Algorithm(), m, n);
    }
  }

  lemma LengthExact(n: nat)
    requires n < 0x2000_0000_0000_0000
    ensures LengthField(Streaming.Wrap64(n)) == BigEndian(8 * n, 8)
  {
    hide BigEndian;
    assert n % U64 == n;
    assert n * 8 % U64 == 8 * n;
  }
}
