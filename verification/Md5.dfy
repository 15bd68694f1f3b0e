/** MD5 (section 3.4 of RFC 1321) and its streaming form. */
module Md5 {
  import opened Bytes
  import opened Words32
  import Streaming

  datatype Words = Words(a: bv32, b: bv32, c: bv32, d: bv32)

  const START: Words := Words(0x67452301, 0xefcdab89, 0x98badcfe, 0x10325476)

  function K(i: nat): bv32
    requires i < 64
  {
    var row := match i / 8
      case 0 => [0xd76aa478, 0xe8c7b756, 0x242070db, 0xc1bdceee, 0xf57c0faf, 0x4787c62a, 0xa8304613, 0xfd469501]
      case 1 => [0x698098d8, 0x8b44f7af, 0xffff5bb1, 0x895cd7be, 0x6b901122, 0xfd987193, 0xa679438e, 0x49b40821]
      case 2 => [0xf61e2562, 0xc040b340, 0x265e5a51, 0xe9b6c7aa, 0xd62f105d, 0x02441453, 0xd8a1e681, 0xe7d3fbc8]
      case 3 => [0x21e1cde6, 0xc33707d6, 0xf4d50d87, 0x455a14ed, 0xa9e3e905, 0xfcefa3f8, 0x676f02d9, 0x8d2a4c8a]
      case 4 => [0xfffa3942, 0x8771f681, 0x6d9d6122, 0xfde5380c, 0xa4beea44, 0x4bdecfa9, 0xf6bb4b60, 0xbebfbc70]
      case 5 => [0x289b7ec6, 0xeaa127fa, 0xd4ef3085, 0x04881d05, 0xd9d4d039, 0xe6db99e5, 0x1fa27cf8, 0xc4ac5665]
      case 6 => [0xf4292244, 0x432aff97, 0xab9423a7, 0xfc93a039, 0x655b59c3, 0x8f0ccc92, 0xffeff47d, 0x85845dd1]
      case _ => [0x6fa87e4f, 0xfe2ce6e0, 0xa3014314, 0x4e0811a1, 0xf7537e82, 0xbd3af235, 0x2ad7d2bb, 0xeb86d391];
    row[i % 8]
  }

  /** The rotation amount of step `i`. */
  function S(i: nat): (s: nat)
    requires i < 64
    ensures 0 < s < 32
  {
    var row := if i < 16 then [7, 12, 17, 22] else if i < 32 then [5, 9, 14, 20]
               else if i < 48 then [4, 11, 16, 23] else [6, 10, 15, 21];
    row[i % 4]
  }

  /** Which word of the block step `i` uses. */
  function G(i: nat): (g: nat)
    requires i < 64
    ensures g < 16
  {
    var j := i % 16;
    if i < 16 then j else if i < 32 then (5 * j + 1) % 16 else if i < 48 then (3 * j + 5) % 16 else 7 * j % 16
  }

  function F(i: nat, x: bv32, y: bv32, z: bv32): bv32 {
    if i < 16 then Or(And(x, y), And(Not(x), z))
    else if i < 32 then Or(And(x, z), And(y, Not(z)))
    else if i < 48 then Xor(Xor(x, y), z)
    else Xor(y, Or(x, Not(z)))
  }

  function Mix(a: bv32, b: bv32, f: bv32, m: bv32, k: bv32, s: nat): bv32
    requires 0 < s < 32
  {
    Add(b, Rotl(Add(Add(Add(a, f), m), k), s))
  }

  function Step(v: Words, i: nat, m: bv32): Words
    requires i < 64
  {
    Words(v.d, Mix(v.a, v.b, F(i, v.b, v.c, v.d), m, K(i), S(i)), v.b, v.c)
  }

  function Steps(block: seq<byte>, v: Words, n: nat): Words
    requires |block| == 64 && n <= 64
  {
    if n == 0 then v else Step(Steps(block, v, n - 1), n - 1, LoadLittle(block, 4 * G(n - 1)))
  }

  function Sum(h: Words, v: Words): Words {
    Words(Add(h.a, v.a), Add(h.b, v.b), Add(h.c, v.c), Add(h.d, v.d))
  }

  function Compress(h: Words, block: seq<byte>): Words
    requires |block| == 64
  {
    Sum(h, Steps(block, h, 64))
  }

  // ----- The loops

  method CompressBlock(h: Words, block: seq<byte>) returns (out: Words)
    requires |block| == 64
    ensures out == Compress(h, block)
  {
    hide K, S, G, F, Mix, LoadLittle, Sum, Step;
    var m := new bv32[16];
    for i := 0 to 16
      invariant forall t :: 0 <= t < i ==> m[t] == LoadLittle(block, 4 * t)
    {
      m[i] := LoadLittle(block, 4 * i);
    }
    var v := h;
    for i := 0 to 64
      invariant forall t :: 0 <= t < 16 ==> m[t] == LoadLittle(block, 4 * t)
      invariant v == Steps(block, h, i)
    {
      v := Turn(v, i, m[G(i)]);
      NextStep(block, h, i);
    }
    out := Sum(h, v);
  }

  lemma NextStep(block: seq<byte>, start: Words, n: nat)
    requires |block| == 64 && n < 64
    ensures Steps(block, start, n + 1) == Step(Steps(block, start, n), n, LoadLittle(block, 4 * G(n)))
  {
    hide G, LoadLittle, Step;
  }

  method Turn(v: Words, i: nat, m: bv32) returns (next: Words)
    requires i < 64
    ensures next == Step(v, i, m)
  {
    hide K, S, F, Mix;
    var f := F(i, v.b, v.c, v.d);
    var b := Mix(v.a, v.b, f, m, K(i), S(i));
    next := v.(d := v.c, c := v.b, b := b, a := v.d);
  }

  // ----- Streaming

  function Output(h: Words): seq<byte> {
    StoreLittle(h.a) + StoreLittle(h.b) + StoreLittle(h.c) + StoreLittle(h.d)
  }

  function LengthField(total: u64): (s: seq<byte>)
    ensures |s| == 8
  {
    LittleEndian(total * 8 % U64, 8)
  }

  function Algorithm(): Streaming.Algorithm<Words> {
    Streaming.Algorithm(64, 8, START,
      (h: Words, block: seq<byte>) => if |block| == 64 then Compress(h, block) else h,
      LengthField, Output)
  }

  /** Section 3.2 of RFC 1321 asks for the low-order 64 bits of the length in bits: this is what the
      length field holds for every message, however long. */
  lemma LengthConforms(n: nat)
    ensures Algorithm().Valid()
    ensures LengthField(Streaming.Wrap64(n)) == LittleEndian(8 * n % U64, 8)
  {
    hide LittleEndian, Compress;
    WrapTimes8(n);
  }

  lemma WrapTimes8(n: nat)
    ensures n % U64 * 8 % U64 == 8 * n % U64
  {
  }
}
