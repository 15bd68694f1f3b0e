/** The MD5 digest of the three bytes "abc", step by step. */
module Md5Answer {
  import opened Bytes
  import opened Md5
  import opened Words32
  import Streaming

  /** The message, the one bit and the length in bits fill one block. */
  function Block(): (block: seq<byte>)
    ensures |block| == 64
  {
    [0x61, 0x62, 0x63, 0x80] + Zeros(52) + [24] + Zeros(7)
  }

  function Message(g: nat): bv32
    requires g < 16
  {
    LoadLittle(Block(), 4 * g)
  }

  lemma Messages(g: nat)
    requires g < 16
    ensures Message(g) == if g == 0 then 0x80636261 else if g == 14 then 24 else 0
  {
    var block := Block();
    assert forall i :: 4 <= i < 56 || 57 <= i < 64 ==> block[i] == 0;
    assert block[0] == 0x61 && block[1] == 0x62 && block[2] == 0x63 && block[3] == 0x80 && block[56] == 24;
  }

  /** One step, from the variables before it and the new value of `b`. */
  lemma Advance(t: nat, v: Words, g: nat, s: nat, k: bv32, b: bv32) returns (next: Words)
    requires t < 64 && Steps(Block(), START, t) == v && G(t) == g && S(t) == s && K(t) == k
    requires b == Mix(v.a, v.b, F(t, v.b, v.c, v.d), if g == 0 then 0x80636261 else if g == 14 then 24 else 0, k, s)
    ensures next == Words(v.d, b, v.b, v.c) && Steps(Block(), START, t + 1) == next
  {
    hide Block, LoadLittle, K, G, S, F, Mix;
    Messages(g);
    next := Words(v.d, b, v.b, v.c);
  }

  // ----- The steps: the variables after `q` groups of four

  lemma Steps0To3(q: nat) returns (v: Words)
    requires q == 1
    ensures v == Steps(Block(), START, 4 * q)
    ensures v == Words(0xd6d117b4, 0x7ad956f2, 0x2f6fbd72, 0x344a8432)
  {
    hide Steps, Block;
    v := Begin();
    v := Advance(0, v, 0, 7, 0xd76aa478, 0xd6d117b4);
    v := Advance(1, v, 1, 12, 0xe8c7b756, 0x344a8432);
    v := Advance(2, v, 2, 17, 0x242070db, 0x2f6fbd72);
    v := Advance(3, v, 3, 22, 0xc1bdceee, 0x7ad956f2);
  }

  lemma Steps4To7(q: nat) returns (v: Words)
    requires q == 2
    ensures v == Steps(Block(), START, 4 * q)
    ensures v == Words(0xc73741ef, 0x928d99f6, 0x207dc67b, 0x8bac3051)
  {
    hide Steps, Block;
    v := Steps0To3(1);
    v := Advance(4, v, 4, 7, 0xf57c0faf, 0xc73741ef);
    v := Advance(5, v, 5, 12, 0x4787c62a, 0x8bac3051);
    v := Advance(6, v, 6, 17, 0xa8304613, 0x207dc67b);
    v := Advance(7, v, 7, 22, 0xfd469501, 0x928d99f6);
  }

  lemma Steps8To11(q: nat) returns (v: Words)
    requires q == 3
    ensures v == Steps(Block(), START, 4 * q)
    ensures v == Words(0x854b3712, 0x5ed49596, 0x3020401c, 0x74e2f284)
  {
    hide Steps, Block;
    v := Steps4To7(2);
    v := Advance(8, v, 8, 7, 0x698098d8, 0x854b3712);
    v := Advance(9, v, 9, 12, 0x8b44f7af, 0x74e2f284);
    v := Advance(10, v, 10, 17, 0xffff5bb1, 0x3020401c);
    v := Advance(11, v, 11, 22, 0x895cd7be, 0x5ed49596);
  }

  lemma Steps12To15(q: nat) returns (v: Words)
    requires q == 4
    ensures v == Steps(Block(), START, 4 * q)
    ensures v == Words(0xdda9b9a6, 0x72aff2e0, 0xe396856b, 0xa1051895)
  {
    hide Steps, Block;
    v := Steps8To11(3);
    v := Advance(12, v, 12, 7, 0x6b901122, 0xdda9b9a6);
    v := Advance(13, v, 13, 12, 0xfd987193, 0xa1051895);
    v := Advance(14, v, 14, 17, 0xa679438e, 0xe396856b);
    v := Advance(15, v, 15, 22, 0x49b40821, 0x72aff2e0);
  }

  lemma Steps16To19(q: nat) returns (v: Words)
    requires q == 5
    ensures v == Steps(Block(), START, 4 * q)
    ensures v == Words(0x3e9e9126, 0xb5b204e4, 0xe25e1652, 0x4a1d804e)
  {
    hide Steps, Block;
    v := Steps12To15(4);
    v := Advance(16, v, 1, 5, 0xf61e2562, 0x3e9e9126);
    v := Advance(17, v, 6, 9, 0xc040b340, 0x4a1d804e);
    v := Advance(18, v, 11, 14, 0x265e5a51, 0xe25e1652);
    v := Advance(19, v, 0, 20, 0xe9b6c7aa, 0xb5b204e4);
  }

  lemma Steps20To23(q: nat) returns (v: Words)
    requires q == 6
    ensures v == Steps(Block(), START, 4 * q)
    ensures v == Words(0x59a8ffda, 0x47092c07, 0xabfc7920, 0x6d002f1e)
  {
    hide Steps, Block;
    v := Steps16To19(5);
    v := Advance(20, v, 5, 5, 0xd62f105d, 0x59a8ffda);
    v := Advance(21, v, 10, 9, 0x02441453, 0x6d002f1e);
    v := Advance(22, v, 15, 14, 0xd8a1e681, 0xabfc7920);
    v := Advance(23, v, 4, 20, 0xe7d3fbc8, 0x47092c07);
  }

  lemma Steps24To27(q: nat) returns (v: Words)
    requires q == 7
    ensures v == Steps(Block(), START, 4 * q)
    ensures v == Words(0xb7f268cf, 0x786acb8f, 0xfe1623b1, 0x09388eff)
  {
    hide Steps, Block;
    v := Steps20To23(6);
    v := Advance(24, v, 9, 5, 0x21e1cde6, 0xb7f268cf);
    v := Advance(25, v, 14, 9, 0xc33707d6, 0x09388eff);
    v := Advance(26, v, 3, 14, 0xf4d50d87, 0xfe1623b1);
    v := Advance(27, v, 8, 20, 0x455a14ed, 0x786acb8f);
  }

  lemma Steps28To31(q: nat) returns (v: Words)
    requires q == 8
    ensures v == Steps(Block(), START, 4 * q)
    ensures v == Words(0x790a77fb, 0x726342d3, 0xa62884aa, 0x9f47e4f8)
  {
    hide Steps, Block;
    v := Steps24To27(7);
    v := Advance(28, v, 13, 5, 0xa9e3e905, 0x790a77fb);
    v := Advance(29, v, 2, 9, 0xfcefa3f8, 0x9f47e4f8);
    v := Advance(30, v, 7, 14, 0x676f02d9, 0xa62884aa);
    v := Advance(31, v, 12, 20, 0x8d2a4c8a, 0x726342d3);
  }

  lemma Steps32To35(q: nat) returns (v: Words)
    requires q == 9
    ensures v == Steps(Block(), START, 4 * q)
    ensures v == Words(0xb3707ebf, 0x3b0875c7, 0x8d212ff5, 0x60127b2e)
  {
    hide Steps, Block;
    v := Steps28To31(8);
    v := Advance(32, v, 5, 4, 0xfffa3942, 0xb3707ebf);
    v := Advance(33, v, 8, 11, 0x8771f681, 0x60127b2e);
    v := Advance(34, v, 11, 16, 0x6d9d6122, 0x8d212ff5);
    v := Advance(35, v, 14, 23, 0xfde5380c, 0x3b0875c7);
  }

  lemma Steps36To39(q: nat) returns (v: Words)
    requires q == 10
    ensures v == Steps(Block(), START, 4 * q)
    ensures v == Words(0x21b117b9, 0x5a2f5ea5, 0x3575227e, 0x6e7429d5)
  {
    hide Steps, Block;
    v := Steps32To35(9);
    v := Advance(36, v, 1, 4, 0xa4beea44, 0x21b117b9);
    v := Advance(37, v, 4, 11, 0x4bdecfa9, 0x6e7429d5);
    v := Advance(38, v, 7, 16, 0xf6bb4b60, 0x3575227e);
    v := Advance(39, v, 10, 23, 0xbebfbc70, 0x5a2f5ea5);
  }

  lemma Steps40To43(q: nat) returns (v: Words)
    requires q == 11
    ensures v == Steps(Block(), START, 4 * q)
    ensures v == Words(0x11de1779, 0x4c6124f4, 0x31c465ca, 0xfadcaa38)
  {
    hide Steps, Block;
    v := Steps36To39(10);
    v := Advance(40, v, 13, 4, 0x289b7ec6, 0x11de1779);
    v := Advance(41, v, 0, 11, 0xeaa127fa, 0xfadcaa38);
    v := Advance(42, v, 3, 16, 0xd4ef3085, 0x31c465ca);
    v := Advance(43, v, 6, 23, 0x04881d05, 0x4c6124f4);
  }

  lemma Steps44To47(q: nat) returns (v: Words)
    requires q == 12
    ensures v == Steps(Block(), START, 4 * q)
    ensures v == Words(0x7f2e507b, 0x7beb9700, 0x8fae6399, 0x99d9679d)
  {
    hide Steps, Block;
    v := Steps40To43(11);
    v := Advance(44, v, 9, 4, 0xd9d4d039, 0x7f2e507b);
    v := Advance(45, v, 12, 11, 0xe6db99e5, 0x99d9679d);
    v := Advance(46, v, 15, 16, 0x1fa27cf8, 0x8fae6399);
    v := Advance(47, v, 2, 23, 0xc4ac5665, 0x7beb9700);
  }

  lemma Steps48To51(q: nat) returns (v: Words)
    requires q == 13
    ensures v == Steps(Block(), START, 4 * q)
    ensures v == Words(0x7b201df8, 0x8bf025c4, 0xb298cefd, 0xf4e8e96e)
  {
    hide Steps, Block;
    v := Steps44To47(12);
    v := Advance(48, v, 0, 6, 0xf4292244, 0x7b201df8);
    v := Advance(49, v, 7, 10, 0x432aff97, 0xf4e8e96e);
    v := Advance(50, v, 14, 15, 0xab9423a7, 0xb298cefd);
    v := Advance(51, v, 5, 21, 0xfc93a039, 0x8bf025c4);
  }

  lemma Steps52To55(q: nat) returns (v: Words)
    requires q == 14
    ensures v == Steps(Block(), START, 4 * q)
    ensures v == Words(0x06cc5e8a, 0x3bfa2c27, 0x7d632dd0, 0x5b0d97aa)
  {
    hide Steps, Block;
    v := Steps48To51(13);
    v := Advance(52, v, 12, 6, 0x655b59c3, 0x06cc5e8a);
    v := Advance(53, v, 3, 10, 0x8f0ccc92, 0x5b0d97aa);
    v := Advance(54, v, 10, 15, 0xffeff47d, 0x7d632dd0);
    v := Advance(55, v, 1, 21, 0x85845dd1, 0x3bfa2c27);
  }

  lemma Steps56To59(q: nat) returns (v: Words)
    requires q == 15
    ensures v == Steps(Block(), START, 4 * q)
    ensures v == Words(0x7f81cc35, 0x7327d604, 0x4f9dbe3f, 0x094454ab)
  {
    hide Steps, Block;
    v := Steps52To55(14);
    v := Advance(56, v, 8, 6, 0x6fa87e4f, 0x7f81cc35);
    v := Advance(57, v, 15, 10, 0xfe2ce6e0, 0x094454ab);
    v := Advance(58, v, 6, 15, 0xa3014314, 0x4f9dbe3f);
    v := Advance(59, v, 13, 21, 0x4e0811a1, 0x7327d604);
  }

  lemma Steps60To63(q: nat) returns (v: Words)
    requires q == 16
    ensures v == Steps(Block(), START, 4 * q)
    ensures v == Words(0x310ade8f, 0xc08226b3, 0xe484b9d8, 0x624d8cb2)
  {
    hide Steps, Block;
    v := Steps56To59(15);
    v := Advance(60, v, 4, 6, 0xf7537e82, 0x310ade8f);
    v := Advance(61, v, 11, 10, 0xbd3af235, 0x624d8cb2);
    v := Advance(62, v, 2, 15, 0x2ad7d2bb, 0xe484b9d8);
    v := Advance(63, v, 9, 21, 0xeb86d391, 0xc08226b3);
  }

  lemma Begin() returns (v: Words)
    ensures v == START == Steps(Block(), START, 0)
  {
    v := START;
  }

  // ----- The digest

  lemma LengthOfAbc()
    ensures LengthField(3) == [24] + Zeros(7)
  {
    hide ByteOf, LittleEndian;
    ByteOfInverse(24);
    LittleEndianSmall(24, 8);
  }

  lemma PaddedAbc()
    ensures Algorithm().Valid() && Streaming.Padded(Algorithm(), [0x61, 0x62, 0x63]) == Block()
  {
    hide Compress, Output, LengthField;
    LengthOfAbc();
    assert Streaming.ZerosAfter(Algorithm(), 3) == 52;
  }

  const ANSWER: seq<byte> :=
    [0x90, 0x01, 0x50, 0x98] + [0x3c, 0xd2, 0x4f, 0xb0] + [0xd6, 0x96, 0x3f, 0x7d] + [0x28, 0xe1, 0x7f, 0x72]

  lemma Added(v: Words)
    requires v == Words(0x310ade8f, 0xc08226b3, 0xe484b9d8, 0x624d8cb2)
    ensures Sum(START, v) == Words(0x98500190, 0xb04fd23c, 0x7d3f96d6, 0x727fe128)
  {
  }

  lemma Stored()
    ensures StoreLittle(0x98500190) == [0x90, 0x01, 0x50, 0x98]
    ensures StoreLittle(0xb04fd23c) == [0x3c, 0xd2, 0x4f, 0xb0]
    ensures StoreLittle(0x7d3f96d6) == [0xd6, 0x96, 0x3f, 0x7d]
    ensures StoreLittle(0x727fe128) == [0x28, 0xe1, 0x7f, 0x72]
  {
  }

  lemma Written(v: Words)
    requires v == Words(0x98500190, 0xb04fd23c, 0x7d3f96d6, 0x727fe128)
    ensures Output(v) == ANSWER
  {
    hide StoreLittle;
    Stored();
  }

  /** The answer that section A.5 of RFC 1321 gives. */
  lemma Abc()
    ensures Algorithm().Valid() && Streaming.Digest(Algorithm(), [0x61, 0x62, 0x63]) == ANSWER
  {
    hide Steps, Output, Sum, Block;
    PaddedAbc();
    Streaming.FoldOne(Algorithm(), START, Block());
    var v := Steps60To63(16);
    Added(v);
    Written(Sum(START, v));
  }
}
