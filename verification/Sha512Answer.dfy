/** The SHA-512 digest of the three bytes "abc", round by round. */
module Sha512Answer {
  import opened Bytes
  import opened Sha512
  import opened DigestBits64
  import Streaming

  /** The message, the one bit and the length in bits fill one block. */
  function Block(): (block: seq<byte>)
    ensures |block| == 128
  {
    [0x61, 0x62, 0x63, 0x80] + Zeros(123) + [24]
  }

  /** The rotations and shifts in one step of the schedule, and in one round. */
  lemma SmallTurns(x: bv64, y: bv64)
    ensures Rotr(x, 1) == (x >> 1) | (x << 63)
    ensures Rotr(x, 8) == (x >> 8) | (x << 56)
    ensures Rotr(y, 19) == (y >> 19) | (y << 45)
    ensures Rotr(y, 61) == (y >> 61) | (y << 3)
  {
    hide *;
    Turned1(x);
    Turned8(x);
    Turned19(y);
    Turned61(y);
  }

  lemma BigTurns(x: bv64, y: bv64)
    ensures Rotr(x, 28) == (x >> 28) | (x << 36)
    ensures Rotr(x, 34) == (x >> 34) | (x << 30)
    ensures Rotr(x, 39) == (x >> 39) | (x << 25)
    ensures Rotr(y, 14) == (y >> 14) | (y << 50)
    ensures Rotr(y, 18) == (y >> 18) | (y << 46)
    ensures Rotr(y, 41) == (y >> 41) | (y << 23)
  {
    hide *;
    Turned28(x);
    Turned34(x);
    Turned39(x);
    Turned14(y);
    Turned18(y);
    Turned41(y);
  }

  lemma NextWordIs(t: nat, w2: bv64, w7: bv64, w15: bv64, w16: bv64)
    requires 16 <= t < 80
    requires w2 == W(Block(), t - 2) && w7 == W(Block(), t - 7) && w15 == W(Block(), t - 15) && w16 == W(Block(), t - 16)
    ensures W(Block(), t) == NextWord(w2, w7, w15, w16)
    ensures Rotr(w15, 1) == (w15 >> 1) | (w15 << 63)
    ensures Rotr(w15, 8) == (w15 >> 8) | (w15 << 56)
    ensures Rotr(w2, 19) == (w2 >> 19) | (w2 << 45)
    ensures Rotr(w2, 61) == (w2 >> 61) | (w2 << 3)
  {
    hide LoadBig, NextWord, Block, Rotr;
    SmallTurns(w15, w2);
  }

  /** One round, from the variables before it and the new values of `a` and `e`. */
  lemma Advance(t: nat, v: Words, k: bv64, w: bv64, a: bv64, e: bv64) returns (next: Words)
    requires t < 80 && Rounds(Block(), START, t) == v && K(t) == k && W(Block(), t) == w
    requires a == Add(T1(v, k, w), T2(v)) && e == Add(v.d, T1(v, k, w))
    ensures next == Words(a, v.a, v.b, v.c, e, v.e, v.f, v.g) && Rounds(Block(), START, t + 1) == next
  {
    hide Block, W, K, T1, T2, Add;
    next := Words(a, v.a, v.b, v.c, e, v.e, v.f, v.g);
  }

  // ----- The message schedule

  /** The words of the schedule from word `t` on. */
  predicate Scheduled(t: nat, w: seq<bv64>) {
    t + |w| <= 80 && forall j :: t <= j < t + |w| ==> W(Block(), j) == w[j - t]
  }

  lemma BlockBytes()
    ensures Block()[0] == 0x61 && Block()[1] == 0x62 && Block()[2] == 0x63 && Block()[3] == 0x80 && Block()[127] == 24
    ensures forall i :: 4 <= i < 127 ==> Block()[i] == 0
  {
  }

  lemma Words0To3()
    ensures Scheduled(0, [0x6162638000000000, 0x0000000000000000, 0x0000000000000000, 0x0000000000000000])
  {
    hide Block;
    BlockBytes();
  }

  lemma Words4To7()
    ensures Scheduled(4, [0x0000000000000000, 0x0000000000000000, 0x0000000000000000, 0x0000000000000000])
  {
    hide Block;
    BlockBytes();
  }

  lemma Words8To11()
    ensures Scheduled(8, [0x0000000000000000, 0x0000000000000000, 0x0000000000000000, 0x0000000000000000])
  {
    hide Block;
    BlockBytes();
  }

  lemma Words12To15()
    ensures Scheduled(12, [0x0000000000000000, 0x0000000000000000, 0x0000000000000000, 0x0000000000000018])
  {
    hide Block;
    BlockBytes();
  }

  lemma Words16To19()
    ensures Scheduled(16, [0x6162638000000000, 0x00030000000000c0, 0x0a9699a24c700003, 0x00000c0060000603])
  {
    hide W, Block, Rotr;
    Words0To3();
    Words4To7();
    Words8To11();
    Words12To15();
    NextWordIs(16, 0x0000000000000000, 0x0000000000000000, 0x0000000000000000, 0x6162638000000000);
    NextWordIs(17, 0x0000000000000018, 0x0000000000000000, 0x0000000000000000, 0x0000000000000000);
    NextWordIs(18, 0x6162638000000000, 0x0000000000000000, 0x0000000000000000, 0x0000000000000000);
    NextWordIs(19, 0x00030000000000c0, 0x0000000000000000, 0x0000000000000000, 0x0000000000000000);
  }

  lemma Words20To23()
    ensures Scheduled(20, [0x549ef62639858996, 0x00c0003300003c00, 0x1497007a8a0e9dbc, 0x62e56500cc0780f0])
  {
    hide W, Block, Rotr;
    Words4To7();
    Words8To11();
    Words12To15();
    Words16To19();
    NextWordIs(20, 0x0a9699a24c700003, 0x0000000000000000, 0x0000000000000000, 0x0000000000000000);
    NextWordIs(21, 0x00000c0060000603, 0x0000000000000000, 0x0000000000000000, 0x0000000000000000);
    NextWordIs(22, 0x549ef62639858996, 0x0000000000000018, 0x0000000000000000, 0x0000000000000000);
    NextWordIs(23, 0x00c0003300003c00, 0x6162638000000000, 0x0000000000000000, 0x0000000000000000);
  }

  lemma Words24To27()
    ensures Scheduled(24, [0x7760dd475a538797, 0xf1554b711c1c0003, 0xca2993a4345d9ff2, 0x5e0e66b5c783dd32])
  {
    hide W, Block, Rotr;
    Words8To11();
    Words12To15();
    Words16To19();
    Words20To23();
    NextWordIs(24, 0x1497007a8a0e9dbc, 0x00030000000000c0, 0x0000000000000000, 0x0000000000000000);
    NextWordIs(25, 0x62e56500cc0780f0, 0x0a9699a24c700003, 0x0000000000000000, 0x0000000000000000);
    NextWordIs(26, 0x7760dd475a538797, 0x00000c0060000603, 0x0000000000000000, 0x0000000000000000);
    NextWordIs(27, 0xf1554b711c1c0003, 0x549ef62639858996, 0x0000000000000000, 0x0000000000000000);
  }

  lemma Words28To31()
    ensures Scheduled(28, [0xe25a625d00494b62, 0x9f44486fb1e4fbd2, 0xb31b8c2b06085f2f, 0x0e987660934142f6])
  {
    hide W, Block, Rotr;
    Words12To15();
    Words16To19();
    Words20To23();
    Words24To27();
    NextWordIs(28, 0xca2993a4345d9ff2, 0x00c0003300003c00, 0x0000000000000000, 0x0000000000000000);
    NextWordIs(29, 0x5e0e66b5c783dd32, 0x1497007a8a0e9dbc, 0x0000000000000000, 0x0000000000000000);
    NextWordIs(30, 0xe25a625d00494b62, 0x62e56500cc0780f0, 0x0000000000000018, 0x0000000000000000);
    NextWordIs(31, 0x9f44486fb1e4fbd2, 0x7760dd475a538797, 0x6162638000000000, 0x0000000000000018);
  }

  lemma Words32To35()
    ensures Scheduled(32, [0xa4af2cfd09fbb924, 0xad289e2e0bd53186, 0x3c74563aa2f9673e, 0x6ccdcd14cc14b53f])
  {
    hide W, Block, Rotr;
    Words16To19();
    Words20To23();
    Words24To27();
    Words28To31();
    NextWordIs(32, 0xb31b8c2b06085f2f, 0xf1554b711c1c0003, 0x00030000000000c0, 0x6162638000000000);
    NextWordIs(33, 0x0e987660934142f6, 0xca2993a4345d9ff2, 0x0a9699a24c700003, 0x00030000000000c0);
    NextWordIs(34, 0xa4af2cfd09fbb924, 0x5e0e66b5c783dd32, 0x00000c0060000603, 0x0a9699a24c700003);
    NextWordIs(35, 0xad289e2e0bd53186, 0xe25a625d00494b62, 0x549ef62639858996, 0x00000c0060000603);
  }

  lemma Words36To39()
    ensures Scheduled(36, [0xc3f925b337f22bde, 0x5bcc77a75ad95b54, 0x3ec2257adca09a52, 0x28246960001fc5eb])
  {
    hide W, Block, Rotr;
    Words20To23();
    Words24To27();
    Words28To31();
    Words32To35();
    NextWordIs(36, 0x3c74563aa2f9673e, 0x9f44486fb1e4fbd2, 0x00c0003300003c00, 0x549ef62639858996);
    NextWordIs(37, 0x6ccdcd14cc14b53f, 0xb31b8c2b06085f2f, 0x1497007a8a0e9dbc, 0x00c0003300003c00);
    NextWordIs(38, 0xc3f925b337f22bde, 0x0e987660934142f6, 0x62e56500cc0780f0, 0x1497007a8a0e9dbc);
    NextWordIs(39, 0x5bcc77a75ad95b54, 0xa4af2cfd09fbb924, 0x7760dd475a538797, 0x62e56500cc0780f0);
  }

  lemma Words40To43()
    ensures Scheduled(40, [0x04e33a75ce2be88a, 0x7d5314b3c359e0e7, 0xaef7a285ff251266, 0x0b8472581deea04f])
  {
    hide W, Block, Rotr;
    Words24To27();
    Words28To31();
    Words32To35();
    Words36To39();
    NextWordIs(40, 0x3ec2257adca09a52, 0xad289e2e0bd53186, 0xf1554b711c1c0003, 0x7760dd475a538797);
    NextWordIs(41, 0x28246960001fc5eb, 0x3c74563aa2f9673e, 0xca2993a4345d9ff2, 0xf1554b711c1c0003);
    NextWordIs(42, 0x04e33a75ce2be88a, 0x6ccdcd14cc14b53f, 0x5e0e66b5c783dd32, 0xca2993a4345d9ff2);
    NextWordIs(43, 0x7d5314b3c359e0e7, 0xc3f925b337f22bde, 0xe25a625d00494b62, 0x5e0e66b5c783dd32);
  }

  lemma Words44To47()
    ensures Scheduled(44, [0xb174e26eddc7b033, 0x5d63bae58ddd88de, 0x4c044007b744ccbb, 0xe6a9aa4d74dc7d43])
  {
    hide W, Block, Rotr;
    Words28To31();
    Words32To35();
    Words36To39();
    Words40To43();
    NextWordIs(44, 0xaef7a285ff251266, 0x5bcc77a75ad95b54, 0x9f44486fb1e4fbd2, 0xe25a625d00494b62);
    NextWordIs(45, 0x0b8472581deea04f, 0x3ec2257adca09a52, 0xb31b8c2b06085f2f, 0x9f44486fb1e4fbd2);
    NextWordIs(46, 0xb174e26eddc7b033, 0x28246960001fc5eb, 0x0e987660934142f6, 0xb31b8c2b06085f2f);
    NextWordIs(47, 0x5d63bae58ddd88de, 0x04e33a75ce2be88a, 0xa4af2cfd09fbb924, 0x0e987660934142f6);
  }

  lemma Words48To51()
    ensures Scheduled(48, [0xebeaf1237248019c, 0x361e80b2d00f3193, 0x2e9839125df3b175, 0x3319629293ad5363])
  {
    hide W, Block, Rotr;
    Words32To35();
    Words36To39();
    Words40To43();
    Words44To47();
    NextWordIs(48, 0x4c044007b744ccbb, 0x7d5314b3c359e0e7, 0xad289e2e0bd53186, 0xa4af2cfd09fbb924);
    NextWordIs(49, 0xe6a9aa4d74dc7d43, 0xaef7a285ff251266, 0x3c74563aa2f9673e, 0xad289e2e0bd53186);
    NextWordIs(50, 0xebeaf1237248019c, 0x0b8472581deea04f, 0x6ccdcd14cc14b53f, 0x3c74563aa2f9673e);
    NextWordIs(51, 0x361e80b2d00f3193, 0xb174e26eddc7b033, 0xc3f925b337f22bde, 0x6ccdcd14cc14b53f);
  }

  lemma Words52To55()
    ensures Scheduled(52, [0x9cbc5d89ac1b89d5, 0x275e23ffeeca50b7, 0x3b80d680bf69ef58, 0x0d0696933945a125])
  {
    hide W, Block, Rotr;
    Words36To39();
    Words40To43();
    Words44To47();
    Words48To51();
    NextWordIs(52, 0x2e9839125df3b175, 0x5d63bae58ddd88de, 0x5bcc77a75ad95b54, 0xc3f925b337f22bde);
    NextWordIs(53, 0x3319629293ad5363, 0x4c044007b744ccbb, 0x3ec2257adca09a52, 0x5bcc77a75ad95b54);
    NextWordIs(54, 0x9cbc5d89ac1b89d5, 0xe6a9aa4d74dc7d43, 0x28246960001fc5eb, 0x3ec2257adca09a52);
    NextWordIs(55, 0x275e23ffeeca50b7, 0xebeaf1237248019c, 0x04e33a75ce2be88a, 0x28246960001fc5eb);
  }

  lemma Words56To59()
    ensures Scheduled(56, [0x7533eabcb786ff00, 0xb89826cee6fbf0e5, 0x249b4fbcad623e9f, 0x4aea9df2b02d6f1e])
  {
    hide W, Block, Rotr;
    Words40To43();
    Words44To47();
    Words48To51();
    Words52To55();
    NextWordIs(56, 0x3b80d680bf69ef58, 0x361e80b2d00f3193, 0x7d5314b3c359e0e7, 0x04e33a75ce2be88a);
    NextWordIs(57, 0x0d0696933945a125, 0x2e9839125df3b175, 0xaef7a285ff251266, 0x7d5314b3c359e0e7);
    NextWordIs(58, 0x7533eabcb786ff00, 0x3319629293ad5363, 0x0b8472581deea04f, 0xaef7a285ff251266);
    NextWordIs(59, 0xb89826cee6fbf0e5, 0x9cbc5d89ac1b89d5, 0xb174e26eddc7b033, 0x0b8472581deea04f);
  }

  lemma Words60To63()
    ensures Scheduled(60, [0x2cc57475a55e8d8f, 0xb2574ae938d8be89, 0xc1b35a57b16d6aea, 0xcc4918b5949206bb])
  {
    hide W, Block, Rotr;
    Words44To47();
    Words48To51();
    Words52To55();
    Words56To59();
    NextWordIs(60, 0x249b4fbcad623e9f, 0x275e23ffeeca50b7, 0x5d63bae58ddd88de, 0xb174e26eddc7b033);
    NextWordIs(61, 0x4aea9df2b02d6f1e, 0x3b80d680bf69ef58, 0x4c044007b744ccbb, 0x5d63bae58ddd88de);
    NextWordIs(62, 0x2cc57475a55e8d8f, 0x0d0696933945a125, 0xe6a9aa4d74dc7d43, 0x4c044007b744ccbb);
    NextWordIs(63, 0xb2574ae938d8be89, 0x7533eabcb786ff00, 0xebeaf1237248019c, 0xe6a9aa4d74dc7d43);
  }

  lemma Words64To67()
    ensures Scheduled(64, [0x5099c3add79f90ec, 0x5ea81d78e7660bf1, 0xebee6267405ac2a9, 0xb01f21926108a4ab])
  {
    hide W, Block, Rotr;
    Words48To51();
    Words52To55();
    Words56To59();
    Words60To63();
    NextWordIs(64, 0xc1b35a57b16d6aea, 0xb89826cee6fbf0e5, 0x361e80b2d00f3193, 0xebeaf1237248019c);
    NextWordIs(65, 0xcc4918b5949206bb, 0x249b4fbcad623e9f, 0x2e9839125df3b175, 0x361e80b2d00f3193);
    NextWordIs(66, 0x5099c3add79f90ec, 0x4aea9df2b02d6f1e, 0x3319629293ad5363, 0x2e9839125df3b175);
    NextWordIs(67, 0x5ea81d78e7660bf1, 0x2cc57475a55e8d8f, 0x9cbc5d89ac1b89d5, 0x3319629293ad5363);
  }

  lemma Words68To71()
    ensures Scheduled(68, [0x786433dd2fe65556, 0xc54a6eaa24a0552c, 0xb3c8f1530bdbaa9e, 0xbb8abfe56f469338])
  {
    hide W, Block, Rotr;
    Words52To55();
    Words56To59();
    Words60To63();
    Words64To67();
    NextWordIs(68, 0xebee6267405ac2a9, 0xb2574ae938d8be89, 0x275e23ffeeca50b7, 0x9cbc5d89ac1b89d5);
    NextWordIs(69, 0xb01f21926108a4ab, 0xc1b35a57b16d6aea, 0x3b80d680bf69ef58, 0x275e23ffeeca50b7);
    NextWordIs(70, 0x786433dd2fe65556, 0xcc4918b5949206bb, 0x0d0696933945a125, 0x3b80d680bf69ef58);
    NextWordIs(71, 0xc54a6eaa24a0552c, 0x5099c3add79f90ec, 0x7533eabcb786ff00, 0x0d0696933945a125);
  }

  lemma Words72To75()
    ensures Scheduled(72, [0xf63d4265cc1c5a78, 0xbe8355ea73129afb, 0x49e2db8ebdcfbeb5, 0x82269d4a883a3d99])
  {
    hide W, Block, Rotr;
    Words56To59();
    Words60To63();
    Words64To67();
    Words68To71();
    NextWordIs(72, 0xb3c8f1530bdbaa9e, 0x5ea81d78e7660bf1, 0xb89826cee6fbf0e5, 0x7533eabcb786ff00);
    NextWordIs(73, 0xbb8abfe56f469338, 0xebee6267405ac2a9, 0x249b4fbcad623e9f, 0xb89826cee6fbf0e5);
    NextWordIs(74, 0xf63d4265cc1c5a78, 0xb01f21926108a4ab, 0x4aea9df2b02d6f1e, 0x249b4fbcad623e9f);
    NextWordIs(75, 0xbe8355ea73129afb, 0x786433dd2fe65556, 0x2cc57475a55e8d8f, 0x4aea9df2b02d6f1e);
  }

  lemma Words76To79()
    ensures Scheduled(76, [0xfdf53df3011f362b, 0x464af5671d71c12e, 0xe449b68198ec611c, 0x92aeeed1a7bcf7d2])
  {
    hide W, Block, Rotr;
    Words60To63();
    Words64To67();
    Words68To71();
    Words72To75();
    NextWordIs(76, 0x49e2db8ebdcfbeb5, 0xc54a6eaa24a0552c, 0xb2574ae938d8be89, 0x2cc57475a55e8d8f);
    NextWordIs(77, 0x82269d4a883a3d99, 0xb3c8f1530bdbaa9e, 0xc1b35a57b16d6aea, 0xb2574ae938d8be89);
    NextWordIs(78, 0xfdf53df3011f362b, 0xbb8abfe56f469338, 0xcc4918b5949206bb, 0xc1b35a57b16d6aea);
    NextWordIs(79, 0x464af5671d71c12e, 0xf63d4265cc1c5a78, 0x5099c3add79f90ec, 0xcc4918b5949206bb);
  }

  // ----- The rounds: the variables after `q` groups of four (of two, once, near the end)

  lemma Rounds0To3(q: nat) returns (v: Words)
    requires q == 1
    ensures v == Rounds(Block(), START, 4 * q)
    ensures v == Words(0x5a83cb3e80050e82, 0xebcffc07203d91f3, 0x1320f8c9fb872cc0, 0xf6afceb8bcfcddf5,
            0x0b47b4bb1928990e, 0xdfa9b239f2697812, 0xc3d4ebfd48650ffa, 0x58cb02347ab51f91)
  {
    hide W, Rounds, Block, Rotr;
    Words0To3();
    v := Begin();
    BigTurns(v.a, v.e);
    v := Advance(0, v, 0x428a2f98d728ae22, 0x6162638000000000, 0xf6afceb8bcfcddf5, 0x58cb02347ab51f91);
    BigTurns(v.a, v.e);
    v := Advance(1, v, 0x7137449123ef65cd, 0x0000000000000000, 0x1320f8c9fb872cc0, 0xc3d4ebfd48650ffa);
    BigTurns(v.a, v.e);
    v := Advance(2, v, 0xb5c0fbcfec4d3b2f, 0x0000000000000000, 0xebcffc07203d91f3, 0xdfa9b239f2697812);
    BigTurns(v.a, v.e);
    v := Advance(3, v, 0xe9b5dba58189dbbc, 0x0000000000000000, 0x5a83cb3e80050e82, 0x0b47b4bb1928990e);
  }

  lemma Rounds4To7(q: nat) returns (v: Words)
    requires q == 2
    ensures v == Rounds(Block(), START, 4 * q)
    ensures v == Words(0x8093d195e0054fa3, 0xc4875b0c7abc076b, 0xaf573b02403e89cd, 0xb680953951604860,
            0x86f67263a0f0ec0a, 0x5a6c781f54dcc00c, 0x96f60209b6dc35ba, 0x745aca4a342ed2e2)
  {
    hide W, Rounds, Block, Rotr;
    Words4To7();
    v := Rounds0To3(1);
    BigTurns(v.a, v.e);
    v := Advance(4, v, 0x3956c25bf348b538, 0x0000000000000000, 0xb680953951604860, 0x745aca4a342ed2e2);
    BigTurns(v.a, v.e);
    v := Advance(5, v, 0x59f111f1b605d019, 0x0000000000000000, 0xaf573b02403e89cd, 0x96f60209b6dc35ba);
    BigTurns(v.a, v.e);
    v := Advance(6, v, 0x923f82a4af194f9b, 0x0000000000000000, 0xc4875b0c7abc076b, 0x5a6c781f54dcc00c);
    BigTurns(v.a, v.e);
    v := Advance(7, v, 0xab1c5ed5da6d8118, 0x0000000000000000, 0x8093d195e0054fa3, 0x86f67263a0f0ec0a);
  }

  lemma Rounds8To11(q: nat) returns (v: Words)
    requires q == 3
    ensures v == Rounds(Block(), START, 4 * q)
    ensures v == Words(0xdb0a9963f80c2eaa, 0x69854c4aa0f25b59, 0x81782d4a5db48f03, 0xf1eca5544cb89225,
            0x475975b91a7a462c, 0xd375471bde1ba3f4, 0x00091f460be46c52, 0xd0403c398fc40002)
  {
    hide W, Rounds, Block, Rotr;
    Words8To11();
    v := Rounds4To7(2);
    BigTurns(v.a, v.e);
    v := Advance(8, v, 0xd807aa98a3030242, 0x0000000000000000, 0xf1eca5544cb89225, 0xd0403c398fc40002);
    BigTurns(v.a, v.e);
    v := Advance(9, v, 0x12835b0145706fbe, 0x0000000000000000, 0x81782d4a5db48f03, 0x00091f460be46c52);
    BigTurns(v.a, v.e);
    v := Advance(10, v, 0x243185be4ee4b28c, 0x0000000000000000, 0x69854c4aa0f25b59, 0xd375471bde1ba3f4);
    BigTurns(v.a, v.e);
    v := Advance(11, v, 0x550c7dc3d5ffb4e2, 0x0000000000000000, 0xdb0a9963f80c2eaa, 0x475975b91a7a462c);
  }

  lemma Rounds12To15(q: nat) returns (v: Words)
    requires q == 4
    ensures v == Rounds(Block(), START, 4 * q)
    ensures v == Words(0x0ae07c86b1181c75, 0xfa967eed85a08028, 0x44249631255d2ca0, 0x5e41214388186c14,
            0xa77b7c035dd4c161, 0x874bfe5f6aae9f2f, 0x860acf9effba6f61, 0xcdf3bff2883fc9d9)
  {
    hide W, Rounds, Block, Rotr;
    Words12To15();
    v := Rounds8To11(3);
    BigTurns(v.a, v.e);
    v := Advance(12, v, 0x72be5d74f27b896f, 0x0000000000000000, 0x5e41214388186c14, 0xcdf3bff2883fc9d9);
    BigTurns(v.a, v.e);
    v := Advance(13, v, 0x80deb1fe3b1696b1, 0x0000000000000000, 0x44249631255d2ca0, 0x860acf9effba6f61);
    BigTurns(v.a, v.e);
    v := Advance(14, v, 0x9bdc06a725c71235, 0x0000000000000000, 0xfa967eed85a08028, 0x874bfe5f6aae9f2f);
    BigTurns(v.a, v.e);
    v := Advance(15, v, 0xc19bf174cf692694, 0x0000000000000018, 0x0ae07c86b1181c75, 0xa77b7c035dd4c161);
  }

  lemma Rounds16To19(q: nat) returns (v: Words)
    requires q == 5
    ensures v == Rounds(Block(), START, 4 * q)
    ensures v == Words(0x9a3fb4d38ab6cf06, 0x3c4b4104168e3edb, 0x4725be249ad19e6b, 0xcaf81a425d800537,
            0xf14998dd5f70767e, 0x29695fd88d81dbd0, 0xf47e8353f8047455, 0x2deecc6b39d64d78)
  {
    hide W, Rounds, Block, Rotr;
    Words16To19();
    v := Rounds12To15(4);
    BigTurns(v.a, v.e);
    v := Advance(16, v, 0xe49b69c19ef14ad2, 0x6162638000000000, 0xcaf81a425d800537, 0x2deecc6b39d64d78);
    BigTurns(v.a, v.e);
    v := Advance(17, v, 0xefbe4786384f25e3, 0x00030000000000c0, 0x4725be249ad19e6b, 0xf47e8353f8047455);
    BigTurns(v.a, v.e);
    v := Advance(18, v, 0x0fc19dc68b8cd5b5, 0x0a9699a24c700003, 0x3c4b4104168e3edb, 0x29695fd88d81dbd0);
    BigTurns(v.a, v.e);
    v := Advance(19, v, 0x240ca1cc77ac9c65, 0x00000c0060000603, 0x9a3fb4d38ab6cf06, 0xf14998dd5f70767e);
  }

  lemma Rounds20To23(q: nat) returns (v: Words)
    requires q == 6
    ensures v == Rounds(Block(), START, 4 * q)
    ensures v == Words(0x4f6877b58fe55484, 0x3e2644567b709a78, 0xda34d6673d452dcf, 0x8dc5ae65569d3855,
            0xc66005f87db55233, 0x0ac2b11da8f571c6, 0x8e30ff09ad488753, 0x4bb9e66d1145bfdc)
  {
    hide W, Rounds, Block, Rotr;
    Words20To23();
    v := Rounds16To19(5);
    BigTurns(v.a, v.e);
    v := Advance(20, v, 0x2de92c6f592b0275, 0x549ef62639858996, 0x8dc5ae65569d3855, 0x4bb9e66d1145bfdc);
    BigTurns(v.a, v.e);
    v := Advance(21, v, 0x4a7484aa6ea6e483, 0x00c0003300003c00, 0xda34d6673d452dcf, 0x8e30ff09ad488753);
    BigTurns(v.a, v.e);
    v := Advance(22, v, 0x5cb0a9dcbd41fbd4, 0x1497007a8a0e9dbc, 0x3e2644567b709a78, 0x0ac2b11da8f571c6);
    BigTurns(v.a, v.e);
    v := Advance(23, v, 0x76f988da831153b5, 0x62e56500cc0780f0, 0x4f6877b58fe55484, 0xc66005f87db55233);
  }

  lemma Rounds24To27(q: nat) returns (v: Words)
    requires q == 7
    ensures v == Rounds(Block(), START, 4 * q)
    ensures v == Words(0xeab4a9e5771b8d09, 0x884c3bc27bc4f941, 0x0bc5f791f8e6816b, 0x9aff71163fa3a940,
            0x09068a4e255a0dac, 0xe6e48c9a8e948365, 0x6ddf1fd7edcce336, 0xd3ecf13769180e6f)
  {
    hide W, Rounds, Block, Rotr;
    Words24To27();
    v := Rounds20To23(6);
    BigTurns(v.a, v.e);
    v := Advance(24, v, 0x983e5152ee66dfab, 0x7760dd475a538797, 0x9aff71163fa3a940, 0xd3ecf13769180e6f);
    BigTurns(v.a, v.e);
    v := Advance(25, v, 0xa831c66d2db43210, 0xf1554b711c1c0003, 0x0bc5f791f8e6816b, 0x6ddf1fd7edcce336);
    BigTurns(v.a, v.e);
    v := Advance(26, v, 0xb00327c898fb213f, 0xca2993a4345d9ff2, 0x884c3bc27bc4f941, 0xe6e48c9a8e948365);
    BigTurns(v.a, v.e);
    v := Advance(27, v, 0xbf597fc7beef0ee4, 0x5e0e66b5c783dd32, 0xeab4a9e5771b8d09, 0x09068a4e255a0dac);
  }

  lemma Rounds28To31(q: nat) returns (v: Words)
    requires q == 8
    ensures v == Rounds(Block(), START, 4 * q)
    ensures v == Words(0xff4d3f1f0d46a736, 0x4c4fbbb75f1873a6, 0x74bf40f869094c63, 0xe62349090f47d30a,
            0x3cd388e119e8162e, 0x73e025d91b9efea3, 0xf0aec2fe1437f085, 0x0fcdf99710f21584)
  {
    hide W, Rounds, Block, Rotr;
    Words28To31();
    v := Rounds24To27(7);
    BigTurns(v.a, v.e);
    v := Advance(28, v, 0xc6e00bf33da88fc2, 0xe25a625d00494b62, 0xe62349090f47d30a, 0x0fcdf99710f21584);
    BigTurns(v.a, v.e);
    v := Advance(29, v, 0xd5a79147930aa725, 0x9f44486fb1e4fbd2, 0x74bf40f869094c63, 0xf0aec2fe1437f085);
    BigTurns(v.a, v.e);
    v := Advance(30, v, 0x06ca6351e003826f, 0xb31b8c2b06085f2f, 0x4c4fbbb75f1873a6, 0x73e025d91b9efea3);
    BigTurns(v.a, v.e);
    v := Advance(31, v, 0x142929670a0e6e70, 0x0e987660934142f6, 0xff4d3f1f0d46a736, 0x3cd388e119e8162e);
  }

  lemma Rounds32To35(q: nat) returns (v: Words)
    requires q == 9
    ensures v == Rounds(Block(), START, 4 * q)
    ensures v == Words(0x1a081afc59fdbc2c, 0x2c59ec7743632621, 0x60d4e6995ed91fe6, 0xa0509015ca08c8d4,
            0xf098082f502b44cd, 0x0fbae670fa780fd3, 0xefabbd8bf47c041a, 0xe1034573654a106f)
  {
    hide W, Rounds, Block, Rotr;
    Words32To35();
    v := Rounds28To31(8);
    BigTurns(v.a, v.e);
    v := Advance(32, v, 0x27b70a8546d22ffc, 0xa4af2cfd09fbb924, 0xa0509015ca08c8d4, 0xe1034573654a106f);
    BigTurns(v.a, v.e);
    v := Advance(33, v, 0x2e1b21385c26c926, 0xad289e2e0bd53186, 0x60d4e6995ed91fe6, 0xefabbd8bf47c041a);
    BigTurns(v.a, v.e);
    v := Advance(34, v, 0x4d2c6dfc5ac42aed, 0x3c74563aa2f9673e, 0x2c59ec7743632621, 0x0fbae670fa780fd3);
    BigTurns(v.a, v.e);
    v := Advance(35, v, 0x53380d139d95b3df, 0x6ccdcd14cc14b53f, 0x1a081afc59fdbc2c, 0xf098082f502b44cd);
  }

  lemma Rounds36To39(q: nat) returns (v: Words)
    requires q == 10
    ensures v == Rounds(Block(), START, 4 * q)
    ensures v == Words(0x8e01e125b855d225, 0xb3bb8542b3376de5, 0x002bb8e4cd989567, 0x88df85b0bbe77514,
            0x0c710a47ba6a567b, 0xb49596c20feba7de, 0x66adcfa249ac7bbd, 0x8fbfd0162bbf4675)
  {
    hide W, Rounds, Block, Rotr;
    Words36To39();
    v := Rounds32To35(9);
    BigTurns(v.a, v.e);
    v := Advance(36, v, 0x650a73548baf63de, 0xc3f925b337f22bde, 0x88df85b0bbe77514, 0x8fbfd0162bbf4675);
    BigTurns(v.a, v.e);
    v := Advance(37, v, 0x766a0abb3c77b2a8, 0x5bcc77a75ad95b54, 0x002bb8e4cd989567, 0x66adcfa249ac7bbd);
    BigTurns(v.a, v.e);
    v := Advance(38, v, 0x81c2c92e47edaee6, 0x3ec2257adca09a52, 0xb3bb8542b3376de5, 0xb49596c20feba7de);
    BigTurns(v.a, v.e);
    v := Advance(39, v, 0x92722c851482353b, 0x28246960001fc5eb, 0x8e01e125b855d225, 0x0c710a47ba6a567b);
  }

  lemma Rounds40To43(q: nat) returns (v: Words)
    requires q == 11
    ensures v == Rounds(Block(), START, 4 * q)
    ensures v == Words(0x35d7e7f41defcbd5, 0xbc05ba8de5d3c480, 0xe96f89dd48cbd851, 0xb01521dd6a6be12c,
            0xcc5100997f5710f2, 0x639cb938e14dc190, 0xf0996439e7b50cb1, 0x169008b3a4bb170b)
  {
    hide W, Rounds, Block, Rotr;
    Words40To43();
    v := Rounds36To39(10);
    BigTurns(v.a, v.e);
    v := Advance(40, v, 0xa2bfe8a14cf10364, 0x04e33a75ce2be88a, 0xb01521dd6a6be12c, 0x169008b3a4bb170b);
    BigTurns(v.a, v.e);
    v := Advance(41, v, 0xa81a664bbc423001, 0x7d5314b3c359e0e7, 0xe96f89dd48cbd851, 0xf0996439e7b50cb1);
    BigTurns(v.a, v.e);
    v := Advance(42, v, 0xc24b8b70d0f89791, 0xaef7a285ff251266, 0xbc05ba8de5d3c480, 0x639cb938e14dc190);
    BigTurns(v.a, v.e);
    v := Advance(43, v, 0xc76c51a30654be30, 0x0b8472581deea04f, 0x35d7e7f41defcbd5, 0xcc5100997f5710f2);
  }

  lemma Rounds44To47(q: nat) returns (v: Words)
    requires q == 12
    ensures v == Rounds(Block(), START, 4 * q)
    ensures v == Words(0x6b69fc1bb482feac, 0xf61e672694de2d67, 0x021fbadbabab5ac6, 0xc47c9d5c7ea8a234,
            0x35264334c03ac8ad, 0xc6bc35740d8daa9a, 0xe95c2a57572d64d9, 0x858d832ae0e8911c)
  {
    hide W, Rounds, Block, Rotr;
    Words44To47();
    v := Rounds40To43(11);
    BigTurns(v.a, v.e);
    v := Advance(44, v, 0xd192e819d6ef5218, 0xb174e26eddc7b033, 0xc47c9d5c7ea8a234, 0x858d832ae0e8911c);
    BigTurns(v.a, v.e);
    v := Advance(45, v, 0xd69906245565a910, 0x5d63bae58ddd88de, 0x021fbadbabab5ac6, 0xe95c2a57572d64d9);
    BigTurns(v.a, v.e);
    v := Advance(46, v, 0xf40e35855771202a, 0x4c044007b744ccbb, 0xf61e672694de2d67, 0xc6bc35740d8daa9a);
    BigTurns(v.a, v.e);
    v := Advance(47, v, 0x106aa07032bbd1b8, 0xe6a9aa4d74dc7d43, 0x6b69fc1bb482feac, 0x35264334c03ac8ad);
  }

  lemma Rounds48To51(q: nat) returns (v: Words)
    requires q == 13
    ensures v == Rounds(Block(), START, 4 * q)
    ensures v == Words(0xd43f83727325dd77, 0x813a43dd2c502043, 0xca9bd862c5050918, 0x571f323d96b3a047,
            0x483f80a82eaee23e, 0x07a0d8ef821c5e1a, 0xdfe091dab182e645, 0x271580ed6c3e5650)
  {
    hide W, Rounds, Block, Rotr;
    Words48To51();
    v := Rounds44To47(12);
    BigTurns(v.a, v.e);
    v := Advance(48, v, 0x19a4c116b8d2d0c8, 0xebeaf1237248019c, 0x571f323d96b3a047, 0x271580ed6c3e5650);
    BigTurns(v.a, v.e);
    v := Advance(49, v, 0x1e376c085141ab53, 0x361e80b2d00f3193, 0xca9bd862c5050918, 0xdfe091dab182e645);
    BigTurns(v.a, v.e);
    v := Advance(50, v, 0x2748774cdf8eeb99, 0x2e9839125df3b175, 0x813a43dd2c502043, 0x07a0d8ef821c5e1a);
    BigTurns(v.a, v.e);
    v := Advance(51, v, 0x34b0bcb5e19b48a8, 0x3319629293ad5363, 0xd43f83727325dd77, 0x483f80a82eaee23e);
  }

  lemma Rounds52To55(q: nat) returns (v: Words)
    requires q == 14
    ensures v == Rounds(Block(), START, 4 * q)
    ensures v == Words(0x63b460e42748817e, 0xf650857b5babda4d, 0xd63f68037ddf06aa, 0x03df11b32d42e203,
            0xc6b4dd2a9931c509, 0x9ccfb31a86df0f86, 0xa6781efe1aa1ce02, 0x504f94e40591cffa)
  {
    hide W, Rounds, Block, Rotr;
    Words52To55();
    v := Rounds48To51(13);
    BigTurns(v.a, v.e);
    v := Advance(52, v, 0x391c0cb3c5c95a63, 0x9cbc5d89ac1b89d5, 0x03df11b32d42e203, 0x504f94e40591cffa);
    BigTurns(v.a, v.e);
    v := Advance(53, v, 0x4ed8aa4ae3418acb, 0x275e23ffeeca50b7, 0xd63f68037ddf06aa, 0xa6781efe1aa1ce02);
    BigTurns(v.a, v.e);
    v := Advance(54, v, 0x5b9cca4f7763e373, 0x3b80d680bf69ef58, 0xf650857b5babda4d, 0x9ccfb31a86df0f86);
    BigTurns(v.a, v.e);
    v := Advance(55, v, 0x682e6ff3d6b2b8a3, 0x0d0696933945a125, 0x63b460e42748817e, 0xc6b4dd2a9931c509);
  }

  lemma Rounds56To59(q: nat) returns (v: Words)
    requires q == 15
    ensures v == Rounds(Block(), START, 4 * q)
    ensures v == Words(0x2c074484ef1eac8c, 0x581ecb3355dcd9b8, 0x4b81c3aec976ea4b, 0x7a52912943d52b05,
            0x4797cde4ed370692, 0x6a3c9b0f71c8bf36, 0x70505988124351ac, 0xd2e89bbd91e00be0)
  {
    hide W, Rounds, Block, Rotr;
    Words56To59();
    v := Rounds52To55(14);
    BigTurns(v.a, v.e);
    v := Advance(56, v, 0x748f82ee5defb2fc, 0x7533eabcb786ff00, 0x7a52912943d52b05, 0xd2e89bbd91e00be0);
    BigTurns(v.a, v.e);
    v := Advance(57, v, 0x78a5636f43172f60, 0xb89826cee6fbf0e5, 0x4b81c3aec976ea4b, 0x70505988124351ac);
    BigTurns(v.a, v.e);
    v := Advance(58, v, 0x84c87814a1f0ab72, 0x249b4fbcad623e9f, 0x581ecb3355dcd9b8, 0x6a3c9b0f71c8bf36);
    BigTurns(v.a, v.e);
    v := Advance(59, v, 0x8cc702081a6439ec, 0x4aea9df2b02d6f1e, 0x2c074484ef1eac8c, 0x4797cde4ed370692);
  }

  lemma Rounds60To63(q: nat) returns (v: Words)
    requires q == 16
    ensures v == Rounds(Block(), START, 4 * q)
    ensures v == Words(0xab44e86276478d85, 0xa81dedbb9f19e643, 0xcfcd928c5424e2b6, 0x3857dfd2fc37d3ba,
            0xcd881ee59ca6bc53, 0x84058865d60a05fa, 0x09aee5bda1644de5, 0xa6af4e9c9f807e51)
  {
    hide W, Rounds, Block, Rotr;
    Words60To63();
    v := Rounds56To59(15);
    BigTurns(v.a, v.e);
    v := Advance(60, v, 0x90befffa23631e28, 0x2cc57475a55e8d8f, 0x3857dfd2fc37d3ba, 0xa6af4e9c9f807e51);
    BigTurns(v.a, v.e);
    v := Advance(61, v, 0xa4506cebde82bde9, 0xb2574ae938d8be89, 0xcfcd928c5424e2b6, 0x09aee5bda1644de5);
    BigTurns(v.a, v.e);
    v := Advance(62, v, 0xbef9a3f7b2c67915, 0xc1b35a57b16d6aea, 0xa81dedbb9f19e643, 0x84058865d60a05fa);
    BigTurns(v.a, v.e);
    v := Advance(63, v, 0xc67178f2e372532b, 0xcc4918b5949206bb, 0xab44e86276478d85, 0xcd881ee59ca6bc53);
  }

  lemma Rounds64To67(q: nat) returns (v: Words)
    requires q == 17
    ensures v == Rounds(Block(), START, 4 * q)
    ensures v == Words(0x54ba35cf56a0340e, 0x46c4210ab2cc155d, 0xeeb9c21bb0102598, 0x5a806d7e9821a501,
            0x1c66f46d95690bcf, 0x29fab5a7bff53366, 0x3b5fed0d6a1f96e1, 0xaa84b086688a5c45)
  {
    hide W, Rounds, Block, Rotr;
    Words64To67();
    v := Rounds60To63(16);
    BigTurns(v.a, v.e);
    v := Advance(64, v, 0xca273eceea26619c, 0x5099c3add79f90ec, 0x5a806d7e9821a501, 0xaa84b086688a5c45);
    BigTurns(v.a, v.e);
    v := Advance(65, v, 0xd186b8c721c0c207, 0x5ea81d78e7660bf1, 0xeeb9c21bb0102598, 0x3b5fed0d6a1f96e1);
    BigTurns(v.a, v.e);
    v := Advance(66, v, 0xeada7dd6cde0eb1e, 0xebee6267405ac2a9, 0x46c4210ab2cc155d, 0x29fab5a7bff53366);
    BigTurns(v.a, v.e);
    v := Advance(67, v, 0xf57d4f7fee6ed178, 0xb01f21926108a4ab, 0x54ba35cf56a0340e, 0x1c66f46d95690bcf);
  }

  lemma Rounds68To71(q: nat) returns (v: Words)
    requires q == 18
    ensures v == Rounds(Block(), START, 4 * q)
    ensures v == Words(0xf15e9664b2803575, 0x7652c579cb60f19c, 0xfb6aaae5d0b6a447, 0x181839d609c79748,
            0x947c3dfafee570ef, 0xaff62c9665ff80fa, 0xe3711cb6564d112d, 0x0ada78ba2d446140)
  {
    hide W, Rounds, Block, Rotr;
    Words68To71();
    v := Rounds64To67(17);
    BigTurns(v.a, v.e);
    v := Advance(68, v, 0x06f067aa72176fba, 0x786433dd2fe65556, 0x181839d609c79748, 0x0ada78ba2d446140);
    BigTurns(v.a, v.e);
    v := Advance(69, v, 0x0a637dc5a2c898a6, 0xc54a6eaa24a0552c, 0xfb6aaae5d0b6a447, 0xe3711cb6564d112d);
    BigTurns(v.a, v.e);
    v := Advance(70, v, 0x113f9804bef90dae, 0xb3c8f1530bdbaa9e, 0x7652c579cb60f19c, 0xaff62c9665ff80fa);
    BigTurns(v.a, v.e);
    v := Advance(71, v, 0x1b710b35131c471b, 0xbb8abfe56f469338, 0xf15e9664b2803575, 0x947c3dfafee570ef);
  }

  lemma Rounds72To75(q: nat) returns (v: Words)
    requires q == 19
    ensures v == Rounds(Block(), START, 4 * q)
    ensures v == Words(0xc8960e6be864b916, 0x33d48dabb5521de2, 0x20878dcd29cdfaf5, 0x358406d165aee9ab,
            0x995019a6ff3ba3de, 0x2ba18245b50de4cf, 0x054d3536539948d0, 0x8c7b5fd91a794ca0)
  {
    hide W, Rounds, Block, Rotr;
    Words72To75();
    v := Rounds68To71(18);
    BigTurns(v.a, v.e);
    v := Advance(72, v, 0x28db77f523047d84, 0xf63d4265cc1c5a78, 0x358406d165aee9ab, 0x8c7b5fd91a794ca0);
    BigTurns(v.a, v.e);
    v := Advance(73, v, 0x32caab7b40c72493, 0xbe8355ea73129afb, 0x20878dcd29cdfaf5, 0x054d3536539948d0);
    BigTurns(v.a, v.e);
    v := Advance(74, v, 0x3c9ebe0a15c9bebc, 0x49e2db8ebdcfbeb5, 0x33d48dabb5521de2, 0x2ba18245b50de4cf);
    BigTurns(v.a, v.e);
    v := Advance(75, v, 0x431d67c49c100d4c, 0x82269d4a883a3d99, 0xc8960e6be864b916, 0x995019a6ff3ba3de);
  }

  lemma Rounds76To77(q: nat) returns (v: Words)
    requires q == 39
    ensures v == Rounds(Block(), START, 2 * q)
    ensures v == Words(0xd67806db8b148677, 0x654ef9abec389ca9, 0xc8960e6be864b916, 0x33d48dabb5521de2,
            0x25c96a7768fb2aa3, 0xceb9fc3691ce8326, 0x995019a6ff3ba3de, 0x2ba18245b50de4cf)
  {
    hide W, Rounds, Block, Rotr;
    Words76To79();
    v := Rounds72To75(19);
    BigTurns(v.a, v.e);
    v := Advance(76, v, 0x4cc5d4becb3e42b6, 0xfdf53df3011f362b, 0x654ef9abec389ca9, 0xceb9fc3691ce8326);
    BigTurns(v.a, v.e);
    v := Advance(77, v, 0x597f299cfc657e2a, 0x464af5671d71c12e, 0xd67806db8b148677, 0x25c96a7768fb2aa3);
  }

  lemma Rounds78To79(q: nat) returns (v: Words)
    requires q == 20
    ensures v == Rounds(Block(), START, 4 * q)
    ensures v == Words(0x73a54f399fa4b1b2, 0x10d9c4c4295599f6, 0xd67806db8b148677, 0x654ef9abec389ca9,
            0xd08446aa79693ed7, 0x9bb4d39778c07f9e, 0x25c96a7768fb2aa3, 0xceb9fc3691ce8326)
  {
    hide W, Rounds, Block, Rotr;
    Words76To79();
    v := Rounds76To77(39);
    BigTurns(v.a, v.e);
    v := Advance(78, v, 0x5fcb6fab3ad6faec, 0xe449b68198ec611c, 0x10d9c4c4295599f6, 0x9bb4d39778c07f9e);
    BigTurns(v.a, v.e);
    v := Advance(79, v, 0x6c44198c4a475817, 0x92aeeed1a7bcf7d2, 0x73a54f399fa4b1b2, 0xd08446aa79693ed7);
  }

  lemma Begin() returns (v: Words)
    ensures v == START == Rounds(Block(), START, 0)
  {
    v := START;
  }

  // ----- The digest

  lemma LengthOfAbc()
    ensures LengthField(3) == Zeros(15) + [24]
  {
    hide ByteOf, BigEndian;
    ByteOfInverse(24);
    BigEndianSmall(24, 8);
    BigEndianZero(8);
  }

  lemma PaddedAbc()
    ensures Algorithm().Valid() && Streaming.Padded(Algorithm(), [0x61, 0x62, 0x63]) == Block()
  {
    hide Compress, Output, LengthField;
    LengthOfAbc();
    assert Streaming.ZerosAfter(Algorithm(), 3) == 108;
  }

  const ANSWER: seq<byte> :=
    [0xdd, 0xaf, 0x35, 0xa1, 0x93, 0x61, 0x7a, 0xba] + [0xcc, 0x41, 0x73, 0x49, 0xae, 0x20, 0x41, 0x31]
    + [0x12, 0xe6, 0xfa, 0x4e, 0x89, 0xa9, 0x7e, 0xa2] + [0x0a, 0x9e, 0xee, 0xe6, 0x4b, 0x55, 0xd3, 0x9a]
    + [0x21, 0x92, 0x99, 0x2a, 0x27, 0x4f, 0xc1, 0xa8] + [0x36, 0xba, 0x3c, 0x23, 0xa3, 0xfe, 0xeb, 0xbd]
    + [0x45, 0x4d, 0x44, 0x23, 0x64, 0x3c, 0xe8, 0x0e] + [0x2a, 0x9a, 0xc9, 0x4f, 0xa5, 0x4c, 0xa4, 0x9f]

  lemma Stored0()
    ensures StoreBig(0xddaf35a193617aba) == [0xdd, 0xaf, 0x35, 0xa1, 0x93, 0x61, 0x7a, 0xba]
    ensures StoreBig(0xcc417349ae204131) == [0xcc, 0x41, 0x73, 0x49, 0xae, 0x20, 0x41, 0x31]
    ensures StoreBig(0x12e6fa4e89a97ea2) == [0x12, 0xe6, 0xfa, 0x4e, 0x89, 0xa9, 0x7e, 0xa2]
    ensures StoreBig(0x0a9eeee64b55d39a) == [0x0a, 0x9e, 0xee, 0xe6, 0x4b, 0x55, 0xd3, 0x9a]
  {
  }

  lemma Stored1()
    ensures StoreBig(0x2192992a274fc1a8) == [0x21, 0x92, 0x99, 0x2a, 0x27, 0x4f, 0xc1, 0xa8]
    ensures StoreBig(0x36ba3c23a3feebbd) == [0x36, 0xba, 0x3c, 0x23, 0xa3, 0xfe, 0xeb, 0xbd]
    ensures StoreBig(0x454d4423643ce80e) == [0x45, 0x4d, 0x44, 0x23, 0x64, 0x3c, 0xe8, 0x0e]
    ensures StoreBig(0x2a9ac94fa54ca49f) == [0x2a, 0x9a, 0xc9, 0x4f, 0xa5, 0x4c, 0xa4, 0x9f]
  {
  }

  lemma Added(v: Words)
    requires v == Words(0x73a54f399fa4b1b2, 0x10d9c4c4295599f6, 0xd67806db8b148677, 0x654ef9abec389ca9,
            0xd08446aa79693ed7, 0x9bb4d39778c07f9e, 0x25c96a7768fb2aa3, 0xceb9fc3691ce8326)
    ensures Sum(START, v) == Words(0xddaf35a193617aba, 0xcc417349ae204131, 0x12e6fa4e89a97ea2, 0x0a9eeee64b55d39a,
            0x2192992a274fc1a8, 0x36ba3c23a3feebbd, 0x454d4423643ce80e, 0x2a9ac94fa54ca49f)
  {
  }

  lemma Written(v: Words)
    requires v == Words(0xddaf35a193617aba, 0xcc417349ae204131, 0x12e6fa4e89a97ea2, 0x0a9eeee64b55d39a,
            0x2192992a274fc1a8, 0x36ba3c23a3feebbd, 0x454d4423643ce80e, 0x2a9ac94fa54ca49f)
    ensures Output(v) == ANSWER
  {
    hide StoreBig;
    Stored0();
    Stored1();
  }

  /** The answer that the standard publishes. */
  lemma Abc()
    ensures Algorithm().Valid() && Streaming.Digest(Algorithm(), [0x61, 0x62, 0x63]) == ANSWER
  {
    hide Rounds, Output, Sum, Block;
    PaddedAbc();
    Streaming.FoldOne(Algorithm(), START, Block());
    var v := Rounds78To79(20);
    Added(v);
    Written(Sum(START, v));
  }
}
