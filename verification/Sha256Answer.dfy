/** The SHA-256 digest of the three bytes "abc", round by round. */
module Sha256Answer {
  import opened Bytes
  import opened Sha256
  import opened DigestBits
  import opened Words32
  import Streaming

  /** The message, the one bit and the length in bits fill one block. */
  function Block(): (block: seq<byte>)
    ensures |block| == 64
  {
    [0x61, 0x62, 0x63, 0x80] + Zeros(59) + [24]
  }

  /** The rotations and shifts in one step of the schedule, and in one round. */
  lemma SmallTurns(x: bv32, y: bv32)
    ensures Rotr(x, 7) == (x >> 7) | (x << 25)
    ensures Rotr(x, 18) == (x >> 18) | (x << 14)
    ensures Shr(x, 3) == x >> 3
    ensures Rotr(y, 17) == (y >> 17) | (y << 15)
    ensures Rotr(y, 19) == (y >> 19) | (y << 13)
    ensures Shr(y, 10) == y >> 10
  {
    hide *;
    Turned7(x);
    Turned18(x);
    Shifted3(x);
    Turned17(y);
    Turned19(y);
    Shifted10(y);
  }

  lemma BigTurns(x: bv32, y: bv32)
    ensures Rotr(x, 2) == (x >> 2) | (x << 30)
    ensures Rotr(x, 13) == (x >> 13) | (x << 19)
    ensures Rotr(x, 22) == (x >> 22) | (x << 10)
    ensures Rotr(y, 6) == (y >> 6) | (y << 26)
    ensures Rotr(y, 11) == (y >> 11) | (y << 21)
    ensures Rotr(y, 25) == (y >> 25) | (y << 7)
  {
    hide *;
    Turned2(x);
    Turned13(x);
    Turned22(x);
    Turned6(y);
    Turned11(y);
    Turned25(y);
  }

  lemma NextWordIs(t: nat, w2: bv32, w7: bv32, w15: bv32, w16: bv32)
    requires 16 <= t < 64
    requires w2 == W(Block(), t - 2) && w7 == W(Block(), t - 7) && w15 == W(Block(), t - 15) && w16 == W(Block(), t - 16)
    ensures W(Block(), t) == NextWord(w2, w7, w15, w16)
    ensures Rotr(w15, 7) == (w15 >> 7) | (w15 << 25)
    ensures Rotr(w15, 18) == (w15 >> 18) | (w15 << 14)
    ensures Shr(w15, 3) == w15 >> 3
    ensures Rotr(w2, 17) == (w2 >> 17) | (w2 << 15)
    ensures Rotr(w2, 19) == (w2 >> 19) | (w2 << 13)
    ensures Shr(w2, 10) == w2 >> 10
  {
    hide LoadBig, NextWord, Block, Rotr, Shr;
    SmallTurns(w15, w2);
  }

  /** One round, from the variables before it and the new values of `a` and `e`. */
  lemma Advance(t: nat, v: Words, k: bv32, w: bv32, a: bv32, e: bv32) returns (next: Words)
    requires t < 64 && Rounds(Block(), START, t) == v && K(t) == k && W(Block(), t) == w
    requires a == Add(T1(v, k, w), T2(v)) && e == Add(v.d, T1(v, k, w))
    ensures next == Words(a, v.a, v.b, v.c, e, v.e, v.f, v.g) && Rounds(Block(), START, t + 1) == next
  {
    hide Block, W, K, T1, T2, Add;
    next := Words(a, v.a, v.b, v.c, e, v.e, v.f, v.g);
  }

  // ----- The message schedule

  /** The words of the schedule from word `t` on. */
  predicate Scheduled(t: nat, w: seq<bv32>) {
    t + |w| <= 64 && forall j :: t <= j < t + |w| ==> W(Block(), j) == w[j - t]
  }

  lemma BlockBytes()
    ensures Block()[0] == 0x61 && Block()[1] == 0x62 && Block()[2] == 0x63 && Block()[3] == 0x80 && Block()[63] == 24
    ensures forall i :: 4 <= i < 63 ==> Block()[i] == 0
  {
  }

  lemma Words0To3()
    ensures Scheduled(0, [0x61626380, 0x00000000, 0x00000000, 0x00000000])
  {
    hide Block;
    BlockBytes();
  }

  lemma Words4To7()
    ensures Scheduled(4, [0x00000000, 0x00000000, 0x00000000, 0x00000000])
  {
    hide Block;
    BlockBytes();
  }

  lemma Words8To11()
    ensures Scheduled(8, [0x00000000, 0x00000000, 0x00000000, 0x00000000])
  {
    hide Block;
    BlockBytes();
  }

  lemma Words12To15()
    ensures Scheduled(12, [0x00000000, 0x00000000, 0x00000000, 0x00000018])
  {
    hide Block;
    BlockBytes();
  }

  lemma Words16To19()
    ensures Scheduled(16, [0x61626380, 0x000f0000, 0x7da86405, 0x600003c6])
  {
    hide W, Block, Rotr, Shr;
    Words0To3();
    Words4To7();
    Words8To11();
    Words12To15();
    NextWordIs(16, 0x00000000, 0x00000000, 0x00000000, 0x61626380);
    NextWordIs(17, 0x00000018, 0x00000000, 0x00000000, 0x00000000);
    NextWordIs(18, 0x61626380, 0x00000000, 0x00000000, 0x00000000);
    NextWordIs(19, 0x000f0000, 0x00000000, 0x00000000, 0x00000000);
  }

  lemma Words20To23()
    ensures Scheduled(20, [0x3e9d7b78, 0x0183fc00, 0x12dcbfdb, 0xe2e2c38e])
  {
    hide W, Block, Rotr, Shr;
    Words4To7();
    Words8To11();
    Words12To15();
    Words16To19();
    NextWordIs(20, 0x7da86405, 0x00000000, 0x00000000, 0x00000000);
    NextWordIs(21, 0x600003c6, 0x00000000, 0x00000000, 0x00000000);
    NextWordIs(22, 0x3e9d7b78, 0x00000018, 0x00000000, 0x00000000);
    NextWordIs(23, 0x0183fc00, 0x61626380, 0x00000000, 0x00000000);
  }

  lemma Words24To27()
    ensures Scheduled(24, [0xc8215c1a, 0xb73679a2, 0xe5bc3909, 0x32663c5b])
  {
    hide W, Block, Rotr, Shr;
    Words8To11();
    Words12To15();
    Words16To19();
    Words20To23();
    NextWordIs(24, 0x12dcbfdb, 0x000f0000, 0x00000000, 0x00000000);
    NextWordIs(25, 0xe2e2c38e, 0x7da86405, 0x00000000, 0x00000000);
    NextWordIs(26, 0xc8215c1a, 0x600003c6, 0x00000000, 0x00000000);
    NextWordIs(27, 0xb73679a2, 0x3e9d7b78, 0x00000000, 0x00000000);
  }

  lemma Words28To31()
    ensures Scheduled(28, [0x9d209d67, 0xec8726cb, 0x702138a4, 0xd3b7973b])
  {
    hide W, Block, Rotr, Shr;
    Words12To15();
    Words16To19();
    Words20To23();
    Words24To27();
    NextWordIs(28, 0xe5bc3909, 0x0183fc00, 0x00000000, 0x00000000);
    NextWordIs(29, 0x32663c5b, 0x12dcbfdb, 0x00000000, 0x00000000);
    NextWordIs(30, 0x9d209d67, 0xe2e2c38e, 0x00000018, 0x00000000);
    NextWordIs(31, 0xec8726cb, 0xc8215c1a, 0x61626380, 0x00000018);
  }

  lemma Words32To35()
    ensures Scheduled(32, [0x93f5997f, 0x3b68ba73, 0xaff4ffc1, 0xf10a5c62])
  {
    hide W, Block, Rotr, Shr;
    Words16To19();
    Words20To23();
    Words24To27();
    Words28To31();
    NextWordIs(32, 0x702138a4, 0xb73679a2, 0x000f0000, 0x61626380);
    NextWordIs(33, 0xd3b7973b, 0xe5bc3909, 0x7da86405, 0x000f0000);
    NextWordIs(34, 0x93f5997f, 0x32663c5b, 0x600003c6, 0x7da86405);
    NextWordIs(35, 0x3b68ba73, 0x9d209d67, 0x3e9d7b78, 0x600003c6);
  }

  lemma Words36To39()
    ensures Scheduled(36, [0x0a8b3996, 0x72af830a, 0x9409e33e, 0x24641522])
  {
    hide W, Block, Rotr, Shr;
    Words20To23();
    Words24To27();
    Words28To31();
    Words32To35();
    NextWordIs(36, 0xaff4ffc1, 0xec8726cb, 0x0183fc00, 0x3e9d7b78);
    NextWordIs(37, 0xf10a5c62, 0x702138a4, 0x12dcbfdb, 0x0183fc00);
    NextWordIs(38, 0x0a8b3996, 0xd3b7973b, 0xe2e2c38e, 0x12dcbfdb);
    NextWordIs(39, 0x72af830a, 0x93f5997f, 0xc8215c1a, 0xe2e2c38e);
  }

  lemma Words40To43()
    ensures Scheduled(40, [0x9f47bf94, 0xf0a64f5a, 0x3e246a79, 0x27333ba3])
  {
    hide W, Block, Rotr, Shr;
    Words24To27();
    Words28To31();
    Words32To35();
    Words36To39();
    NextWordIs(40, 0x9409e33e, 0x3b68ba73, 0xb73679a2, 0xc8215c1a);
    NextWordIs(41, 0x24641522, 0xaff4ffc1, 0xe5bc3909, 0xb73679a2);
    NextWordIs(42, 0x9f47bf94, 0xf10a5c62, 0x32663c5b, 0xe5bc3909);
    NextWordIs(43, 0xf0a64f5a, 0x0a8b3996, 0x9d209d67, 0x32663c5b);
  }

  lemma Words44To47()
    ensures Scheduled(44, [0x0c4763f2, 0x840abf27, 0x7a290d5d, 0x065c43da])
  {
    hide W, Block, Rotr, Shr;
    Words28To31();
    Words32To35();
    Words36To39();
    Words40To43();
    NextWordIs(44, 0x3e246a79, 0x72af830a, 0xec8726cb, 0x9d209d67);
    NextWordIs(45, 0x27333ba3, 0x9409e33e, 0x702138a4, 0xec8726cb);
    NextWordIs(46, 0x0c4763f2, 0x24641522, 0xd3b7973b, 0x702138a4);
    NextWordIs(47, 0x840abf27, 0x9f47bf94, 0x93f5997f, 0xd3b7973b);
  }

  lemma Words48To51()
    ensures Scheduled(48, [0xfb3e89cb, 0xcc7617db, 0xb9e66c34, 0xa9993667])
  {
    hide W, Block, Rotr, Shr;
    Words32To35();
    Words36To39();
    Words40To43();
    Words44To47();
    NextWordIs(48, 0x7a290d5d, 0xf0a64f5a, 0x3b68ba73, 0x93f5997f);
    NextWordIs(49, 0x065c43da, 0x3e246a79, 0xaff4ffc1, 0x3b68ba73);
    NextWordIs(50, 0xfb3e89cb, 0x27333ba3, 0xf10a5c62, 0xaff4ffc1);
    NextWordIs(51, 0xcc7617db, 0x0c4763f2, 0x0a8b3996, 0xf10a5c62);
  }

  lemma Words52To55()
    ensures Scheduled(52, [0x84badedd, 0xc21462bc, 0x1487472c, 0xb20f7a99])
  {
    hide W, Block, Rotr, Shr;
    Words36To39();
    Words40To43();
    Words44To47();
    Words48To51();
    NextWordIs(52, 0xb9e66c34, 0x840abf27, 0x72af830a, 0x0a8b3996);
    NextWordIs(53, 0xa9993667, 0x7a290d5d, 0x9409e33e, 0x72af830a);
    NextWordIs(54, 0x84badedd, 0x065c43da, 0x24641522, 0x9409e33e);
    NextWordIs(55, 0xc21462bc, 0xfb3e89cb, 0x9f47bf94, 0x24641522);
  }

  lemma Words56To59()
    ensures Scheduled(56, [0xef57b9cd, 0xebe6b238, 0x9fe3095e, 0x78bc8d4b])
  {
    hide W, Block, Rotr, Shr;
    Words40To43();
    Words44To47();
    Words48To51();
    Words52To55();
    NextWordIs(56, 0x1487472c, 0xcc7617db, 0xf0a64f5a, 0x9f47bf94);
    NextWordIs(57, 0xb20f7a99, 0xb9e66c34, 0x3e246a79, 0xf0a64f5a);
    NextWordIs(58, 0xef57b9cd, 0xa9993667, 0x27333ba3, 0x3e246a79);
    NextWordIs(59, 0xebe6b238, 0x84badedd, 0x0c4763f2, 0x27333ba3);
  }

  lemma Words60To63()
    ensures Scheduled(60, [0xa43fcf15, 0x668b2ff8, 0xeeaba2cc, 0x12b1edeb])
  {
    hide W, Block, Rotr, Shr;
    Words44To47();
    Words48To51();
    Words52To55();
    Words56To59();
    NextWordIs(60, 0x9fe3095e, 0xc21462bc, 0x840abf27, 0x0c4763f2);
    NextWordIs(61, 0x78bc8d4b, 0x1487472c, 0x7a290d5d, 0x840abf27);
    NextWordIs(62, 0xa43fcf15, 0xb20f7a99, 0x065c43da, 0x7a290d5d);
    NextWordIs(63, 0x668b2ff8, 0xef57b9cd, 0xfb3e89cb, 0x065c43da);
  }

  // ----- The rounds: the variables after `q` groups of four

  lemma Rounds0To3(q: nat) returns (v: Words)
    requires q == 1
    ensures v == Rounds(Block(), START, 4 * q)
    ensures v == Words(0xd550f666, 0xc8c347a7, 0x5a6ad9ad, 0x5d6aebcd, 0x24e00850, 0xf92939eb, 0x78ce7989, 0xfa2a4622)
  {
    hide W, Rounds, Block, Rotr, Shr;
    Words0To3();
    v := Begin();
    BigTurns(v.a, v.e);
    v := Advance(0, v, 0x428a2f98, 0x61626380, 0x5d6aebcd, 0xfa2a4622);
    BigTurns(v.a, v.e);
    v := Advance(1, v, 0x71374491, 0x00000000, 0x5a6ad9ad, 0x78ce7989);
    BigTurns(v.a, v.e);
    v := Advance(2, v, 0xb5c0fbcf, 0x00000000, 0xc8c347a7, 0xf92939eb);
    BigTurns(v.a, v.e);
    v := Advance(3, v, 0xe9b5dba5, 0x00000000, 0xd550f666, 0x24e00850);
  }

  lemma Rounds4To7(q: nat) returns (v: Words)
    requires q == 2
    ensures v == Rounds(Block(), START, 4 * q)
    ensures v == Words(0x85a07b5f, 0xe5030380, 0x2b4209f5, 0x04409a6a, 0x0c657a79, 0x9b27a401, 0x714260ad, 0x43ada245)
  {
    hide W, Rounds, Block, Rotr, Shr;
    Words4To7();
    v := Rounds0To3(1);
    BigTurns(v.a, v.e);
    v := Advance(4, v, 0x3956c25b, 0x00000000, 0x04409a6a, 0x43ada245);
    BigTurns(v.a, v.e);
    v := Advance(5, v, 0x59f111f1, 0x00000000, 0x2b4209f5, 0x714260ad);
    BigTurns(v.a, v.e);
    v := Advance(6, v, 0x923f82a4, 0x00000000, 0xe5030380, 0x9b27a401);
    BigTurns(v.a, v.e);
    v := Advance(7, v, 0xab1c5ed5, 0x00000000, 0x85a07b5f, 0x0c657a79);
  }

  lemma Rounds8To11(q: nat) returns (v: Words)
    requires q == 3
    ensures v == Rounds(Block(), START, 4 * q)
    ensures v == Words(0xf71fc5a9, 0x4798a3f4, 0x8c87346b, 0x8e04ecb9, 0x816fd6e9, 0x436b23e8, 0x1cc92596, 0x32ca2d8c)
  {
    hide W, Rounds, Block, Rotr, Shr;
    Words8To11();
    v := Rounds4To7(2);
    BigTurns(v.a, v.e);
    v := Advance(8, v, 0xd807aa98, 0x00000000, 0x8e04ecb9, 0x32ca2d8c);
    BigTurns(v.a, v.e);
    v := Advance(9, v, 0x12835b01, 0x00000000, 0x8c87346b, 0x1cc92596);
    BigTurns(v.a, v.e);
    v := Advance(10, v, 0x243185be, 0x00000000, 0x4798a3f4, 0x436b23e8);
    BigTurns(v.a, v.e);
    v := Advance(11, v, 0x550c7dc3, 0x00000000, 0xf71fc5a9, 0x816fd6e9);
  }

  lemma Rounds12To15(q: nat) returns (v: Words)
    requires q == 4
    ensures v == Rounds(Block(), START, 4 * q)
    ensures v == Words(0xb0fa238e, 0xc0645fde, 0xd932eb16, 0x87912990, 0x07590dcd, 0x0b92f20c, 0x745a48de, 0x1e578218)
  {
    hide W, Rounds, Block, Rotr, Shr;
    Words12To15();
    v := Rounds8To11(3);
    BigTurns(v.a, v.e);
    v := Advance(12, v, 0x72be5d74, 0x00000000, 0x87912990, 0x1e578218);
    BigTurns(v.a, v.e);
    v := Advance(13, v, 0x80deb1fe, 0x00000000, 0xd932eb16, 0x745a48de);
    BigTurns(v.a, v.e);
    v := Advance(14, v, 0x9bdc06a7, 0x00000000, 0xc0645fde, 0x0b92f20c);
    BigTurns(v.a, v.e);
    v := Advance(15, v, 0xc19bf174, 0x00000018, 0xb0fa238e, 0x07590dcd);
  }

  lemma Rounds16To19(q: nat) returns (v: Words)
    requires q == 5
    ensures v == Rounds(Block(), START, 4 * q)
    ensures v == Words(0xe1f20c33, 0xfe777bbf, 0xc2fbd9d1, 0x21da9a9b, 0xb0638179, 0xcc899961, 0x846ee454, 0x8034229c)
  {
    hide W, Rounds, Block, Rotr, Shr;
    Words16To19();
    v := Rounds12To15(4);
    BigTurns(v.a, v.e);
    v := Advance(16, v, 0xe49b69c1, 0x61626380, 0x21da9a9b, 0x8034229c);
    BigTurns(v.a, v.e);
    v := Advance(17, v, 0xefbe4786, 0x000f0000, 0xc2fbd9d1, 0x846ee454);
    BigTurns(v.a, v.e);
    v := Advance(18, v, 0x0fc19dc6, 0x7da86405, 0xfe777bbf, 0xcc899961);
    BigTurns(v.a, v.e);
    v := Advance(19, v, 0x240ca1cc, 0x600003c6, 0xe1f20c33, 0xb0638179);
  }

  lemma Rounds20To23(q: nat) returns (v: Words)
    requires q == 6
    ensures v == Rounds(Block(), START, 4 * q)
    ensures v == Words(0xc5d53d8d, 0xa7a3623f, 0xc2606d6d, 0x9dc68b63, 0xaa47c347, 0x49f5114a, 0xe1257970, 0x8ada8930)
  {
    hide W, Rounds, Block, Rotr, Shr;
    Words20To23();
    v := Rounds16To19(5);
    BigTurns(v.a, v.e);
    v := Advance(20, v, 0x2de92c6f, 0x3e9d7b78, 0x9dc68b63, 0x8ada8930);
    BigTurns(v.a, v.e);
    v := Advance(21, v, 0x4a7484aa, 0x0183fc00, 0xc2606d6d, 0xe1257970);
    BigTurns(v.a, v.e);
    v := Advance(22, v, 0x5cb0a9dc, 0x12dcbfdb, 0xa7a3623f, 0x49f5114a);
    BigTurns(v.a, v.e);
    v := Advance(23, v, 0x76f988da, 0xe2e2c38e, 0xc5d53d8d, 0xaa47c347);
  }

  lemma Rounds24To27(q: nat) returns (v: Words)
    requires q == 7
    ensures v == Rounds(Block(), START, 4 * q)
    ensures v == Words(0x77d37528, 0xb62ec4bc, 0xcde8037d, 0x1c2c2838, 0xedffbff8, 0xc74c6516, 0x14383d8e, 0x2823ef91)
  {
    hide W, Rounds, Block, Rotr, Shr;
    Words24To27();
    v := Rounds20To23(6);
    BigTurns(v.a, v.e);
    v := Advance(24, v, 0x983e5152, 0xc8215c1a, 0x1c2c2838, 0x2823ef91);
    BigTurns(v.a, v.e);
    v := Advance(25, v, 0xa831c66d, 0xb73679a2, 0xcde8037d, 0x14383d8e);
    BigTurns(v.a, v.e);
    v := Advance(26, v, 0xb00327c8, 0xe5bc3909, 0xb62ec4bc, 0xc74c6516);
    BigTurns(v.a, v.e);
    v := Advance(27, v, 0xbf597fc7, 0x32663c5b, 0x77d37528, 0xedffbff8);
  }

  lemma Rounds28To31(q: nat) returns (v: Words)
    requires q == 8
    ensures v == Rounds(Block(), START, 4 * q)
    ensures v == Words(0x73b33bf5, 0xea992a22, 0xa0060b30, 0x363482c9, 0xba591112, 0x0109ab3a, 0xade79437, 0x6112a3b7)
  {
    hide W, Rounds, Block, Rotr, Shr;
    Words28To31();
    v := Rounds24To27(7);
    BigTurns(v.a, v.e);
    v := Advance(28, v, 0xc6e00bf3, 0x9d209d67, 0x363482c9, 0x6112a3b7);
    BigTurns(v.a, v.e);
    v := Advance(29, v, 0xd5a79147, 0xec8726cb, 0xa0060b30, 0xade79437);
    BigTurns(v.a, v.e);
    v := Advance(30, v, 0x06ca6351, 0x702138a4, 0xea992a22, 0x0109ab3a);
    BigTurns(v.a, v.e);
    v := Advance(31, v, 0x14292967, 0xd3b7973b, 0x73b33bf5, 0xba591112);
  }

  lemma Rounds32To35(q: nat) returns (v: Words)
    requires q == 9
    ensures v == Rounds(Block(), START, 4 * q)
    ensures v == Words(0x65a0cfe4, 0xa9a7738c, 0xfe604df5, 0x98e12507, 0xf4b002d6, 0x085f3833, 0x59249dd3, 0x9cd9f5f6)
  {
    hide W, Rounds, Block, Rotr, Shr;
    Words32To35();
    v := Rounds28To31(8);
    BigTurns(v.a, v.e);
    v := Advance(32, v, 0x27b70a85, 0x93f5997f, 0x98e12507, 0x9cd9f5f6);
    BigTurns(v.a, v.e);
    v := Advance(33, v, 0x2e1b2138, 0x3b68ba73, 0xfe604df5, 0x59249dd3);
    BigTurns(v.a, v.e);
    v := Advance(34, v, 0x4d2c6dfc, 0xaff4ffc1, 0xa9a7738c, 0x085f3833);
    BigTurns(v.a, v.e);
    v := Advance(35, v, 0x53380d13, 0xf10a5c62, 0x65a0cfe4, 0xf4b002d6);
  }

  lemma Rounds36To39(q: nat) returns (v: Words)
    requires q == 10
    ensures v == Rounds(Block(), START, 4 * q)
    ensures v == Words(0x79ea687a, 0x6dc57a8a, 0x34df1604, 0x41a65cb1, 0x1efbc0a0, 0xf0781bc8, 0xa507a53d, 0x0772a26b)
  {
    hide W, Rounds, Block, Rotr, Shr;
    Words36To39();
    v := Rounds32To35(9);
    BigTurns(v.a, v.e);
    v := Advance(36, v, 0x650a7354, 0x0a8b3996, 0x41a65cb1, 0x0772a26b);
    BigTurns(v.a, v.e);
    v := Advance(37, v, 0x766a0abb, 0x72af830a, 0x34df1604, 0xa507a53d);
    BigTurns(v.a, v.e);
    v := Advance(38, v, 0x81c2c92e, 0x9409e33e, 0x6dc57a8a, 0xf0781bc8);
    BigTurns(v.a, v.e);
    v := Advance(39, v, 0x92722c85, 0x24641522, 0x79ea687a, 0x1efbc0a0);
  }

  lemma Rounds40To43(q: nat) returns (v: Words)
    requires q == 11
    ensures v == Rounds(Block(), START, 4 * q)
    ensures v == Words(0x9d4baf93, 0x17aa0dfe, 0xdf46652f, 0xd6670766, 0xfda24c2e, 0xdecd4715, 0x838b2711, 0x26352d63)
  {
    hide W, Rounds, Block, Rotr, Shr;
    Words40To43();
    v := Rounds36To39(10);
    BigTurns(v.a, v.e);
    v := Advance(40, v, 0xa2bfe8a1, 0x9f47bf94, 0xd6670766, 0x26352d63);
    BigTurns(v.a, v.e);
    v := Advance(41, v, 0xa81a664b, 0xf0a64f5a, 0xdf46652f, 0x838b2711);
    BigTurns(v.a, v.e);
    v := Advance(42, v, 0xc24b8b70, 0x3e246a79, 0x17aa0dfe, 0xdecd4715);
    BigTurns(v.a, v.e);
    v := Advance(43, v, 0xc76c51a3, 0x27333ba3, 0x9d4baf93, 0xfda24c2e);
  }

  lemma Rounds44To47(q: nat) returns (v: Words)
    requires q == 12
    ensures v == Rounds(Block(), START, 4 * q)
    ensures v == Words(0x4172328d, 0xa14c14b0, 0x72ab4b91, 0x26628815, 0xfecf0bc6, 0xd57b94a9, 0xb7755da1, 0xa80f11f0)
  {
    hide W, Rounds, Block, Rotr, Shr;
    Words44To47();
    v := Rounds40To43(11);
    BigTurns(v.a, v.e);
    v := Advance(44, v, 0xd192e819, 0x0c4763f2, 0x26628815, 0xa80f11f0);
    BigTurns(v.a, v.e);
    v := Advance(45, v, 0xd6990624, 0x840abf27, 0x72ab4b91, 0xb7755da1);
    BigTurns(v.a, v.e);
    v := Advance(46, v, 0xf40e3585, 0x7a290d5d, 0xa14c14b0, 0xd57b94a9);
    BigTurns(v.a, v.e);
    v := Advance(47, v, 0x106aa070, 0x065c43da, 0x4172328d, 0xfecf0bc6);
  }

  lemma Rounds48To51(q: nat) returns (v: Words)
    requires q == 13
    ensures v == Rounds(Block(), START, 4 * q)
    ensures v == Words(0x886e7a22, 0x7a0508a1, 0xf11bfaa8, 0x05757ceb, 0x49231c1e, 0x52f1ccf7, 0x6e5c390c, 0xbd714038)
  {
    hide W, Rounds, Block, Rotr, Shr;
    Words48To51();
    v := Rounds44To47(12);
    BigTurns(v.a, v.e);
    v := Advance(48, v, 0x19a4c116, 0xfb3e89cb, 0x05757ceb, 0xbd714038);
    BigTurns(v.a, v.e);
    v := Advance(49, v, 0x1e376c08, 0xcc7617db, 0xf11bfaa8, 0x6e5c390c);
    BigTurns(v.a, v.e);
    v := Advance(50, v, 0x2748774c, 0xb9e66c34, 0x7a0508a1, 0x52f1ccf7);
    BigTurns(v.a, v.e);
    v := Advance(51, v, 0x34b0bcb5, 0xa9993667, 0x886e7a22, 0x49231c1e);
  }

  lemma Rounds52To55(q: nat) returns (v: Words)
    requires q == 14
    ensures v == Rounds(Block(), START, 4 * q)
    ensures v == Words(0x38cc9913, 0x3ec45cdb, 0xf5702fdb, 0x101fd28f, 0x54cb266b, 0xe50e1b4f, 0x9f4787c3, 0x529e7d00)
  {
    hide W, Rounds, Block, Rotr, Shr;
    Words52To55();
    v := Rounds48To51(13);
    BigTurns(v.a, v.e);
    v := Advance(52, v, 0x391c0cb3, 0x84badedd, 0x101fd28f, 0x529e7d00);
    BigTurns(v.a, v.e);
    v := Advance(53, v, 0x4ed8aa4a, 0xc21462bc, 0xf5702fdb, 0x9f4787c3);
    BigTurns(v.a, v.e);
    v := Advance(54, v, 0x5b9cca4f, 0x1487472c, 0x3ec45cdb, 0xe50e1b4f);
    BigTurns(v.a, v.e);
    v := Advance(55, v, 0x682e6ff3, 0xb20f7a99, 0x38cc9913, 0x54cb266b);
  }

  lemma Rounds56To59(q: nat) returns (v: Words)
    requires q == 15
    ensures v == Rounds(Block(), START, 4 * q)
    ensures v == Words(0xb6ae8fff, 0xffb70472, 0xc062d46f, 0xfcd1887b, 0xb21bad3d, 0x6d83bfc6, 0x7e44008e, 0x9b5e906c)
  {
    hide W, Rounds, Block, Rotr, Shr;
    Words56To59();
    v := Rounds52To55(14);
    BigTurns(v.a, v.e);
    v := Advance(56, v, 0x748f82ee, 0xef57b9cd, 0xfcd1887b, 0x9b5e906c);
    BigTurns(v.a, v.e);
    v := Advance(57, v, 0x78a5636f, 0xebe6b238, 0xc062d46f, 0x7e44008e);
    BigTurns(v.a, v.e);
    v := Advance(58, v, 0x84c87814, 0x9fe3095e, 0xffb70472, 0x6d83bfc6);
    BigTurns(v.a, v.e);
    v := Advance(59, v, 0x8cc70208, 0x78bc8d4b, 0xb6ae8fff, 0xb21bad3d);
  }

  lemma Rounds60To63(q: nat) returns (v: Words)
    requires q == 16
    ensures v == Rounds(Block(), START, 4 * q)
    ensures v == Words(0x506e3058, 0xd39a2165, 0x04d24d6c, 0xb85e2ce9, 0x5ef50f24, 0xfb121210, 0x948d25b6, 0x961f4894)
  {
    hide W, Rounds, Block, Rotr, Shr;
    Words60To63();
    v := Rounds56To59(15);
    BigTurns(v.a, v.e);
    v := Advance(60, v, 0x90befffa, 0xa43fcf15, 0xb85e2ce9, 0x961f4894);
    BigTurns(v.a, v.e);
    v := Advance(61, v, 0xa4506ceb, 0x668b2ff8, 0x04d24d6c, 0x948d25b6);
    BigTurns(v.a, v.e);
    v := Advance(62, v, 0xbef9a3f7, 0xeeaba2cc, 0xd39a2165, 0xfb121210);
    BigTurns(v.a, v.e);
    v := Advance(63, v, 0xc67178f2, 0x12b1edeb, 0x506e3058, 0x5ef50f24);
  }

  lemma Begin() returns (v: Words)
    ensures v == START == Rounds(Block(), START, 0)
  {
    v := START;
  }

  // ----- The digest

  lemma LengthOfAbc()
    ensures LengthField(3) == Zeros(7) + [24]
  {
    hide ByteOf, BigEndian;
    ByteOfInverse(24);
    BigEndianSmall(24, 8);
  }

  lemma PaddedAbc()
    ensures Algorithm().Valid() && Streaming.Padded(Algorithm(), [0x61, 0x62, 0x63]) == Block()
  {
    hide Compress, Output, LengthField;
    LengthOfAbc();
    assert Streaming.ZerosAfter(Algorithm(), 3) == 52;
  }

  const ANSWER: seq<byte> :=
    [0xba, 0x78, 0x16, 0xbf] + [0x8f, 0x01, 0xcf, 0xea]
    + [0x41, 0x41, 0x40, 0xde] + [0x5d, 0xae, 0x22, 0x23]
    + [0xb0, 0x03, 0x61, 0xa3] + [0x96, 0x17, 0x7a, 0x9c]
    + [0xb4, 0x10, 0xff, 0x61] + [0xf2, 0x00, 0x15, 0xad]

  lemma Stored0()
    ensures StoreBig(0xba7816bf) == [0xba, 0x78, 0x16, 0xbf]
    ensures StoreBig(0x8f01cfea) == [0x8f, 0x01, 0xcf, 0xea]
    ensures StoreBig(0x414140de) == [0x41, 0x41, 0x40, 0xde]
    ensures StoreBig(0x5dae2223) == [0x5d, 0xae, 0x22, 0x23]
  {
  }

  lemma Stored1()
    ensures StoreBig(0xb00361a3) == [0xb0, 0x03, 0x61, 0xa3]
    ensures StoreBig(0x96177a9c) == [0x96, 0x17, 0x7a, 0x9c]
    ensures StoreBig(0xb410ff61) == [0xb4, 0x10, 0xff, 0x61]
    ensures StoreBig(0xf20015ad) == [0xf2, 0x00, 0x15, 0xad]
  {
  }

  lemma Added(v: Words)
    requires v == Words(0x506e3058, 0xd39a2165, 0x04d24d6c, 0xb85e2ce9, 0x5ef50f24, 0xfb121210, 0x948d25b6, 0x961f4894)
    ensures Sum(START, v) == Words(0xba7816bf, 0x8f01cfea, 0x414140de, 0x5dae2223, 0xb00361a3, 0x96177a9c, 0xb410ff61, 0xf20015ad)
  {
  }

  lemma Written(v: Words)
    requires v == Words(0xba7816bf, 0x8f01cfea, 0x414140de, 0x5dae2223, 0xb00361a3, 0x96177a9c, 0xb410ff61, 0xf20015ad)
    ensures Output(v) == ANSWER
  {
    hide StoreBig;
    Stored0();
    Stored1();
  }

  /** The answer that the standard publishes. */
  lemma Abc()
    ensures Algorithm().Valid() && Streaming.Digest(Algorithm(), [0x61, 0x62, 0x63]) == ANSWER
  {
    hide Rounds, Output, Sum, Block;
    PaddedAbc();
    Streaming.FoldOne(Algorithm(), START, Block());
    var v := Rounds60To63(16);
    Added(v);
    Written(Sum(START, v));
  }
}
