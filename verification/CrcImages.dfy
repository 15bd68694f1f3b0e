/** What a byte becomes when it is run through the register for a number of steps, and which words
    become that byte: linear in the bits of the byte, so that eight words say it all. */
module CrcImages {
  import opened Bytes
  import opened Crc32c
  import opened CrcLinear
  import opened Words32

  /** Four words combined. */
  function Four(p0: bv32, p1: bv32, p2: bv32, p3: bv32): bv32 {
    p0 ^ p1 ^ p2 ^ p3
  }

  lemma BothXor(x: bv32, s: bv32, y: bv32, t: bv32)
    requires x == s && y == t
    ensures Xor(x, y) == s ^ t
  {
  }

  lemma FourIs(p0: bv32, p1: bv32, p2: bv32, p3: bv32)
    ensures Four(p0, p1, p2, p3) == Xor(Xor(p0, p1), Xor(p2, p3))
  {
    hide Xor;
    BothXor(p0, p0, p1, p1);
    BothXor(p2, p2, p3, p3);
    BothXor(Xor(p0, p1), p0 ^ p1, Xor(p2, p3), p2 ^ p3);
  }

  lemma StepsFour(p0: bv32, p1: bv32, p2: bv32, p3: bv32, n: nat)
    ensures Steps(Four(p0, p1, p2, p3), n) == Four(Steps(p0, n), Steps(p1, n), Steps(p2, n), Steps(p3, n))
  {
    hide Steps, Xor, Four;
    FourIs(p0, p1, p2, p3);
    FourIs(Steps(p0, n), Steps(p1, n), Steps(p2, n), Steps(p3, n));
    StepsLinear(p0, p1, n);
    StepsLinear(p2, p3, n);
    StepsLinear(Xor(p0, p1), Xor(p2, p3), n);
  }

  lemma StepsPick(chosen: bool, c: bv32, n: nat)
    ensures Steps(if chosen then c else 0, n) == if chosen then Steps(c, n) else 0
  {
    StepsOfZero(n);
  }

  /** The combination of the words chosen by the low bits of `b`. */
  function LowHalf(b: byte, c0: bv32, c1: bv32, c2: bv32, c3: bv32): bv32 {
    Four(if b & 0x01 != 0 then c0 else 0, if b & 0x02 != 0 then c1 else 0,
      if b & 0x04 != 0 then c2 else 0, if b & 0x08 != 0 then c3 else 0)
  }

  function HighHalf(b: byte, c4: bv32, c5: bv32, c6: bv32, c7: bv32): bv32 {
    Four(if b & 0x10 != 0 then c4 else 0, if b & 0x20 != 0 then c5 else 0,
      if b & 0x40 != 0 then c6 else 0, if b & 0x80 != 0 then c7 else 0)
  }

  /** The combination of the words chosen by the bits of `b`. */
  function Combine(b: byte, c0: bv32, c1: bv32, c2: bv32, c3: bv32, c4: bv32, c5: bv32, c6: bv32, c7: bv32): bv32 {
    Xor(LowHalf(b, c0, c1, c2, c3), HighHalf(b, c4, c5, c6, c7))
  }

  lemma StepsLowHalf(b: byte, n: nat, c0: bv32, c1: bv32, c2: bv32, c3: bv32)
    ensures Steps(LowHalf(b, c0, c1, c2, c3), n) == LowHalf(b, Steps(c0, n), Steps(c1, n), Steps(c2, n), Steps(c3, n))
  {
    hide Steps, Four;
    StepsPick(b & 0x01 != 0, c0, n);
    StepsPick(b & 0x02 != 0, c1, n);
    StepsPick(b & 0x04 != 0, c2, n);
    StepsPick(b & 0x08 != 0, c3, n);
    StepsFour(if b & 0x01 != 0 then c0 else 0, if b & 0x02 != 0 then c1 else 0,
      if b & 0x04 != 0 then c2 else 0, if b & 0x08 != 0 then c3 else 0, n);
  }

  lemma StepsHighHalf(b: byte, n: nat, c4: bv32, c5: bv32, c6: bv32, c7: bv32)
    ensures Steps(HighHalf(b, c4, c5, c6, c7), n) == HighHalf(b, Steps(c4, n), Steps(c5, n), Steps(c6, n), Steps(c7, n))
  {
    hide Steps, Four;
    StepsPick(b & 0x10 != 0, c4, n);
    StepsPick(b & 0x20 != 0, c5, n);
    StepsPick(b & 0x40 != 0, c6, n);
    StepsPick(b & 0x80 != 0, c7, n);
    StepsFour(if b & 0x10 != 0 then c4 else 0, if b & 0x20 != 0 then c5 else 0,
      if b & 0x40 != 0 then c6 else 0, if b & 0x80 != 0 then c7 else 0, n);
  }

  /** A combination goes through the register word by word. */
  lemma StepsCombine(b: byte, n: nat, c0: bv32, c1: bv32, c2: bv32, c3: bv32, c4: bv32, c5: bv32, c6: bv32, c7: bv32)
    ensures Steps(Combine(b, c0, c1, c2, c3, c4, c5, c6, c7), n) == Combine(b,
      Steps(c0, n), Steps(c1, n), Steps(c2, n), Steps(c3, n), Steps(c4, n), Steps(c5, n), Steps(c6, n), Steps(c7, n))
  {
    hide Steps, Xor, LowHalf, HighHalf;
    StepsLowHalf(b, n, c0, c1, c2, c3);
    StepsHighHalf(b, n, c4, c5, c6, c7);
    StepsLinear(LowHalf(b, c0, c1, c2, c3), HighHalf(b, c4, c5, c6, c7), n);
  }

  /** The combination of what `f` makes of single bits. */
  function Spread(b: byte, f: byte -> bv32): bv32 {
    Combine(b, f(0x01), f(0x02), f(0x04), f(0x08), f(0x10), f(0x20), f(0x40), f(0x80))
  }

  /** On single bits, `n` steps lead from `f` to `g`. */
  predicate Leads(f: byte -> bv32, n: nat, g: byte -> bv32) {
    && Steps(f(0x01), n) == g(0x01) && Steps(f(0x02), n) == g(0x02)
    && Steps(f(0x04), n) == g(0x04) && Steps(f(0x08), n) == g(0x08)
    && Steps(f(0x10), n) == g(0x10) && Steps(f(0x20), n) == g(0x20)
    && Steps(f(0x40), n) == g(0x40) && Steps(f(0x80), n) == g(0x80)
  }

  lemma StepsSpread(b: byte, f: byte -> bv32, n: nat, g: byte -> bv32)
    requires Leads(f, n, g)
    ensures Steps(Spread(b, f), n) == Spread(b, g)
  {
    hide Steps, Combine;
    StepsCombine(b, n, f(0x01), f(0x02), f(0x04), f(0x08), f(0x10), f(0x20), f(0x40), f(0x80));
  }

  // ----- Forwards

  function Image0(b: byte): bv32 {
    (if b & 0x01 != 0 then 0x00000001 else 0 as bv32) ^ (if b & 0x02 != 0 then 0x00000002 else 0 as bv32) ^
    (if b & 0x04 != 0 then 0x00000004 else 0 as bv32) ^ (if b & 0x08 != 0 then 0x00000008 else 0 as bv32) ^
    (if b & 0x10 != 0 then 0x00000010 else 0 as bv32) ^ (if b & 0x20 != 0 then 0x00000020 else 0 as bv32) ^
    (if b & 0x40 != 0 then 0x00000040 else 0 as bv32) ^ (if b & 0x80 != 0 then 0x00000080 else 0 as bv32)
  }

  lemma SpreadImage0(b: byte)
    ensures Spread(b, Image0) == Image0(b)
  {
    Units0();
  }

  lemma Units0()
    ensures
      && Image0(0x01) == 0x00000001 && Image0(0x02) == 0x00000002
      && Image0(0x04) == 0x00000004 && Image0(0x08) == 0x00000008
      && Image0(0x10) == 0x00000010 && Image0(0x20) == 0x00000020
      && Image0(0x40) == 0x00000040 && Image0(0x80) == 0x00000080
  {
  }

  lemma After0(b: byte)
    ensures Image0(b) == b as bv32
  {
  }

  function Image3(b: byte): bv32 {
    (if b & 0x01 != 0 then 0xa541927e else 0 as bv32) ^ (if b & 0x02 != 0 then 0x4f6f520d else 0 as bv32) ^
    (if b & 0x04 != 0 then 0x9edea41a else 0 as bv32) ^ (if b & 0x08 != 0 then 0x38513ec5 else 0 as bv32) ^
    (if b & 0x10 != 0 then 0x70a27d8a else 0 as bv32) ^ (if b & 0x20 != 0 then 0xe144fb14 else 0 as bv32) ^
    (if b & 0x40 != 0 then 0xc76580d9 else 0 as bv32) ^ (if b & 0x80 != 0 then 0x8b277743 else 0 as bv32)
  }

  lemma SpreadImage3(b: byte)
    ensures Spread(b, Image3) == Image3(b)
  {
    Units3();
  }

  lemma Units3()
    ensures
      && Image3(0x01) == 0xa541927e && Image3(0x02) == 0x4f6f520d
      && Image3(0x04) == 0x9edea41a && Image3(0x08) == 0x38513ec5
      && Image3(0x10) == 0x70a27d8a && Image3(0x20) == 0xe144fb14
      && Image3(0x40) == 0xc76580d9 && Image3(0x80) == 0x8b277743
  {
  }

  lemma Table3()
    ensures Leads(Image0, 3, Image3)
  {
  }

  lemma After3(b: byte)
    ensures Steps(b as bv32, 3) == Image3(b)
  {
    hide Image0, Image3, Spread, Leads, Steps;
    After0(b);
    SpreadImage0(b);
    SpreadImage3(b);
    Table3();
    StepsSpread(b, Image0, 3, Image3);
  }

  function Image4(b: byte): bv32 {
    (if b & 0x01 != 0 then 0xdd45aab8 else 0 as bv32) ^ (if b & 0x02 != 0 then 0xbf672381 else 0 as bv32) ^
    (if b & 0x04 != 0 then 0x7b2231f3 else 0 as bv32) ^ (if b & 0x08 != 0 then 0xf64463e6 else 0 as bv32) ^
    (if b & 0x10 != 0 then 0xe964b13d else 0 as bv32) ^ (if b & 0x20 != 0 then 0xd725148b else 0 as bv32) ^
    (if b & 0x40 != 0 then 0xaba65fe7 else 0 as bv32) ^ (if b & 0x80 != 0 then 0x52a0c93f else 0 as bv32)
  }

  lemma SpreadImage4(b: byte)
    ensures Spread(b, Image4) == Image4(b)
  {
    Units4();
  }

  lemma Units4()
    ensures
      && Image4(0x01) == 0xdd45aab8 && Image4(0x02) == 0xbf672381
      && Image4(0x04) == 0x7b2231f3 && Image4(0x08) == 0xf64463e6
      && Image4(0x10) == 0xe964b13d && Image4(0x20) == 0xd725148b
      && Image4(0x40) == 0xaba65fe7 && Image4(0x80) == 0x52a0c93f
  {
  }

  lemma Table4()
    ensures Leads(Image3, 1, Image4)
  {
  }

  lemma After4(b: byte)
    ensures Steps(b as bv32, 4) == Image4(b)
  {
    hide Image3, Image4, Spread, Leads, Steps;
    After3(b);
    SpreadImage3(b);
    SpreadImage4(b);
    Table4();
    StepsSpread(b, Image3, 1, Image4);
    StepsSum(b as bv32, 3, 1);
  }

  function Image5(b: byte): bv32 {
    (if b & 0x01 != 0 then 0x38116fac else 0 as bv32) ^ (if b & 0x02 != 0 then 0x7022df58 else 0 as bv32) ^
    (if b & 0x04 != 0 then 0xe045beb0 else 0 as bv32) ^ (if b & 0x08 != 0 then 0xc5670b91 else 0 as bv32) ^
    (if b & 0x10 != 0 then 0x8f2261d3 else 0 as bv32) ^ (if b & 0x20 != 0 then 0x1ba8b557 else 0 as bv32) ^
    (if b & 0x40 != 0 then 0x37516aae else 0 as bv32) ^ (if b & 0x80 != 0 then 0x6ea2d55c else 0 as bv32)
  }

  lemma SpreadImage5(b: byte)
    ensures Spread(b, Image5) == Image5(b)
  {
    Units5();
  }

  lemma Units5()
    ensures
      && Image5(0x01) == 0x38116fac && Image5(0x02) == 0x7022df58
      && Image5(0x04) == 0xe045beb0 && Image5(0x08) == 0xc5670b91
      && Image5(0x10) == 0x8f2261d3 && Image5(0x20) == 0x1ba8b557
      && Image5(0x40) == 0x37516aae && Image5(0x80) == 0x6ea2d55c
  {
  }

  lemma Table5()
    ensures Leads(Image4, 1, Image5)
  {
  }

  lemma After5(b: byte)
    ensures Steps(b as bv32, 5) == Image5(b)
  {
    hide Image4, Image5, Spread, Leads, Steps;
    After4(b);
    SpreadImage4(b);
    SpreadImage5(b);
    Table5();
    StepsSpread(b, Image4, 1, Image5);
    StepsSum(b as bv32, 4, 1);
  }

  function Image6(b: byte): bv32 {
    (if b & 0x01 != 0 then 0xef306b19 else 0 as bv32) ^ (if b & 0x02 != 0 then 0xdb8ca0c3 else 0 as bv32) ^
    (if b & 0x04 != 0 then 0xb2f53777 else 0 as bv32) ^ (if b & 0x08 != 0 then 0x6006181f else 0 as bv32) ^
    (if b & 0x10 != 0 then 0xc00c303e else 0 as bv32) ^ (if b & 0x20 != 0 then 0x85f4168d else 0 as bv32) ^
    (if b & 0x40 != 0 then 0x0e045beb else 0 as bv32) ^ (if b & 0x80 != 0 then 0x1c08b7d6 else 0 as bv32)
  }

  lemma SpreadImage6(b: byte)
    ensures Spread(b, Image6) == Image6(b)
  {
    Units6();
  }

  lemma Units6()
    ensures
      && Image6(0x01) == 0xef306b19 && Image6(0x02) == 0xdb8ca0c3
      && Image6(0x04) == 0xb2f53777 && Image6(0x08) == 0x6006181f
      && Image6(0x10) == 0xc00c303e && Image6(0x20) == 0x85f4168d
      && Image6(0x40) == 0x0e045beb && Image6(0x80) == 0x1c08b7d6
  {
  }

  lemma Table6()
    ensures Leads(Image5, 1, Image6)
  {
  }

  lemma After6(b: byte)
    ensures Steps(b as bv32, 6) == Image6(b)
  {
    hide Image5, Image6, Spread, Leads, Steps;
    After5(b);
    SpreadImage5(b);
    SpreadImage6(b);
    Table6();
    StepsSpread(b, Image5, 1, Image6);
    StepsSum(b as bv32, 5, 1);
  }

  function Image7(b: byte): bv32 {
    (if b & 0x01 != 0 then 0x68032cc8 else 0 as bv32) ^ (if b & 0x02 != 0 then 0xd0065990 else 0 as bv32) ^
    (if b & 0x04 != 0 then 0xa5e0c5d1 else 0 as bv32) ^ (if b & 0x08 != 0 then 0x4e2dfd53 else 0 as bv32) ^
    (if b & 0x10 != 0 then 0x9c5bfaa6 else 0 as bv32) ^ (if b & 0x20 != 0 then 0x3d5b83bd else 0 as bv32) ^
    (if b & 0x40 != 0 then 0x7ab7077a else 0 as bv32) ^ (if b & 0x80 != 0 then 0xf56e0ef4 else 0 as bv32)
  }

  lemma SpreadImage7(b: byte)
    ensures Spread(b, Image7) == Image7(b)
  {
    Units7();
  }

  lemma Units7()
    ensures
      && Image7(0x01) == 0x68032cc8 && Image7(0x02) == 0xd0065990
      && Image7(0x04) == 0xa5e0c5d1 && Image7(0x08) == 0x4e2dfd53
      && Image7(0x10) == 0x9c5bfaa6 && Image7(0x20) == 0x3d5b83bd
      && Image7(0x40) == 0x7ab7077a && Image7(0x80) == 0xf56e0ef4
  {
  }

  lemma Table7()
    ensures Leads(Image6, 1, Image7)
  {
  }

  lemma After7(b: byte)
    ensures Steps(b as bv32, 7) == Image7(b)
  {
    hide Image6, Image7, Spread, Leads, Steps;
    After6(b);
    SpreadImage6(b);
    SpreadImage7(b);
    Table7();
    StepsSpread(b, Image6, 1, Image7);
    StepsSum(b as bv32, 6, 1);
  }

  function Image8(b: byte): bv32 {
    (if b & 0x01 != 0 then 0x493c7d27 else 0 as bv32) ^ (if b & 0x02 != 0 then 0x9278fa4e else 0 as bv32) ^
    (if b & 0x04 != 0 then 0x211d826d else 0 as bv32) ^ (if b & 0x08 != 0 then 0x423b04da else 0 as bv32) ^
    (if b & 0x10 != 0 then 0x847609b4 else 0 as bv32) ^ (if b & 0x20 != 0 then 0x0d006599 else 0 as bv32) ^
    (if b & 0x40 != 0 then 0x1a00cb32 else 0 as bv32) ^ (if b & 0x80 != 0 then 0x34019664 else 0 as bv32)
  }

  lemma SpreadImage8(b: byte)
    ensures Spread(b, Image8) == Image8(b)
  {
    Units8();
  }

  lemma Units8()
    ensures
      && Image8(0x01) == 0x493c7d27 && Image8(0x02) == 0x9278fa4e
      && Image8(0x04) == 0x211d826d && Image8(0x08) == 0x423b04da
      && Image8(0x10) == 0x847609b4 && Image8(0x20) == 0x0d006599
      && Image8(0x40) == 0x1a00cb32 && Image8(0x80) == 0x34019664
  {
  }

  lemma Table8()
    ensures Leads(Image7, 1, Image8)
  {
  }

  lemma After8(b: byte)
    ensures Steps(b as bv32, 8) == Image8(b)
  {
    hide Image7, Image8, Spread, Leads, Steps;
    After7(b);
    SpreadImage7(b);
    SpreadImage8(b);
    Table8();
    StepsSpread(b, Image7, 1, Image8);
    StepsSum(b as bv32, 7, 1);
  }

  function Image9(b: byte): bv32 {
    (if b & 0x01 != 0 then 0xf43ed648 else 0 as bv32) ^ (if b & 0x02 != 0 then 0xed91da61 else 0 as bv32) ^
    (if b & 0x04 != 0 then 0xdecfc233 else 0 as bv32) ^ (if b & 0x08 != 0 then 0xb873f297 else 0 as bv32) ^
    (if b & 0x10 != 0 then 0x750b93df else 0 as bv32) ^ (if b & 0x20 != 0 then 0xea1727be else 0 as bv32) ^
    (if b & 0x40 != 0 then 0xd1c2398d else 0 as bv32) ^ (if b & 0x80 != 0 then 0xa66805eb else 0 as bv32)
  }

  lemma SpreadImage9(b: byte)
    ensures Spread(b, Image9) == Image9(b)
  {
    Units9();
  }

  lemma Units9()
    ensures
      && Image9(0x01) == 0xf43ed648 && Image9(0x02) == 0xed91da61
      && Image9(0x04) == 0xdecfc233 && Image9(0x08) == 0xb873f297
      && Image9(0x10) == 0x750b93df && Image9(0x20) == 0xea1727be
      && Image9(0x40) == 0xd1c2398d && Image9(0x80) == 0xa66805eb
  {
  }

  lemma Table9()
    ensures Leads(Image8, 1, Image9)
  {
  }

  lemma After9(b: byte)
    ensures Steps(b as bv32, 9) == Image9(b)
  {
    hide Image8, Image9, Spread, Leads, Steps;
    After8(b);
    SpreadImage8(b);
    SpreadImage9(b);
    Table9();
    StepsSpread(b, Image8, 1, Image9);
    StepsSum(b as bv32, 8, 1);
  }

  function Image10(b: byte): bv32 {
    (if b & 0x01 != 0 then 0xcb567ba5 else 0 as bv32) ^ (if b & 0x02 != 0 then 0x934081bb else 0 as bv32) ^
    (if b & 0x04 != 0 then 0x236d7587 else 0 as bv32) ^ (if b & 0x08 != 0 then 0x46daeb0e else 0 as bv32) ^
    (if b & 0x10 != 0 then 0x8db5d61c else 0 as bv32) ^ (if b & 0x20 != 0 then 0x1e87dac9 else 0 as bv32) ^
    (if b & 0x40 != 0 then 0x3d0fb592 else 0 as bv32) ^ (if b & 0x80 != 0 then 0x7a1f6b24 else 0 as bv32)
  }

  lemma SpreadImage10(b: byte)
    ensures Spread(b, Image10) == Image10(b)
  {
    Units10();
  }

  lemma Units10()
    ensures
      && Image10(0x01) == 0xcb567ba5 && Image10(0x02) == 0x934081bb
      && Image10(0x04) == 0x236d7587 && Image10(0x08) == 0x46daeb0e
      && Image10(0x10) == 0x8db5d61c && Image10(0x20) == 0x1e87dac9
      && Image10(0x40) == 0x3d0fb592 && Image10(0x80) == 0x7a1f6b24
  {
  }

  lemma Table10()
    ensures Leads(Image9, 1, Image10)
  {
  }

  lemma After10(b: byte)
    ensures Steps(b as bv32, 10) == Image10(b)
  {
    hide Image9, Image10, Spread, Leads, Steps;
    After9(b);
    SpreadImage9(b);
    SpreadImage10(b);
    Table10();
    StepsSpread(b, Image9, 1, Image10);
    StepsSum(b as bv32, 9, 1);
  }

  // ----- Backwards

  function Top(b: byte): bv32 {
    (if b & 0x01 != 0 then 0x01000000 else 0 as bv32) ^ (if b & 0x02 != 0 then 0x02000000 else 0 as bv32) ^
    (if b & 0x04 != 0 then 0x04000000 else 0 as bv32) ^ (if b & 0x08 != 0 then 0x08000000 else 0 as bv32) ^
    (if b & 0x10 != 0 then 0x10000000 else 0 as bv32) ^ (if b & 0x20 != 0 then 0x20000000 else 0 as bv32) ^
    (if b & 0x40 != 0 then 0x40000000 else 0 as bv32) ^ (if b & 0x80 != 0 then 0x80000000 else 0 as bv32)
  }

  lemma SpreadTop(b: byte)
    ensures Spread(b, Top) == Top(b)
  {
  }

  lemma TopIs(b: byte)
    ensures Top(b) == (b as bv32) << 24
  {
  }

  lemma TopTable()
    ensures Leads(Top, 3, Image0)
  {
  }

  lemma TopLeads(b: byte)
    ensures Steps(Top(b), 3) == Image0(b)
  {
    hide Top, Image0, Spread, Leads, Steps;
    SpreadTop(b);
    SpreadImage0(b);
    TopTable();
    StepsSpread(b, Top, 3, Image0);
  }

  function Back7(b: byte): bv32 {
    (if b & 0x01 != 0 then 0xbf818109 else 0 as bv32) ^ (if b & 0x02 != 0 then 0x7aef74e3 else 0 as bv32) ^
    (if b & 0x04 != 0 then 0xf5dee9c6 else 0 as bv32) ^ (if b & 0x08 != 0 then 0xee51a57d else 0 as bv32) ^
    (if b & 0x10 != 0 then 0xd94f3c0b else 0 as bv32) ^ (if b & 0x20 != 0 then 0xb7720ee7 else 0 as bv32) ^
    (if b & 0x40 != 0 then 0x6b086b3f else 0 as bv32) ^ (if b & 0x80 != 0 then 0xd610d67e else 0 as bv32)
  }

  lemma SpreadBack7(b: byte)
    ensures Spread(b, Back7) == Back7(b)
  {
  }

  lemma Back7Table()
    ensures Leads(Back7, 4, Top)
  {
  }

  lemma Back7Leads(b: byte)
    ensures Steps(Back7(b), 4) == Top(b)
  {
    hide Back7, Top, Spread, Leads, Steps;
    SpreadBack7(b);
    SpreadTop(b);
    Back7Table();
    StepsSpread(b, Back7, 4, Top);
  }

  function Back8(b: byte): bv32 {
    (if b & 0x01 != 0 then 0xa9cdda0d else 0 as bv32) ^ (if b & 0x02 != 0 then 0x5677c2eb else 0 as bv32) ^
    (if b & 0x04 != 0 then 0xacef85d6 else 0 as bv32) ^ (if b & 0x08 != 0 then 0x5c337d5d else 0 as bv32) ^
    (if b & 0x10 != 0 then 0xb866faba else 0 as bv32) ^ (if b & 0x20 != 0 then 0x75218385 else 0 as bv32) ^
    (if b & 0x40 != 0 then 0xea43070a else 0 as bv32) ^ (if b & 0x80 != 0 then 0xd16a78e5 else 0 as bv32)
  }

  lemma SpreadBack8(b: byte)
    ensures Spread(b, Back8) == Back8(b)
  {
  }

  lemma Back8Table()
    ensures Leads(Back8, 1, Back7)
  {
  }

  lemma Back8Leads(b: byte)
    ensures Steps(Back8(b), 1) == Back7(b)
  {
    hide Back8, Back7, Spread, Leads, Steps;
    SpreadBack8(b);
    SpreadBack7(b);
    Back8Table();
    StepsSpread(b, Back8, 1, Back7);
  }

  function Back11(b: byte): bv32 {
    (if b & 0x01 != 0 then 0xa9a3f760 else 0 as bv32) ^ (if b & 0x02 != 0 then 0x56ab9831 else 0 as bv32) ^
    (if b & 0x04 != 0 then 0xad573062 else 0 as bv32) ^ (if b & 0x08 != 0 then 0x5f421635 else 0 as bv32) ^
    (if b & 0x10 != 0 then 0xbe842c6a else 0 as bv32) ^ (if b & 0x20 != 0 then 0x78e42e25 else 0 as bv32) ^
    (if b & 0x40 != 0 then 0xf1c85c4a else 0 as bv32) ^ (if b & 0x80 != 0 then 0xe67cce65 else 0 as bv32)
  }

  lemma SpreadBack11(b: byte)
    ensures Spread(b, Back11) == Back11(b)
  {
  }

  lemma Back11Table()
    ensures Leads(Back11, 4, Back7)
  {
  }

  lemma Back11Leads(b: byte)
    ensures Steps(Back11(b), 4) == Back7(b)
  {
    hide Back11, Back7, Spread, Leads, Steps;
    SpreadBack11(b);
    SpreadBack7(b);
    Back11Table();
    StepsSpread(b, Back11, 4, Back7);
  }

  /** The words that become a byte, at the end or, four steps earlier, at the top. */
  lemma BackIs(b: byte)
    ensures Steps(Back7(b), 4) == (b as bv32) << 24
    ensures Steps(Back7(b), 7) == b as bv32
    ensures Steps(Back8(b), 8) == b as bv32
    ensures Steps(Back11(b), 11) == b as bv32
  {
    hide Top, Image0, Back7, Back8, Back11, Steps;
    TopIs(b);
    After0(b);
    TopLeads(b);
    Back7Leads(b);
    Back8Leads(b);
    Back11Leads(b);
    StepsSum(Back7(b), 4, 3);
    StepsSum(Back8(b), 1, 7);
    StepsSum(Back11(b), 4, 7);
  }
}
