/** Four-byte changes that reach into both a message and the checksum stored in the same block. A
    change is missed exactly when the covered bytes, run through the register, give the changed
    bytes of the checksum; each place has at most one change that is missed. */
module CrcKernels {
  import opened Bytes
  import opened Crc32c
  import opened CrcImages
  import opened CrcLinear
  import opened Words32

  // ----- The changes whose effect on the register stays within the bytes of the checksum

  lemma SixTwo(p: byte, q: byte)
    requires Xor(Image6(p), Image5(q)) & 0xffff0000 == 0
    ensures p == q == 0 || (p == 0xcb && q == 0xd6)
  {
  }

  lemma TenTwo(p: byte, q: byte)
    requires Xor(Image10(p), Image9(q)) & 0xffff0000 == 0
    ensures p == q == 0 || (p == 0x6f && q == 0x21)
  {
  }

  lemma FourTwo(p: byte, q: byte)
    requires Xor(Image4(p), Image3(q)) & 0x0000ffff == 0
    ensures p == q == 0 || (p == 0xcb && q == 0xd6)
  {
  }

  lemma FiveOne(b: byte)
    requires Image5(b) & 0xff000000 == 0
    ensures b == 0
  {
  }

  lemma NineOne(b: byte)
    requires Image9(b) & 0xff000000 == 0
    ensures b == 0 || b == 0xa9
  {
  }

  lemma FourOne(b: byte)
    requires Image4(b) & 0x000000ff == 0
    ensures b == 0
  {
  }

  lemma SevenThree(b: byte)
    requires Back7(b) & 0xff000000 == 0
    ensures b == 0 || b == 0xae
  {
  }

  lemma ElevenThree(b: byte)
    requires Back11(b) & 0xff000000 == 0
    ensures b == 0 || b == 0xd1
  {
  }

  // ----- The places

  /** The change is missed: the covered bytes and `n` steps give the changed bytes of the checksum. */
  predicate Missed(covered: seq<byte>, n: nat, field: seq<byte>)
    requires |covered| <= 4 && |field| == 4
  {
    Steps(Little(covered), n) == Little(field)
  }

  /** Covered bytes that are missed fix the change of the checksum. */
  lemma Decided(covered: seq<byte>, n: nat, field: seq<byte>, v: seq<byte>, fv: seq<byte>)
    requires |covered| == |v| <= 4 && |field| == |fv| == 4 && Missed(v, n, fv)
    requires Missed(covered, n, field) ==> covered == Zeros(|v|) || covered == v
    ensures Missed(covered, n, field) <==>
              (covered == Zeros(|v|) && field == Zeros(4)) || (covered == v && field == fv)
  {
    hide Steps, Little;
    LittleZeros(|v|);
    LittleZeros(4);
    StepsOfZero(n);
    if Missed(covered, n, field) {
      if covered == v {
        LittleInjective(field, fv);
      } else {
        LittleInjective(field, Zeros(4));
      }
    }
  }

  lemma NothingMissed(n: nat, k: nat)
    requires k <= 4
    ensures Missed(Zeros(k), n, Zeros(4))
  {
    hide Steps, Little;
    LittleZeros(k);
    LittleZeros(4);
    StepsOfZero(n);
  }

  lemma OneByte(covered: seq<byte>, n: nat, field: seq<byte>)
    requires |covered| == 1 && |field| == 4
    ensures Missed(covered, n, field) <==> Steps(covered[0] as bv32, n) == Little(field)
  {
    hide Steps, Little;
    LittleIs(covered);
  }

  lemma TwoBytes(covered: seq<byte>, n: nat, field: seq<byte>)
    requires |covered| == 2 && |field| == 4 && n > 0
    ensures Missed(covered, n, field) <==>
              Xor(Steps(covered[0] as bv32, n), Steps(covered[1] as bv32, n - 1)) == Little(field)
  {
    hide ByteStep, Little, Xor, Up, Join;
    var p, q := covered[0], covered[1] as bv32;
    LittleIs(covered);
    JoinIsXor(p, q);
    StepsLinear(p as bv32, Up(q), n);
    SmallByte(covered[1]);
    ShiftOut(q);
  }

  lemma SmallByte(b: byte)
    ensures b as bv32 & 0xff000000 == 0
  {
  }

  /** One byte in front of a checksum that ends the block. */
  lemma MissedEnd1(covered: seq<byte>, field: seq<byte>)
    requires |covered| == 1 && |field| == 4 && field[3] == 0
    ensures Missed(covered, 5, field) <==>
      (covered == Zeros(1) && field == Zeros(4))
  {
    hide Steps, Little, Image5;
    OneByte(covered, 5, field);
    After5(covered[0]);
    ClearParts(field);
    if Missed(covered, 5, field) {
      FiveOne(covered[0]);
    }
    NothingMissed(5, 1);
    Decided(covered, 5, field, Zeros(1), Zeros(4));
  }

  /** Two bytes in front of a checksum that ends the block. */
  lemma MissedEnd2(covered: seq<byte>, field: seq<byte>)
    requires |covered| == 2 && |field| == 4 && field[2] == field[3] == 0
    ensures Missed(covered, 6, field) <==>
      (covered == Zeros(2) && field == Zeros(4)) || (covered == [0xcb, 0xd6] && field == [0x31, 0x80, 0, 0])
  {
    hide Steps, Little, Xor;
    var p, q := covered[0], covered[1];
    TwoBytes(covered, 6, field);
    ClearParts(field);
    if Missed(covered, 6, field) {
      MissedEnd2Word(p, q, Little(field));
    }
    MissedEnd2Example();
    Decided(covered, 6, field, [0xcb, 0xd6], [0x31, 0x80, 0, 0]);
  }

  lemma MissedEnd2Word(p: byte, q: byte, f: bv32)
    requires Xor(Steps(p as bv32, 6), Steps(q as bv32, 5)) == f && f & 0xffff0000 == 0
    ensures p == q == 0 || (p == 0xcb && q == 0xd6)
  {
    hide Steps, Xor, Image6, Image5;
    After6(p);
    After5(q);
    SixTwo(p, q);
  }

  lemma MissedEnd2Example()
    ensures Missed([0xcb, 0xd6], 6, [0x31, 0x80, 0, 0])
  {
    hide Little, Steps;
    LittleIs([0xcb, 0xd6]);
    LittleIs([0x31, 0x80, 0, 0]);
    MissedEnd2Steps();
    MissedEnd2Words();
  }

  lemma MissedEnd2Steps()
    ensures Steps(0x0000d6cb, 6) == 0x00008031
  {
  }

  lemma MissedEnd2Words()
    ensures Join(0xcb, 0xd6) == 0x0000d6cb
    ensures Join(0x31, Join(0x80, Join(0, 0))) == 0x00008031
  {
  }

  /** Three bytes in front of a checksum that ends the block. */
  lemma MissedEnd3(covered: seq<byte>, field: seq<byte>)
    requires |covered| == 3 && |field| == 4 && field[1] == field[2] == field[3] == 0
    ensures Missed(covered, 7, field) <==>
      (covered == Zeros(3) && field == Zeros(4)) || (covered == [0xc1, 0xe0, 0x02] && field == [0xae, 0, 0, 0])
  {
    hide Steps, Little, Back7;
    ClearParts(field);
    LittleBound(covered);
    MissedEnd3Example();
    if Missed(covered, 7, field) {
      BackIs(field[0]);
      StepsInjective(Little(covered), Back7(field[0]), 7);
      SevenThree(field[0]);
      if field[0] == 0 {
        LittleZeros(3);
        StepsOfZero(7);
        StepsInjective(Little(covered), 0, 7);
        LittleInjective(covered, Zeros(3));
      } else {
        assert field == [0xae, 0, 0, 0];
        StepsInjective(Little(covered), Little([0xc1, 0xe0, 0x02]), 7);
        LittleInjective(covered, [0xc1, 0xe0, 0x02]);
      }
    }
    Decided(covered, 7, field, [0xc1, 0xe0, 0x02], [0xae, 0, 0, 0]);
  }

  lemma MissedEnd3Example()
    ensures Missed([0xc1, 0xe0, 0x02], 7, [0xae, 0, 0, 0])
  {
    hide Little, Steps;
    LittleIs([0xc1, 0xe0, 0x02]);
    LittleIs([0xae, 0, 0, 0]);
    MissedEnd3Steps();
    MissedEnd3Words();
  }

  lemma MissedEnd3Steps()
    ensures Steps(0x0002e0c1, 7) == 0xae
  {
  }

  lemma MissedEnd3Words()
    ensures Join(0xc1, Join(0xe0, 0x02)) == 0x0002e0c1
    ensures Join(0xae, Join(0, Join(0, 0))) == 0xae
  {
  }

  /** One byte in front of a checksum that four more bytes follow. */
  lemma MissedBefore1(covered: seq<byte>, field: seq<byte>)
    requires |covered| == 1 && |field| == 4 && field[3] == 0
    ensures Missed(covered, 9, field) <==>
      (covered == Zeros(1) && field == Zeros(4)) || (covered == [0xa9] && field == [0x8a, 0x06, 0x32, 0])
  {
    hide Steps, Little, Image9;
    OneByte(covered, 9, field);
    After9(covered[0]);
    ClearParts(field);
    if Missed(covered, 9, field) {
      NineOne(covered[0]);
    }
    MissedBefore1Example();
    Decided(covered, 9, field, [0xa9], [0x8a, 0x06, 0x32, 0]);
  }

  lemma MissedBefore1Example()
    ensures Missed([0xa9], 9, [0x8a, 0x06, 0x32, 0])
  {
    hide Little, Steps;
    LittleIs([0xa9]);
    LittleIs([0x8a, 0x06, 0x32, 0]);
    MissedBefore1Steps();
    MissedBefore1Words();
  }

  lemma MissedBefore1Steps()
    ensures Steps(0xa9, 9) == 0x0032068a
  {
    StepsSum(0xa9, 4, 5);
    assert Steps(0xa9, 4) == 0xae8414ea;
    assert Steps(0xae8414ea, 5) == 0x0032068a;
  }

  lemma MissedBefore1Words()
    ensures 0xa9 as byte as bv32 == 0xa9
    ensures Join(0x8a, Join(0x06, Join(0x32, 0))) == 0x0032068a
  {
  }

  /** Two bytes in front of a checksum that four more bytes follow. */
  lemma MissedBefore2(covered: seq<byte>, field: seq<byte>)
    requires |covered| == 2 && |field| == 4 && field[2] == field[3] == 0
    ensures Missed(covered, 10, field) <==>
      (covered == Zeros(2) && field == Zeros(4)) || (covered == [0x6f, 0x21] && field == [0x3a, 0xfa, 0, 0])
  {
    hide Steps, Little, Xor;
    var p, q := covered[0], covered[1];
    TwoBytes(covered, 10, field);
    ClearParts(field);
    if Missed(covered, 10, field) {
      MissedBefore2Word(p, q, Little(field));
    }
    MissedBefore2Example();
    Decided(covered, 10, field, [0x6f, 0x21], [0x3a, 0xfa, 0, 0]);
  }

  lemma MissedBefore2Word(p: byte, q: byte, f: bv32)
    requires Xor(Steps(p as bv32, 10), Steps(q as bv32, 9)) == f && f & 0xffff0000 == 0
    ensures p == q == 0 || (p == 0x6f && q == 0x21)
  {
    hide Steps, Xor, Image10, Image9;
    After10(p);
    After9(q);
    TenTwo(p, q);
  }

  lemma MissedBefore2Example()
    ensures Missed([0x6f, 0x21], 10, [0x3a, 0xfa, 0, 0])
  {
    hide Little, Steps;
    LittleIs([0x6f, 0x21]);
    LittleIs([0x3a, 0xfa, 0, 0]);
    MissedBefore2Steps();
    MissedBefore2Words();
  }

  lemma MissedBefore2Steps()
    ensures Steps(0x0000216f, 10) == 0x0000fa3a
  {
    StepsSum(0x0000216f, 5, 5);
    assert Steps(0x0000216f, 5) == 0x4b88641f;
    assert Steps(0x4b88641f, 5) == 0x0000fa3a;
  }

  lemma MissedBefore2Words()
    ensures Join(0x6f, 0x21) == 0x0000216f
    ensures Join(0x3a, Join(0xfa, Join(0, 0))) == 0x0000fa3a
  {
  }

  /** Three bytes in front of a checksum that four more bytes follow. */
  lemma MissedBefore3(covered: seq<byte>, field: seq<byte>)
    requires |covered| == 3 && |field| == 4 && field[1] == field[2] == field[3] == 0
    ensures Missed(covered, 11, field) <==>
      (covered == Zeros(3) && field == Zeros(4)) || (covered == [0x25, 0x49, 0x93] && field == [0xd1, 0, 0, 0])
  {
    hide Steps, Little, Back11;
    ClearParts(field);
    LittleBound(covered);
    MissedBefore3Example();
    if Missed(covered, 11, field) {
      BackIs(field[0]);
      StepsInjective(Little(covered), Back11(field[0]), 11);
      ElevenThree(field[0]);
      if field[0] == 0 {
        LittleZeros(3);
        StepsOfZero(11);
        StepsInjective(Little(covered), 0, 11);
        LittleInjective(covered, Zeros(3));
      } else {
        assert field == [0xd1, 0, 0, 0];
        StepsInjective(Little(covered), Little([0x25, 0x49, 0x93]), 11);
        LittleInjective(covered, [0x25, 0x49, 0x93]);
      }
    }
    Decided(covered, 11, field, [0x25, 0x49, 0x93], [0xd1, 0, 0, 0]);
  }

  lemma MissedBefore3Example()
    ensures Missed([0x25, 0x49, 0x93], 11, [0xd1, 0, 0, 0])
  {
    hide Little, Steps;
    LittleIs([0x25, 0x49, 0x93]);
    LittleIs([0xd1, 0, 0, 0]);
    MissedBefore3Steps();
    MissedBefore3Words();
  }

  lemma MissedBefore3Steps()
    ensures Steps(0x00934925, 11) == 0xd1
  {
    StepsSum(0x00934925, 6, 5);
    assert Steps(0x00934925, 6) == 0xcbf0b54b;
    assert Steps(0xcbf0b54b, 5) == 0xd1;
  }

  lemma MissedBefore3Words()
    ensures Join(0x25, Join(0x49, 0x93)) == 0x00934925
    ensures Join(0xd1, Join(0, Join(0, 0))) == 0xd1
  {
  }

  /** One byte behind a checksum that four bytes follow. */
  lemma MissedBehind1(covered: seq<byte>, field: seq<byte>)
    requires |covered| == 1 && |field| == 4 && field[0] == 0
    ensures Missed(covered, 4, field) <==>
      (covered == Zeros(1) && field == Zeros(4))
  {
    hide Steps, Little, Image4;
    OneByte(covered, 4, field);
    After4(covered[0]);
    ClearParts(field);
    if Missed(covered, 4, field) {
      FourOne(covered[0]);
    }
    NothingMissed(4, 1);
    Decided(covered, 4, field, Zeros(1), Zeros(4));
  }

  /** Two bytes behind a checksum that four bytes follow. */
  lemma MissedBehind2(covered: seq<byte>, field: seq<byte>)
    requires |covered| == 2 && |field| == 4 && field[0] == field[1] == 0
    ensures Missed(covered, 4, field) <==>
      (covered == Zeros(2) && field == Zeros(4)) || (covered == [0xcb, 0xd6] && field == [0, 0, 0x31, 0x80])
  {
    hide Steps, Little, Xor;
    var p, q := covered[0], covered[1];
    TwoBytes(covered, 4, field);
    ClearParts(field);
    if Missed(covered, 4, field) {
      MissedBehind2Word(p, q, Little(field));
    }
    MissedBehind2Example();
    Decided(covered, 4, field, [0xcb, 0xd6], [0, 0, 0x31, 0x80]);
  }

  lemma MissedBehind2Word(p: byte, q: byte, f: bv32)
    requires Xor(Steps(p as bv32, 4), Steps(q as bv32, 3)) == f && f & 0x0000ffff == 0
    ensures p == q == 0 || (p == 0xcb && q == 0xd6)
  {
    hide Steps, Xor, Image4, Image3;
    After4(p);
    After3(q);
    FourTwo(p, q);
  }

  lemma MissedBehind2Example()
    ensures Missed([0xcb, 0xd6], 4, [0, 0, 0x31, 0x80])
  {
    hide Little, Steps;
    LittleIs([0xcb, 0xd6]);
    LittleIs([0, 0, 0x31, 0x80]);
    MissedBehind2Steps();
    MissedBehind2Words();
  }

  lemma MissedBehind2Steps()
    ensures Steps(0x0000d6cb, 4) == 0x80310000
  {
  }

  lemma MissedBehind2Words()
    ensures Join(0xcb, 0xd6) == 0x0000d6cb
    ensures Join(0, Join(0, Join(0x31, 0x80))) == 0x80310000
  {
  }

  /** Three bytes behind a checksum that four bytes follow. */
  lemma MissedBehind3(covered: seq<byte>, field: seq<byte>)
    requires |covered| == 3 && |field| == 4 && field[0] == field[1] == field[2] == 0
    ensures Missed(covered, 4, field) <==>
      (covered == Zeros(3) && field == Zeros(4)) || (covered == [0xc1, 0xe0, 0x02] && field == [0, 0, 0, 0xae])
  {
    hide Steps, Little, Back7;
    ClearParts(field);
    LittleBound(covered);
    MissedBehind3Example();
    if Missed(covered, 4, field) {
      BackIs(field[3]);
      StepsInjective(Little(covered), Back7(field[3]), 4);
      SevenThree(field[3]);
      if field[3] == 0 {
        LittleZeros(3);
        StepsOfZero(4);
        StepsInjective(Little(covered), 0, 4);
        LittleInjective(covered, Zeros(3));
      } else {
        assert field == [0, 0, 0, 0xae];
        StepsInjective(Little(covered), Little([0xc1, 0xe0, 0x02]), 4);
        LittleInjective(covered, [0xc1, 0xe0, 0x02]);
      }
    }
    Decided(covered, 4, field, [0xc1, 0xe0, 0x02], [0, 0, 0, 0xae]);
  }

  lemma MissedBehind3Example()
    ensures Missed([0xc1, 0xe0, 0x02], 4, [0, 0, 0, 0xae])
  {
    hide Little, Steps;
    LittleIs([0xc1, 0xe0, 0x02]);
    LittleIs([0, 0, 0, 0xae]);
    MissedBehind3Steps();
    MissedBehind3Words();
  }

  lemma MissedBehind3Steps()
    ensures Steps(0x0002e0c1, 4) == 0xae000000
  {
  }

  lemma MissedBehind3Words()
    ensures Join(0xc1, Join(0xe0, 0x02)) == 0x0002e0c1
    ensures Join(0, Join(0, Join(0, 0xae))) == 0xae000000
  {
  }
}
