/** A 64-byte block that stores its own CRC-32C, taken with the four bytes of the checksum cleared:
    which changes of four consecutive bytes the check notices. */
module EmbeddedCrc {
  import opened Bytes
  import opened Crc32c
  import opened CrcLinear
  import opened CrcKernels
  import opened Words32

  const BLOCK_BYTES: nat := 64

  function Cleared(s: seq<byte>, at: nat): (r: seq<byte>)
    requires |s| == BLOCK_BYTES && at + 4 <= BLOCK_BYTES
    ensures |r| == BLOCK_BYTES
  {
    s[..at] + Zeros(4) + s[at + 4..]
  }

  /** The word stored at `at` is the checksum of the block with that word cleared. */
  predicate SelfChecked(s: seq<byte>, at: nat)
    requires |s| == BLOCK_BYTES && at + 4 <= BLOCK_BYTES
  {
    Little(s[at..at + 4]) == Checksum(Cleared(s, at))
  }

  /** A difference between blocks that the check cannot see: the same for every block. */
  predicate Unseen(d: seq<byte>, at: nat)
    requires |d| == BLOCK_BYTES && at + 4 <= BLOCK_BYTES
  {
    Little(d[at..at + 4]) == Feed(0, Cleared(d, at))
  }

  // ----- Whether a change is noticed depends on the change alone

  lemma JoinLinear(a: byte, l: bv32, b: byte, m: bv32)
    ensures Join(a ^ b, Xor(l, m)) == Xor(Join(a, l), Join(b, m))
  {
    hide Join, Xor;
    JoinIsXor(a, l);
    JoinIsXor(b, m);
    JoinIsXor(a ^ b, Xor(l, m));
    ByteLinear(a, b);
    UpLinear(l, m);
    Regroup(a as bv32, b as bv32, Up(l), Up(m));
  }

  lemma UpLinear(l: bv32, m: bv32)
    ensures Up(Xor(l, m)) == Xor(Up(l), Up(m))
  {
    hide Xor;
    XorIs(l, m);
    XorIs(Up(l), Up(m));
    UpDistributes(l, m);
  }

  lemma UpDistributes(l: bv32, m: bv32)
    ensures (l ^ m) << 8 == (l << 8) ^ (m << 8)
  {
  }

  lemma {:induction false} LittleLinear(s: seq<byte>, t: seq<byte>)
    requires |s| == |t| <= 4
    ensures Little(XorBytes(s, t)) == Xor(Little(s), Little(t))
    decreases |s|
  {
    hide Join, Xor;
    if s == [] {
      XorGroup(0, 0);
    } else {
      LittleLinear(s[1..], t[1..]);
      JoinLinear(s[0], Little(s[1..]), t[0], Little(t[1..]));
      assert XorBytes(s, t)[1..] == XorBytes(s[1..], t[1..]);
    }
  }

  lemma ComplementsXor(x: bv32, y: bv32)
    ensures Xor(Complement(x), Complement(y)) == Xor(x, y)
  {
  }

  lemma ChecksumsXor(s: seq<byte>, t: seq<byte>)
    requires |s| == |t|
    ensures Xor(Checksum(s), Checksum(t)) == Feed(0, XorBytes(s, t))
  {
    hide Feed, Complement, Xor;
    XorGroup(0xffffffff, 0xffffffff);
    FeedLinear(0xffffffff, 0xffffffff, s, t);
    ComplementsXor(Feed(0xffffffff, s), Feed(0xffffffff, t));
  }

  lemma XorCancels(x: bv32, y: bv32, u: bv32)
    ensures Xor(x, y) == Xor(x, u) <==> y == u
  {
    hide Xor;
    XorGroup(x, x);
    XorAssociative(x, x, y);
    XorAssociative(x, x, u);
    XorGroup(0, y);
    XorGroup(0, u);
    XorGroup(y, 0);
    XorGroup(u, 0);
  }

  lemma DifferenceDecides(a: seq<byte>, b: seq<byte>, at: nat)
    requires |a| == |b| == BLOCK_BYTES && at + 4 <= BLOCK_BYTES && SelfChecked(a, at)
    ensures SelfChecked(b, at) <==> Unseen(XorBytes(a, b), at)
  {
    hide Little, Checksum, Feed, Xor;
    var d := XorBytes(a, b);
    assert XorBytes(Cleared(a, at), Cleared(b, at)) == Cleared(d, at);
    assert XorBytes(a[at..at + 4], b[at..at + 4]) == d[at..at + 4];
    LittleLinear(a[at..at + 4], b[at..at + 4]);
    ChecksumsXor(Cleared(a, at), Cleared(b, at));
    XorCancels(Checksum(Cleared(a, at)), Little(b[at..at + 4]), Checksum(Cleared(b, at)));
  }

  // ----- Changes inside four consecutive bytes

  predicate Within(d: seq<byte>, at: nat)
    requires |d| == BLOCK_BYTES
  {
    forall i :: 0 <= i < BLOCK_BYTES && !(at <= i < at + 4) ==> d[i] == 0
  }

  lemma FeedBetween(m: nat, s: seq<byte>, n: nat)
    requires |s| <= 4
    ensures Feed(0, Zeros(m) + s + Zeros(n)) == Steps(Little(s), |s| + n)
  {
    hide Feed, Steps, Little, Xor;
    var c := Little(s);
    assert Zeros(m) + s + Zeros(n) == Zeros(m) + (s + Zeros(n));
    FeedConcat(0, Zeros(m), s + Zeros(n));
    FeedZeros(0, m);
    StepsOfZero(m);
    FeedConcat(0, s, Zeros(n));
    FeedLittle(0, s);
    XorGroup(0, c);
    XorGroup(c, 0);
    FeedZeros(Steps(c, |s|), n);
    StepsSum(c, |s|, n);
  }

  /** A window that begins before the checksum and ends in it. */
  lemma StraddlesFront(d: seq<byte>, crc: nat, at: nat)
    requires |d| == BLOCK_BYTES && crc + 4 <= BLOCK_BYTES && at < crc < at + 4 && Within(d, at)
    ensures Unseen(d, crc) <==> Missed(d[at..crc], BLOCK_BYTES - at, d[crc..crc + 4])
  {
    hide Feed, Steps, Little;
    assert Cleared(d, crc) == Zeros(at) + d[at..crc] + Zeros(BLOCK_BYTES - crc);
    FeedBetween(at, d[at..crc], BLOCK_BYTES - crc);
  }

  /** A window that begins in the checksum and ends behind it. */
  lemma StraddlesBack(d: seq<byte>, crc: nat, at: nat)
    requires |d| == BLOCK_BYTES && at + 4 <= BLOCK_BYTES && crc < at < crc + 4 && Within(d, at)
    ensures Unseen(d, crc) <==> Missed(d[crc + 4..at + 4], BLOCK_BYTES - crc - 4, d[crc..crc + 4])
  {
    hide Feed, Steps, Little;
    assert Cleared(d, crc) == Zeros(crc + 4) + d[crc + 4..at + 4] + Zeros(BLOCK_BYTES - at - 4);
    FeedBetween(crc + 4, d[crc + 4..at + 4], BLOCK_BYTES - at - 4);
  }

  /** A window that is the checksum, or that does not touch it. */
  lemma StandsApart(d: seq<byte>, crc: nat, at: nat)
    requires |d| == BLOCK_BYTES && crc + 4 <= BLOCK_BYTES && at + 4 <= BLOCK_BYTES && Within(d, at)
    requires at + 4 <= crc || at == crc || crc + 4 <= at
    ensures Unseen(d, crc) <==> d[at..at + 4] == Zeros(4)
  {
    hide Feed, Little;
    LittleZeros(4);
    FeedZeros(0, BLOCK_BYTES);
    StepsOfZero(BLOCK_BYTES);
    if at == crc {
      assert Cleared(d, crc) == Zeros(BLOCK_BYTES);
      if Unseen(d, crc) {
        LittleInjective(d[at..at + 4], Zeros(4));
      }
    } else {
      assert d[crc..crc + 4] == Zeros(4) && Cleared(d, crc) == d;
      if Unseen(d, crc) {
        RegisterDeterminesWindow(0, d, Zeros(BLOCK_BYTES), at);
      } else if d[at..at + 4] == Zeros(4) {
        AllZero(d, at);
      }
    }
  }

  lemma AllZero(d: seq<byte>, at: nat)
    requires |d| == BLOCK_BYTES && at + 4 <= BLOCK_BYTES && Within(d, at) && d[at..at + 4] == Zeros(4)
    ensures d == Zeros(BLOCK_BYTES)
  {
    forall i | 0 <= i < BLOCK_BYTES ensures d[i] == 0 {
      if at <= i < at + 4 {
        assert d[i] == d[at..at + 4][i - at];
      }
    }
  }

  /** In a window that ends in the checksum, the covered bytes come first. */
  lemma FrontWindow(d: seq<byte>, crc: nat, at: nat, v: seq<byte>, field: seq<byte>)
    requires |d| == BLOCK_BYTES && crc + 4 <= BLOCK_BYTES && at < crc < at + 4 && Within(d, at)
    requires |v| == crc - at && |field| == 4 && field == field[..at + 4 - crc] + Zeros(crc - at)
    ensures d[crc..crc + 4] == d[crc..at + 4] + Zeros(crc - at)
    ensures d[at..crc] == v && d[crc..crc + 4] == field <==> d[at..at + 4] == v + field[..at + 4 - crc]
  {
    var w := d[at..at + 4];
    assert w == d[at..crc] + d[crc..at + 4];
    assert d[crc..crc + 4] == d[crc..at + 4] + Zeros(crc - at);
    assert d[crc..crc + 4][..at + 4 - crc] == d[crc..at + 4];
    if w == v + field[..at + 4 - crc] {
      assert w[..crc - at] == d[at..crc] && w[crc - at..] == d[crc..at + 4];
    }
  }

  /** In a window that begins in the checksum, the covered bytes come last. */
  lemma BackWindow(d: seq<byte>, crc: nat, at: nat, v: seq<byte>, field: seq<byte>)
    requires |d| == BLOCK_BYTES && at + 4 <= BLOCK_BYTES && crc < at < crc + 4 && Within(d, at)
    requires |v| == at - crc && |field| == 4 && field == Zeros(at - crc) + field[at - crc..]
    ensures d[crc..crc + 4] == Zeros(at - crc) + d[at..crc + 4]
    ensures d[crc + 4..at + 4] == v && d[crc..crc + 4] == field <==> d[at..at + 4] == field[at - crc..] + v
  {
    var w := d[at..at + 4];
    assert w == d[at..crc + 4] + d[crc + 4..at + 4];
    assert d[crc..crc + 4] == Zeros(at - crc) + d[at..crc + 4];
    assert d[crc..crc + 4][at - crc..] == d[at..crc + 4];
    if w == field[at - crc..] + v {
      assert w[..crc + 4 - at] == d[at..crc + 4] && w[crc + 4 - at..] == d[crc + 4..at + 4];
    }
  }

  /** The one change of the bytes from `at` on that the check does not notice, where there is one. */
  function BlindSpot(crc: nat, at: nat): (w: seq<byte>)
    ensures |w| == 4
  {
    if crc == 60 && at == 57 then [0xc1, 0xe0, 0x02, 0xae]
    else if crc == 60 && at == 58 then [0xcb, 0xd6, 0x31, 0x80]
    else if crc == 56 && at == 53 then [0x25, 0x49, 0x93, 0xd1]
    else if crc == 56 && at == 54 then [0x6f, 0x21, 0x3a, 0xfa]
    else if crc == 56 && at == 55 then [0xa9, 0x8a, 0x06, 0x32]
    else if crc == 56 && at == 58 then [0x31, 0x80, 0xcb, 0xd6]
    else if crc == 56 && at == 59 then [0xae, 0xc1, 0xe0, 0x02]
    else Zeros(4)
  }

  /** What is known of the covered bytes and the checksum, said of the window. */
  lemma FrontPlace(d: seq<byte>, crc: nat, at: nat, v: seq<byte>, field: seq<byte>)
    requires |d| == BLOCK_BYTES && crc + 4 <= BLOCK_BYTES && at < crc < at + 4 && Within(d, at)
    requires |v| == crc - at && |field| == 4 && field == field[..at + 4 - crc] + Zeros(crc - at)
    requires Missed(d[at..crc], BLOCK_BYTES - at, d[crc..crc + 4]) <==>
             (d[at..crc] == Zeros(crc - at) && d[crc..crc + 4] == Zeros(4)) || (d[at..crc] == v && d[crc..crc + 4] == field)
    ensures Unseen(d, crc) <==> d[at..at + 4] == Zeros(4) || d[at..at + 4] == v + field[..at + 4 - crc]
  {
    hide Unseen, Missed;
    StraddlesFront(d, crc, at);
    FrontWindow(d, crc, at, v, field);
    assert Zeros(4)[..at + 4 - crc] + Zeros(crc - at) == Zeros(4);
    FrontWindow(d, crc, at, Zeros(crc - at), Zeros(4));
    assert Zeros(crc - at) + Zeros(4)[..at + 4 - crc] == Zeros(4);
  }

  lemma BackPlace(d: seq<byte>, crc: nat, at: nat, v: seq<byte>, field: seq<byte>)
    requires |d| == BLOCK_BYTES && at + 4 <= BLOCK_BYTES && crc < at < crc + 4 && Within(d, at)
    requires |v| == at - crc && |field| == 4 && field == Zeros(at - crc) + field[at - crc..]
    requires Missed(d[crc + 4..at + 4], BLOCK_BYTES - crc - 4, d[crc..crc + 4]) <==>
             (d[crc + 4..at + 4] == Zeros(at - crc) && d[crc..crc + 4] == Zeros(4)) || (d[crc + 4..at + 4] == v && d[crc..crc + 4] == field)
    ensures Unseen(d, crc) <==> d[at..at + 4] == Zeros(4) || d[at..at + 4] == field[at - crc..] + v
  {
    hide Unseen, Missed;
    StraddlesBack(d, crc, at);
    BackWindow(d, crc, at, v, field);
    assert Zeros(at - crc) + Zeros(4)[at - crc..] == Zeros(4);
    BackWindow(d, crc, at, Zeros(at - crc), Zeros(4));
    assert Zeros(4)[at - crc..] + Zeros(at - crc) == Zeros(4);
  }

  lemma RecordAt57(d: seq<byte>)
    requires |d| == BLOCK_BYTES && Within(d, 57)
    ensures Unseen(d, 60) <==> d[57..61] == Zeros(4) || d[57..61] == [0xc1, 0xe0, 0x02, 0xae]
  {
    hide Unseen, Missed;
    FrontWindow(d, 60, 57, Zeros(3), Zeros(1) + Zeros(3));
    MissedEnd3(d[57..60], d[60..64]);
    assert [0xae, 0, 0, 0] == [0xae, 0, 0, 0][..1] + Zeros(3);
    FrontPlace(d, 60, 57, [0xc1, 0xe0, 0x02], [0xae, 0, 0, 0]);
    assert [0xc1, 0xe0, 0x02] + [0xae, 0, 0, 0][..1] == [0xc1, 0xe0, 0x02, 0xae];
  }

  lemma RecordAt58(d: seq<byte>)
    requires |d| == BLOCK_BYTES && Within(d, 58)
    ensures Unseen(d, 60) <==> d[58..62] == Zeros(4) || d[58..62] == [0xcb, 0xd6, 0x31, 0x80]
  {
    hide Unseen, Missed;
    FrontWindow(d, 60, 58, Zeros(2), Zeros(2) + Zeros(2));
    MissedEnd2(d[58..60], d[60..64]);
    assert [0x31, 0x80, 0, 0] == [0x31, 0x80, 0, 0][..2] + Zeros(2);
    FrontPlace(d, 60, 58, [0xcb, 0xd6], [0x31, 0x80, 0, 0]);
    assert [0xcb, 0xd6] + [0x31, 0x80, 0, 0][..2] == [0xcb, 0xd6, 0x31, 0x80];
  }

  lemma RecordAt59(d: seq<byte>)
    requires |d| == BLOCK_BYTES && Within(d, 59)
    ensures Unseen(d, 60) <==> d[59..63] == Zeros(4)
  {
    hide Unseen, Missed;
    FrontWindow(d, 60, 59, Zeros(1), Zeros(3) + Zeros(1));
    MissedEnd1(d[59..60], d[60..64]);
    assert Zeros(4) == Zeros(4)[..3] + Zeros(1);
    FrontPlace(d, 60, 59, Zeros(1), Zeros(4));
    assert Zeros(1) + Zeros(4)[..3] == Zeros(4);
  }

  lemma HeaderAt53(d: seq<byte>)
    requires |d| == BLOCK_BYTES && Within(d, 53)
    ensures Unseen(d, 56) <==> d[53..57] == Zeros(4) || d[53..57] == [0x25, 0x49, 0x93, 0xd1]
  {
    hide Unseen, Missed;
    FrontWindow(d, 56, 53, Zeros(3), Zeros(1) + Zeros(3));
    MissedBefore3(d[53..56], d[56..60]);
    assert [0xd1, 0, 0, 0] == [0xd1, 0, 0, 0][..1] + Zeros(3);
    FrontPlace(d, 56, 53, [0x25, 0x49, 0x93], [0xd1, 0, 0, 0]);
    assert [0x25, 0x49, 0x93] + [0xd1, 0, 0, 0][..1] == [0x25, 0x49, 0x93, 0xd1];
  }

  lemma HeaderAt54(d: seq<byte>)
    requires |d| == BLOCK_BYTES && Within(d, 54)
    ensures Unseen(d, 56) <==> d[54..58] == Zeros(4) || d[54..58] == [0x6f, 0x21, 0x3a, 0xfa]
  {
    hide Unseen, Missed;
    FrontWindow(d, 56, 54, Zeros(2), Zeros(2) + Zeros(2));
    MissedBefore2(d[54..56], d[56..60]);
    assert [0x3a, 0xfa, 0, 0] == [0x3a, 0xfa, 0, 0][..2] + Zeros(2);
    FrontPlace(d, 56, 54, [0x6f, 0x21], [0x3a, 0xfa, 0, 0]);
    assert [0x6f, 0x21] + [0x3a, 0xfa, 0, 0][..2] == [0x6f, 0x21, 0x3a, 0xfa];
  }

  lemma HeaderAt55(d: seq<byte>)
    requires |d| == BLOCK_BYTES && Within(d, 55)
    ensures Unseen(d, 56) <==> d[55..59] == Zeros(4) || d[55..59] == [0xa9, 0x8a, 0x06, 0x32]
  {
    hide Unseen, Missed;
    FrontWindow(d, 56, 55, Zeros(1), Zeros(3) + Zeros(1));
    MissedBefore1(d[55..56], d[56..60]);
    assert [0x8a, 0x06, 0x32, 0] == [0x8a, 0x06, 0x32, 0][..3] + Zeros(1);
    FrontPlace(d, 56, 55, [0xa9], [0x8a, 0x06, 0x32, 0]);
    assert [0xa9] + [0x8a, 0x06, 0x32, 0][..3] == [0xa9, 0x8a, 0x06, 0x32];
  }

  lemma HeaderAt57(d: seq<byte>)
    requires |d| == BLOCK_BYTES && Within(d, 57)
    ensures Unseen(d, 56) <==> d[57..61] == Zeros(4)
  {
    hide Unseen, Missed;
    BackWindow(d, 56, 57, Zeros(1), Zeros(1) + Zeros(3));
    MissedBehind1(d[60..61], d[56..60]);
    assert Zeros(4) == Zeros(1) + Zeros(4)[1..];
    BackPlace(d, 56, 57, Zeros(1), Zeros(4));
    assert Zeros(4)[1..] + Zeros(1) == Zeros(4);
  }

  lemma HeaderAt58(d: seq<byte>)
    requires |d| == BLOCK_BYTES && Within(d, 58)
    ensures Unseen(d, 56) <==> d[58..62] == Zeros(4) || d[58..62] == [0x31, 0x80, 0xcb, 0xd6]
  {
    hide Unseen, Missed;
    BackWindow(d, 56, 58, Zeros(2), Zeros(2) + Zeros(2));
    MissedBehind2(d[60..62], d[56..60]);
    assert [0, 0, 0x31, 0x80] == Zeros(2) + [0, 0, 0x31, 0x80][2..];
    BackPlace(d, 56, 58, [0xcb, 0xd6], [0, 0, 0x31, 0x80]);
    assert [0, 0, 0x31, 0x80][2..] + [0xcb, 0xd6] == [0x31, 0x80, 0xcb, 0xd6];
  }

  lemma HeaderAt59(d: seq<byte>)
    requires |d| == BLOCK_BYTES && Within(d, 59)
    ensures Unseen(d, 56) <==> d[59..63] == Zeros(4) || d[59..63] == [0xae, 0xc1, 0xe0, 0x02]
  {
    hide Unseen, Missed;
    BackWindow(d, 56, 59, Zeros(3), Zeros(3) + Zeros(1));
    MissedBehind3(d[60..63], d[56..60]);
    assert [0, 0, 0, 0xae] == Zeros(3) + [0, 0, 0, 0xae][3..];
    BackPlace(d, 56, 59, [0xc1, 0xe0, 0x02], [0, 0, 0, 0xae]);
    assert [0, 0, 0, 0xae][3..] + [0xc1, 0xe0, 0x02] == [0xae, 0xc1, 0xe0, 0x02];
  }

  lemma StraddleDecides(d: seq<byte>, crc: nat, at: nat)
    requires |d| == BLOCK_BYTES && at + 4 <= BLOCK_BYTES && Within(d, at)
    requires (crc == 60 && 57 <= at < 60) || (crc == 56 && (53 <= at < 56 || 57 <= at < 60))
    ensures Unseen(d, crc) <==> d[at..at + 4] == Zeros(4) || d[at..at + 4] == BlindSpot(crc, at)
  {
    hide Unseen;
    if crc == 60 {
      if at == 57 { RecordAt57(d); } else if at == 58 { RecordAt58(d); } else { RecordAt59(d); }
    } else if at < 56 {
      if at == 53 { HeaderAt53(d); } else if at == 54 { HeaderAt54(d); } else { HeaderAt55(d); }
    } else {
      if at == 57 { HeaderAt57(d); } else if at == 58 { HeaderAt58(d); } else { HeaderAt59(d); }
    }
  }

  /** For a checksum in the last word or the one before it: of the changes of four consecutive bytes,
      at most one is not noticed, and only in a window that straddles the checksum. */
  lemma BurstExact(a: seq<byte>, b: seq<byte>, crc: nat, at: nat)
    requires |a| == |b| == BLOCK_BYTES && (crc == 56 || crc == 60) && at + 4 <= BLOCK_BYTES
    requires SelfChecked(a, crc) && SameOutside(a, b, at)
    ensures SelfChecked(b, crc) <==> a == b || XorBytes(a, b)[at..at + 4] == BlindSpot(crc, at)
  {
    hide SelfChecked, Unseen, BlindSpot;
    var d := XorBytes(a, b);
    SameHaveNoDifference(a, b, at);
    DifferenceDecides(a, b, crc);
    if (crc == 60 && 57 <= at < 60) || (crc == 56 && (53 <= at < 56 || 57 <= at < 60)) {
      StraddleDecides(d, crc, at);
    } else {
      StandsApart(d, crc, at);
      NoBlindSpot(crc, at);
    }
  }

  lemma NoBlindSpot(crc: nat, at: nat)
    requires crc == 60 ==> !(57 <= at < 60)
    requires crc == 56 ==> !(53 <= at < 56) && !(57 <= at < 60)
    ensures BlindSpot(crc, at) == Zeros(4)
  {
  }

  lemma SameHaveNoDifference(a: seq<byte>, b: seq<byte>, at: nat)
    requires |a| == |b| == BLOCK_BYTES && at + 4 <= BLOCK_BYTES && SameOutside(a, b, at)
    ensures Within(XorBytes(a, b), at)
    ensures a == b <==> XorBytes(a, b)[at..at + 4] == Zeros(4)
  {
    var d := XorBytes(a, b);
    forall i | 0 <= i < BLOCK_BYTES ensures d[i] == 0 <==> a[i] == b[i] {
      XorIsZero(a[i], b[i]);
    }
    if d[at..at + 4] == Zeros(4) {
      AllZero(d, at);
    }
  }

  lemma XorIsZero(x: byte, y: byte)
    ensures x ^ y == 0 <==> x == y
  {
  }
}
