/** Header writes that raise the epoch by one: at every stopping point the file holds the old header
    or the new one, or is refused. */
module HeaderEpoch {
  import opened Bytes
  import opened Crc32c
  import opened CrcImages
  import opened CrcLinear
  import opened EmbeddedCrc
  import opened HeaderTear
  import opened RflFormat
  import opened Words32

  // ----- Counting up by one changes a run of low bits

  /** Ones from the lowest bit on, and nothing above them. */
  predicate LowOnes(b: byte) {
    b & (b + 1) == 0
  }

  /** Bytes of ones, a last byte of low ones, and zeros. */
  predicate Ripple(d: seq<byte>)
    decreases |d|
  {
    d != [] && LowOnes(d[0]) && d[0] != 0 && (d[1..] == Zeros(|d| - 1) || (d[0] == 255 && Ripple(d[1..])))
  }

  lemma NextByte(b: byte)
    ensures LowOnes(b ^ (b + 1)) && b ^ (b + 1) != 0
    ensures b == 255 ==> b ^ (b + 1) == 255
  {
  }

  lemma {:induction false} NextRipples(n: nat, k: nat)
    requires 0 < k && n + 1 < Pow256(k)
    ensures Ripple(XorBytes(LittleEndian(n, k), LittleEndian(n + 1, k)))
    decreases k
  {
    hide ByteOf, LowOnes;
    var s, t := LittleEndian(n, k), LittleEndian(n + 1, k);
    var d := XorBytes(s, t);
    assert d[1..] == XorBytes(s[1..], t[1..]);
    NextDigit(n);
    NextByte(s[0]);
    if n % 256 == 255 {
      NextRipples(n / 256, k - 1);
    } else {
      SameBytes(s[1..]);
    }
  }

  lemma SameBytes(s: seq<byte>)
    ensures XorBytes(s, s) == Zeros(|s|)
  {
    forall i | 0 <= i < |s| ensures XorBytes(s, s)[i] == 0 {
      XorIsZero(s[i], s[i]);
    }
  }

  /** The lowest byte goes up by one, around the corner, and the others only when it does. */
  lemma NextDigit(n: nat)
    ensures ByteOf((n + 1) % 256) == ByteOf(n % 256) + 1
    ensures n % 256 == 255 <==> ByteOf(n % 256) == 255
    ensures (n + 1) / 256 == if n % 256 == 255 then n / 256 + 1 else n / 256
  {
    hide ByteOf;
    ByteOfValue(n % 256);
    if n % 256 == 255 {
      assert (n + 1) % 256 == 0;
      ByteOfInverse(255);
      ByteOfInverse(0);
    } else {
      assert (n + 1) % 256 == n % 256 + 1;
      ByteOfNext(n % 256);
    }
  }

  lemma ByteOfNext(n: nat)
    requires n < 255
    ensures ByteOf(n + 1) == ByteOf(n) + 1
  {
  }

  // ----- No such change leaves the first three bytes of the count alone

  /** Four bytes go through the register one by one. */
  lemma StepsLittle(d: seq<byte>)
    requires |d| == 4
    ensures Steps(Little(d), 8) == Xor(Image8(d[0]), Xor(Image7(d[1]), Xor(Image6(d[2]), Image5(d[3]))))
  {
    hide Little, Steps, Join, Image8, Image7, Image6, Image5, Xor;
    LittleIs(d);
    var w3 := d[3] as bv32;
    var w2 := Join(d[2], w3);
    var w1 := Join(d[1], w2);
    SmallWords(d[1], d[2], d[3]);
    After8(d[0]);
    After7(d[1]);
    After6(d[2]);
    After5(d[3]);
    StepsJoin(d[2], w3, 6);
    StepsJoin(d[1], w2, 7);
    StepsJoin(d[0], w1, 8);
  }

  lemma SmallWords(b1: byte, b2: byte, b3: byte)
    ensures (b3 as bv32) & 0xff000000 == 0
    ensures Join(b2, b3 as bv32) & 0xff000000 == 0
    ensures Join(b1, Join(b2, b3 as bv32)) & 0xff000000 == 0
  {
  }

  lemma StepsJoin(b: byte, l: bv32, n: nat)
    requires l & 0xff000000 == 0 && n > 0
    ensures Steps(Join(b, l), n) == Xor(Steps(b as bv32, n), Steps(l, n - 1))
  {
    hide Xor, Join, Up, ByteStep;
    JoinIsXor(b, l);
    StepsLinear(b as bv32, Up(l), n);
    ShiftOut(l);
  }

  predicate AtTop(x: bv32) {
    x & 0xff000000 != 0
  }

  lemma FirstByteReaches(b: byte)
    requires LowOnes(b) && b != 0
    ensures AtTop(Xor(Image8(b), Xor(Image7(0), Xor(Image6(0), Image5(0)))))
  {
  }

  lemma SecondByteReaches(b: byte)
    requires LowOnes(b) && b != 0
    ensures AtTop(Xor(Image8(255), Xor(Image7(b), Xor(Image6(0), Image5(0)))))
  {
  }

  lemma ThirdByteReaches(b: byte)
    requires LowOnes(b) && b != 0
    ensures AtTop(Xor(Image8(255), Xor(Image7(255), Xor(Image6(b), Image5(0)))))
  {
  }

  lemma FourthByteReaches(b: byte)
    requires LowOnes(b) && b != 0
    ensures AtTop(Xor(Image8(255), Xor(Image7(255), Xor(Image6(255), Image5(b)))))
  {
  }

  lemma RippleReachesTop(d: seq<byte>)
    requires |d| == 4 && Ripple(d)
    ensures AtTop(Steps(Little(d), 8))
  {
    hide Steps, Little, Image8, Image7, Image6, Image5, Xor, LowOnes, AtTop;
    StepsLittle(d);
    var d1 := d[1..];
    var d2 := d1[1..];
    var d3 := d2[1..];
    if d1 == Zeros(3) {
      assert d[1] == d1[0] == 0 && d[2] == d1[1] == 0 && d[3] == d1[2] == 0;
      FirstByteReaches(d[0]);
    } else {
      assert Ripple(d1) && d1[0] == d[1];
      if d2 == Zeros(2) {
        assert d[2] == d2[0] == 0 && d[3] == d2[1] == 0;
        SecondByteReaches(d[1]);
      } else {
        assert Ripple(d2) && d2[0] == d[2];
        if d3 == Zeros(1) {
          assert d[3] == d3[0] == 0;
          ThirdByteReaches(d[2]);
        } else {
          assert Ripple(d3) && d3[0] == d[3];
          FourthByteReaches(d[3]);
        }
      }
    }
  }

  // ----- Header writes of a running store

  /** What the epoch does to the bytes of the header. */
  lemma EpochRipples(a: Header, b: Header)
    requires Successive(a, b) && b.epoch == a.epoch + 1
    ensures Ripple(XorBytes(EncodeHeader(a)[32..36], EncodeHeader(b)[32..36]))
  {
    hide Pack, Width, LittleEndian, Ripple, HeaderCrc, Pow256;
    Pow256Values();
    NextRipples(a.epoch, 4);
    var v, w := HeaderValues(a, HeaderCrc(HeaderValues(a, 0))), HeaderValues(b, HeaderCrc(HeaderValues(b, 0)));
    FirstHalf(v, 6);
    FirstHalf(w, 6);
  }

  lemma FirstHalf(v: seq<nat>, i: nat)
    requires |v| == 11 && 5 <= i < 9
    ensures |Pack(v, HEADER_WIDTHS)| == HEADER_BYTES && HEADER_OFFSETS[i] + 4 <= HEADER_BYTES
    ensures Pack(v, HEADER_WIDTHS)[HEADER_OFFSETS[i]..HEADER_OFFSETS[i] + 4] == LittleEndian(v[i], 4)
  {
    hide Width, Pack, LittleEndian;
    FieldAt(v, i);
    LittlePrefix(v[i], 4, 8);
    var s, lo := Pack(v, HEADER_WIDTHS), HEADER_OFFSETS[i];
    FirstFour(s, lo);
  }

  /** The first bytes of the epoch and of the record count in an encoded header. */
  lemma WordsOf(h: Header)
    ensures EncodeHeader(h)[32..36] == LittleEndian(h.epoch, 4)
    ensures EncodeHeader(h)[40..44] == LittleEndian(h.committed, 4)
  {
    hide Pack, Width, LittleEndian, HeaderCrc;
    var v := HeaderValues(h, HeaderCrc(HeaderValues(h, 0)));
    FirstHalf(v, 6);
    FirstHalf(v, 7);
  }

  lemma {:induction false} LittlePrefix(n: nat, k: nat, m: nat)
    requires k <= m
    ensures LittleEndian(n, m)[..k] == LittleEndian(n, k)
    decreases k
  {
    hide ByteOf;
    if k > 0 {
      LittlePrefix(n / 256, k - 1, m - 1);
    }
  }

  /** A header write that raises the epoch by at most one, or that keeps the record count, is safe at
      every stopping point: the file is accepted exactly when it holds the whole old header or the
      whole new one. */
  lemma TornHeaderNext(a: Header, b: Header, at: nat)
    requires Successive(a, b) && at <= HEADER_BYTES
    requires a.epoch <= b.epoch <= a.epoch + 1 || b.committed == a.committed
    ensures
      var torn := Torn(EncodeHeader(a), EncodeHeader(b), at);
      HeaderStatus(torn) == Ok <==> torn == EncodeHeader(a) || torn == EncodeHeader(b)
  {
    hide EncodeHeader, HeaderStatus, EpochHides, Torn, AgreeElsewhere, Little, Ripple;
    var before, next := EncodeHeader(a), EncodeHeader(b);
    var torn := Torn(before, next, at);
    TornHeaderExact(a, b, at);
    if 40 < at < 44 {
      SuccessiveAgree(a, b);
      FieldBytes(a, b);
      MiddleBytes(before, next, at);
      if EpochHides(before, torn) {
        if b.epoch == a.epoch + 1 {
          EpochRipples(a, b);
          NotHidden(before, torn);
        } else {
          OneChangeHidesNothing(before, torn);
        }
      }
    }
  }

  lemma MiddleBytes(before: seq<byte>, next: seq<byte>, at: nat)
    requires |before| == |next| == HEADER_BYTES && 40 < at < 44 && AgreeElsewhere(before, next)
    ensures
      var torn := Torn(before, next, at);
      && torn[32..36] == next[32..36] && torn[43] == before[43]
      && (before[40..44] == next[40..44] ==> torn[40..44] == before[40..44])
      && (torn[32..36] == before[32..36] && torn[40..44] == before[40..44] ==> torn == before)
  {
    var torn := Torn(before, next, at);
    if before[40..44] == next[40..44] {
      forall i | 40 <= i < 44 ensures torn[i] == before[i] {
        assert before[i] == before[40..44][i - 40] && next[i] == next[40..44][i - 40];
      }
    }
    if torn[32..36] == before[32..36] && torn[40..44] == before[40..44] {
      forall i | 0 <= i < HEADER_BYTES ensures torn[i] == before[i] {
        if 32 <= i < 36 {
          assert torn[i] == torn[32..36][i - 32] && before[i] == before[32..36][i - 32];
        } else if 40 <= i < 44 {
          assert torn[i] == torn[40..44][i - 40] && before[i] == before[40..44][i - 40];
        }
      }
    }
  }

  /** The highest byte of the count is still the old one, but an epoch that went up by one reaches it. */
  lemma NotHidden(s: seq<byte>, t: seq<byte>)
    requires |s| == |t| == HEADER_BYTES && s[43] == t[43]
    requires Ripple(XorBytes(s[32..36], t[32..36]))
    ensures !EpochHides(s, t)
  {
    hide Little, Ripple, Steps;
    RippleReachesTop(XorBytes(s[32..36], t[32..36]));
    var m := XorBytes(s[40..44], t[40..44]);
    XorIsZero(s[43], t[43]);
    assert m[3] == s[43] ^ t[43];
    ClearParts(m);
  }

  /** When only one of the two fields changed, the checksum shows it. */
  lemma OneChangeHidesNothing(s: seq<byte>, t: seq<byte>)
    requires |s| == |t| == HEADER_BYTES && EpochHides(s, t)
    requires s[32..36] == t[32..36] || s[40..44] == t[40..44]
    ensures s[32..36] == t[32..36] && s[40..44] == t[40..44]
  {
    hide Little, Steps;
    var e, m := XorBytes(s[32..36], t[32..36]), XorBytes(s[40..44], t[40..44]);
    LittleZeros(4);
    StepsOfZero(8);
    if s[32..36] == t[32..36] {
      SameBytes(s[32..36]);
      LittleInjective(m, Zeros(4));
      DifferNowhere(s[40..44], t[40..44]);
    } else {
      SameBytes(s[40..44]);
      StepsInjective(Little(e), 0, 8);
      LittleInjective(e, Zeros(4));
      DifferNowhere(s[32..36], t[32..36]);
    }
  }

  lemma DifferNowhere(s: seq<byte>, t: seq<byte>)
    requires |s| == |t| && XorBytes(s, t) == Zeros(|s|)
    ensures s == t
  {
    forall i | 0 <= i < |s| ensures s[i] == t[i] {
      assert XorBytes(s, t)[i] == 0;
      XorIsZero(s[i], t[i]);
    }
  }
}
