/** Header writes of a flush: the record count rises by at most one slab. An epoch that rises with it
    can only hide a torn count when it rises by 7298688 or more. */
module HeaderFlush {
  import opened Bytes
  import opened Crc32c
  import opened CrcImages
  import opened CrcLinear
  import opened EmbeddedCrc
  import opened HeaderEpoch
  import opened HeaderTear
  import opened RflFormat
  import opened Words32

  // ----- Addition on bytes

  /** Adding two bytes and a carry leaves a carry. */
  predicate Carry(x: byte, y: byte, c: bool) {
    if c then y >= 255 - x else y > 255 - x
  }

  function Digit(x: byte, y: byte, c: bool): byte {
    if c then x + y + 1 else x + y
  }

  predicate Adds(s: seq<byte>, t: seq<byte>, u: seq<byte>, c: bool)
    requires |s| == |t| == |u|
    decreases |s|
  {
    s != [] ==> u[0] == Digit(s[0], t[0], c) && Adds(s[1..], t[1..], u[1..], Carry(s[0], t[0], c))
  }

  function Unit(c: bool): nat {
    if c then 1 else 0
  }

  lemma NextDigitOf(x: byte, y: byte, c: bool)
    requires y != 255
    ensures Digit(x, y + 1, c) == Digit(x, y, c) + 1
    ensures Carry(x, y + 1, c) <==> Carry(x, y, c) || Digit(x, y, c) == 255
  {
  }

  lemma ZeroDigit(x: byte, c: bool)
    ensures Digit(x, 0, c) == if c then x + 1 else x
    ensures Carry(x, 0, c) <==> c && x == 255
  {
  }

  lemma LastByte(n: nat)
    requires n < 256
    ensures ByteOf(n) == 255 <==> n == 255
    ensures ByteOf((n + 1) % 256) == ByteOf(n) + 1
  {
    hide ByteOf;
    NextDigit(n);
  }

  lemma {:induction false} DigitValue(x: nat, y: nat, c: bool)
    requires x < 256 && y < 256
    ensures Digit(ByteOf(x), ByteOf(y), c) == ByteOf((x + y + Unit(c)) % 256)
    ensures Carry(ByteOf(x), ByteOf(y), c) <==> x + y + Unit(c) >= 256
    decreases y
  {
    hide ByteOf, Digit, Carry;
    LastByte(x);
    if y == 0 {
      ZeroDigit(ByteOf(x), c);
      assert ByteOf(0) == 0 by { ByteOfInverse(0); }
    } else {
      DigitValue(x, y - 1, c);
      OneMore(x, y - 1, c, x + y - 1 + Unit(c));
    }
  }

  lemma StepOver(t: nat)
    requires t < 512
    ensures (t % 256 + 1) % 256 == (t + 1) % 256
    ensures t + 1 >= 256 <==> t >= 256 || t % 256 == 255
  {
  }

  lemma OneMore(x: nat, y: nat, c: bool, t: nat)
    requires x < 256 && y < 255 && t < 512
    requires Digit(ByteOf(x), ByteOf(y), c) == ByteOf(t % 256)
    requires Carry(ByteOf(x), ByteOf(y), c) <==> t >= 256
    ensures Digit(ByteOf(x), ByteOf(y + 1), c) == ByteOf((t + 1) % 256)
    ensures Carry(ByteOf(x), ByteOf(y + 1), c) <==> t + 1 >= 256
  {
    hide ByteOf, Digit, Carry;
    StepOver(t);
    LastByte(y);
    LastByte(t % 256);
    OneMoreDigit(ByteOf(x), ByteOf(y), ByteOf(y + 1), c, ByteOf(t % 256), ByteOf((t + 1) % 256));
  }

  lemma OneMoreDigit(x: byte, y: byte, y1: byte, c: bool, z: byte, z1: byte)
    requires y != 255 && y1 == y + 1 && z1 == z + 1 && Digit(x, y, c) == z
    ensures Digit(x, y1, c) == z1
    ensures Carry(x, y1, c) <==> Carry(x, y, c) || z == 255
  {
    hide Digit, Carry;
    NextDigitOf(x, y, c);
  }

  lemma {:induction false} LittleAdds(a: nat, r: nat, c: bool, k: nat)
    ensures Adds(LittleEndian(a, k), LittleEndian(r, k), LittleEndian(a + r + Unit(c), k), c)
    decreases k
  {
    hide ByteOf, Carry, Digit;
    if k > 0 {
      var x, y := a % 256, r % 256;
      var t := x + y + Unit(c);
      DigitValue(x, y, c);
      SumDigits(a, r, Unit(c));
      LittleAdds(a / 256, r / 256, Carry(ByteOf(x), ByteOf(y), c), k - 1);
    }
  }

  lemma SumDigits(a: nat, r: nat, c: nat)
    requires c <= 1
    ensures var t := a % 256 + r % 256 + c;
            && (a + r + c) % 256 == t % 256
            && (a + r + c) / 256 == a / 256 + r / 256 + if t >= 256 then 1 else 0
  {
  }

  lemma AddsFour(s: seq<byte>, t: seq<byte>, u: seq<byte>)
    requires |s| == |t| == |u| == 4 && Adds(s, t, u, false)
    ensures var c1 := Carry(s[0], t[0], false);
            var c2 := Carry(s[1], t[1], c1);
            var c3 := Carry(s[2], t[2], c2);
            && u[0] == Digit(s[0], t[0], false) && u[1] == Digit(s[1], t[1], c1)
            && u[2] == Digit(s[2], t[2], c2) && u[3] == Digit(s[3], t[3], c3)
  {
    hide Carry, Digit;
    var c1 := Carry(s[0], t[0], false);
    var c2 := Carry(s[1], t[1], c1);
    var s1, t1, u1 := s[1..], t[1..], u[1..];
    assert Adds(s1, t1, u1, c1);
    var s2, t2, u2 := s1[1..], t1[1..], u1[1..];
    assert Adds(s2, t2, u2, c2);
    assert Adds(s2[1..], t2[1..], u2[1..], Carry(s[2], t[2], c2));
  }

  // ----- What a rising count leaves torn

  /** The first `j` bytes of the new count in front of the rest of the old one. */
  function Mixed(s: seq<byte>, u: seq<byte>, j: nat): (m: seq<byte>)
    requires |s| == |u| == 4 && j <= 4
    ensures |m| == 4
  {
    u[..j] + s[j..]
  }

  function Change(x: byte, y: byte): byte {
    x ^ y
  }

  predicate HighTwo(x: byte) {
    x & 0xc0 == 0xc0
  }

  predicate HighOne(x: byte) {
    x & 0x80 != 0
  }

  lemma ChangeAt(s: seq<byte>, u: seq<byte>, i: nat)
    requires |s| == |u| && i < |s|
    ensures XorBytes(s, u)[i] == Change(s[i], u[i])
  {
  }

  lemma NoChange(x: byte)
    ensures Change(x, x) == 0
  {
    XorIsZero(x, x);
  }

  /** The change of a count that is torn between a carry out of its first `j` bytes and the rest. */
  predicate TornChange(d: seq<byte>, j: nat)
    requires |d| == 4
  {
    && HighTwo(d[0]) && d[1] == (if j >= 2 then 255 else 0) && d[2] == (if j >= 3 then 255 else 0) && d[3] == 0
  }

  lemma FirstCarry(x: byte, y: byte)
    requires y <= 64
    ensures Carry(x, y, false) ==> HighTwo(Change(x, Digit(x, y, false)))
  {
  }

  lemma NextCarry(x: byte, c: bool)
    ensures Digit(x, 0, c) == x <==> !c
    ensures Carry(x, 0, c) ==> c && Change(x, Digit(x, 0, c)) == 255
  {
  }

  /** A number of at most 64. */
  predicate Slab(t: seq<byte>) {
    |t| == 4 && t[0] <= 64 && t[1] == t[2] == t[3] == 0
  }

  lemma CountTorn(s: seq<byte>, t: seq<byte>, u: seq<byte>, j: nat)
    requires |s| == |t| == |u| == 4 && Slab(t) && Adds(s, t, u, false) && 1 <= j <= 3
    ensures Mixed(s, u, j) == u || TornChange(XorBytes(s, Mixed(s, u, j)), j)
  {
    hide Carry, Digit, Adds, Change, HighTwo, XorBytes;
    AddsFour(s, t, u);
    var c1 := Carry(s[0], t[0], false);
    var c2 := Carry(s[1], t[1], c1);
    var c3 := Carry(s[2], t[2], c2);
    FirstCarry(s[0], t[0]);
    NextCarry(s[1], c1);
    NextCarry(s[2], c2);
    NextCarry(s[3], c3);
    MixedChange(s, u, j);
  }

  lemma MixedChange(s: seq<byte>, u: seq<byte>, j: nat)
    requires |s| == |u| == 4 && j <= 4
    ensures forall i :: 0 <= i < 4 ==> XorBytes(s, Mixed(s, u, j))[i] == if i < j then Change(s[i], u[i]) else 0
  {
    hide Change, XorBytes;
    forall i | 0 <= i < 4 ensures XorBytes(s, Mixed(s, u, j))[i] == if i < j then Change(s[i], u[i]) else 0 {
      ChangeAt(s, Mixed(s, u, j), i);
      NoChange(s[i]);
    }
  }

  // ----- What a rising epoch can change

  const LIMIT: nat := 7298688

  predicate BelowLimit(t: seq<byte>)
    requires |t| == 4
  {
    t[3] == 0 && (t[2] < 0x6f || (t[2] == 0x6f && (t[1] < 0x5e || (t[1] == 0x5e && t[0] < 0x80))))
  }

  lemma {:induction false} ByteOfMonotone(m: nat, n: nat)
    requires m < n < 256
    ensures ByteOf(m) < ByteOf(n)
    decreases n
  {
    hide ByteOf;
    LastByte(n - 1);
    if m < n - 1 {
      ByteOfMonotone(m, n - 1);
    }
    LessThanNext(ByteOf(m), ByteOf(n - 1));
  }

  lemma LessThanNext(x: byte, y: byte)
    requires y < 255 && x <= y
    ensures x < y + 1
  {
  }

  lemma LimitDigits(r: nat)
    requires r < LIMIT
    ensures BelowLimit(LittleEndian(r, 4))
  {
    hide ByteOf;
    var r1, r2, r3 := r / 256, r / 256 / 256, r / 256 / 256 / 256;
    var t := LittleEndian(r, 4);
    assert t[1..] == LittleEndian(r1, 3);
    assert t[1..][1..] == LittleEndian(r2, 2);
    assert t[1..][1..][1..] == LittleEndian(r3, 1);
    assert t[0] == ByteOf(r % 256) && t[1] == ByteOf(r1 % 256) && t[2] == ByteOf(r2 % 256) && t[3] == ByteOf(r3 % 256);
    assert r3 == 0 && r2 <= 0x6f;
    Constants();
    if r2 < 0x6f {
      ByteOfMonotone(r2, 0x6f);
    } else {
      assert r1 % 256 <= 0x5e;
      if r1 % 256 < 0x5e {
        ByteOfMonotone(r1 % 256, 0x5e);
      } else {
        ByteOfMonotone(r % 256, 0x80);
      }
    }
  }

  lemma Constants()
    ensures ByteOf(0) == 0 && ByteOf(0x6f) == 0x6f && ByteOf(0x5e) == 0x5e && ByteOf(0x80) == 0x80
  {
    hide ByteOf;
    ByteOfInverse(0);
    ByteOfInverse(0x6f);
    ByteOfInverse(0x5e);
    ByteOfInverse(0x80);
  }

  lemma TopDigit(x: byte, c: bool)
    ensures LowOnes(Change(x, Digit(x, 0, c))) && (Change(x, Digit(x, 0, c)) != 0 ==> c)
  {
  }

  /** A small addend that carries takes the top bit away. */
  lemma ThirdDigit(x: byte, y: byte, c: bool)
    requires y <= 0x6f && Carry(x, y, c)
    ensures HighOne(Change(x, Digit(x, y, c)))
    ensures Change(x, Digit(x, y, c)) == 0x90 ==> y == 0x6f && c
  {
  }

  lemma SecondDigit(x: byte, y: byte, c: bool)
    requires y <= 0x5e && Carry(x, y, c) && Change(x, Digit(x, y, c)) == 0xa1
    ensures y == 0x5e && c
  {
  }

  lemma FirstDigit(x: byte, y: byte)
    requires Carry(x, y, false) && Change(x, Digit(x, y, false)) == 0x80
    ensures y >= 0x80
  {
  }

  const SPOT: seq<byte> := [0x80, 0xa1, 0x90, 0x03]

  predicate EpochShape(e: seq<byte>)
    requires |e| == 4
  {
    LowOnes(e[3]) && (e[3] != 0 ==> HighOne(e[2])) && e != SPOT
  }

  lemma EpochChanges(s: seq<byte>, t: seq<byte>, u: seq<byte>)
    requires |s| == |t| == |u| == 4 && Adds(s, t, u, false) && BelowLimit(t)
    ensures EpochShape(XorBytes(s, u))
  {
    hide Carry, Digit, Adds, LowOnes, Change, HighOne;
    AddsFour(s, t, u);
    var c1 := Carry(s[0], t[0], false);
    var c2 := Carry(s[1], t[1], c1);
    var c3 := Carry(s[2], t[2], c2);
    ChangeAt(s, u, 0);
    ChangeAt(s, u, 1);
    ChangeAt(s, u, 2);
    ChangeAt(s, u, 3);
    SmallThird(t);
    TopDigit(s[3], c3);
    if c3 {
      ThirdDigit(s[2], t[2], c2);
      if XorBytes(s, u) == SPOT {
        NotTheSpot(s[0], s[1], t, c2);
      }
    }
  }

  lemma SmallThird(t: seq<byte>)
    requires |t| == 4 && BelowLimit(t)
    ensures t[3] == 0 && t[2] <= 0x6f
  {
  }

  lemma NotTheSpot(x: byte, y: byte, t: seq<byte>, c: bool)
    requires |t| == 4 && BelowLimit(t) && t[2] == 0x6f && c == Carry(y, t[1], Carry(x, t[0], false)) && c
    requires Change(y, Digit(y, t[1], Carry(x, t[0], false))) == 0xa1
    ensures Change(x, Digit(x, t[0], false)) != 0x80
  {
    hide Carry, Digit, Change;
    SecondDigit(y, t[1], Carry(x, t[0], false));
    if Change(x, Digit(x, t[0], false)) == 0x80 {
      FirstDigit(x, t[0]);
    }
  }

  // ----- The two do not meet

  predicate Topped(x: bv32) {
    LowOnes((x >> 24) as byte) && ((x >> 24) as byte != 0 ==> x & 0x00800000 != 0)
  }

  /** What makes 64 words of the first byte, and of the full bytes behind it. */
  const SECOND: bv32 := 0x4232929a
  const THIRD: bv32 := 0x05892fc9

  lemma FullBytes()
    ensures Steps(SECOND, 8) == 0xff00 && Steps(THIRD, 8) == 0xffff00
  {
    StepsSum(SECOND, 4, 4);
    assert Steps(SECOND, 4) == 0x81462f87;
    assert Steps(0x81462f87, 4) == 0xff00;
    StepsSum(THIRD, 4, 4);
    assert Steps(THIRD, 4) == 0x3f664b14;
    assert Steps(0x3f664b14, 4) == 0xffff00;
  }

  lemma OneSpot(w: byte)
    requires HighTwo(w) && Topped(Back8(w))
    ensures Back8(w) == 0x0390a180
  {
  }

  lemma NoSecond(w: byte)
    requires HighTwo(w)
    ensures !Topped(Xor(Back8(w), SECOND))
  {
  }

  lemma NoThird(w: byte)
    requires HighTwo(w)
    ensures !Topped(Xor(Back8(w), THIRD))
  {
  }

  lemma ToppedBytes(e: seq<byte>)
    requires |e| == 4
    ensures Topped(Little(e)) <==> LowOnes(e[3]) && (e[3] != 0 ==> HighOne(e[2]))
    ensures Little(e) == 0x0390a180 ==> e == SPOT
  {
    hide Little, Join;
    LittleIs(e);
    ToppedJoin(e[0], e[1], e[2], e[3]);
    if Little(e) == 0x0390a180 {
      LittleIs(SPOT);
      SpotJoin();
      LittleInjective(e, SPOT);
    }
  }

  lemma ToppedJoin(b0: byte, b1: byte, b2: byte, b3: byte)
    ensures Topped(Join(b0, Join(b1, Join(b2, b3 as bv32)))) <==> LowOnes(b3) && (b3 != 0 ==> HighOne(b2))
  {
  }

  lemma SpotJoin()
    ensures Join(0x80, Join(0xa1, Join(0x90, 0x03))) == 0x0390a180
  {
  }

  function Source(w: byte, j: nat): bv32 {
    if j == 1 then Back8(w) else if j == 2 then Xor(Back8(w), SECOND) else Xor(Back8(w), THIRD)
  }

  lemma SourceSteps(d: seq<byte>, j: nat)
    requires |d| == 4 && 1 <= j <= 3 && TornChange(d, j)
    ensures Steps(Source(d[0], j), 8) == Little(d)
  {
    hide Steps, Back8, Xor, Join, Little;
    LittleIs(d);
    BackIs(d[0]);
    FullBytes();
    StepsLinear(Back8(d[0]), SECOND, 8);
    StepsLinear(Back8(d[0]), THIRD, 8);
    FullJoin(d[0]);
  }

  lemma FullJoin(w: byte)
    ensures Join(w, Join(0, Join(0, 0))) == w as bv32
    ensures Join(w, Join(255, Join(0, 0))) == Xor(w as bv32, 0xff00)
    ensures Join(w, Join(255, Join(255, 0))) == Xor(w as bv32, 0xffff00)
  {
  }

  lemma NeverMeet(e: seq<byte>, d: seq<byte>, j: nat)
    requires |e| == |d| == 4 && 1 <= j <= 3 && EpochShape(e) && TornChange(d, j)
    ensures Steps(Little(e), 8) != Little(d)
  {
    hide Steps, Little, Back8, Xor, Topped, LowOnes, HighOne, HighTwo;
    if Steps(Little(e), 8) == Little(d) {
      SourceSteps(d, j);
      StepsInjective(Little(e), Source(d[0], j), 8);
      ToppedBytes(e);
      if j == 1 {
        OneSpot(d[0]);
      } else if j == 2 {
        NoSecond(d[0]);
      } else {
        NoThird(d[0]);
      }
    }
  }

  // ----- The header write of a flush

  /** What a flush and the mode changes before it do to a header. */
  predicate Flushed(a: Header, b: Header) {
    Successive(a, b) && a.committed <= b.committed <= a.committed + SLAB_RECORDS && a.epoch <= b.epoch
  }

  /** The bytes of the header that hold the low half of the record count, and of the epoch. */
  function CountBytes(h: Header): (s: seq<byte>)
    ensures |s| == 4
  {
    EncodeHeader(h)[40..44]
  }

  function EpochBytes(h: Header): (s: seq<byte>)
    ensures |s| == 4
  {
    EncodeHeader(h)[32..36]
  }

  lemma FlushedCount(a: Header, b: Header) returns (t: seq<byte>)
    requires Flushed(a, b)
    ensures Slab(t) && Adds(CountBytes(a), t, CountBytes(b), false)
  {
    hide LittleEndian, EncodeHeader, Adds;
    WordsOf(a);
    WordsOf(b);
    var d := b.committed - a.committed;
    t := LittleEndian(d, 4);
    LittleAdds(a.committed, d, false, 4);
    SlabDigits(d);
  }

  lemma FlushedEpoch(a: Header, b: Header)
    requires Flushed(a, b) && b.epoch < a.epoch + LIMIT
    ensures EpochShape(XorBytes(EpochBytes(a), EpochBytes(b)))
  {
    hide LittleEndian, EncodeHeader, Adds, EpochShape, BelowLimit;
    WordsOf(a);
    WordsOf(b);
    var r := b.epoch - a.epoch;
    LittleAdds(a.epoch, r, false, 4);
    LimitDigits(r);
    EpochChanges(EpochBytes(a), LittleEndian(r, 4), EpochBytes(b));
  }

  lemma SlabDigits(d: nat)
    requires d <= 64
    ensures Slab(LittleEndian(d, 4))
  {
    hide ByteOf;
    var t := LittleEndian(d, 4);
    ByteOfInverse(64);
    ByteOfInverse(0);
    assert t[1..] == LittleEndian(0, 3) && t[0] == ByteOf(d);
    assert t[1..][1..] == LittleEndian(0, 2);
    assert t[1..][1..][1..] == LittleEndian(0, 1);
    if d < 64 {
      ByteOfMonotone(d, 64);
    }
  }

  /** A flush writes its header. Stopped after any number of bytes, it leaves a file that is accepted
      exactly when it holds the whole old header or the whole new one, as long as the epoch has risen by
      less than 7298688 since the header was last written. */
  lemma TornHeaderFlush(a: Header, b: Header, at: nat)
    requires Flushed(a, b) && b.epoch < a.epoch + LIMIT && at <= HEADER_BYTES
    ensures
      var torn := Torn(EncodeHeader(a), EncodeHeader(b), at);
      HeaderStatus(torn) == Ok <==> torn == EncodeHeader(a) || torn == EncodeHeader(b)
  {
    hide EncodeHeader, HeaderStatus, EpochHides, Torn, AgreeElsewhere, Cleared, Checksum, SelfChecked, FixedFields;
    var before, next := EncodeHeader(a), EncodeHeader(b);
    var torn := Torn(before, next, at);
    TornHeaderExact(a, b, at);
    if 40 < at < 44 && HeaderStatus(torn) == Ok && EpochHides(before, torn) {
      var t := FlushedCount(a, b);
      FlushedEpoch(a, b);
      SuccessiveAgree(a, b);
      MiddleParts(before, next, at);
      var s, u := before[40..44], next[40..44];
      CountTorn(s, t, u, at - 40);
      if Mixed(s, u, at - 40) == u {
        AcceptedEncoding(a);
        AcceptedEncoding(b);
        TornHeaderStatus(a, b, at);
        CoveredComplete(before, next, at);
      } else {
        NeverMeet(XorBytes(before[32..36], next[32..36]), XorBytes(s, Mixed(s, u, at - 40)), at - 40);
        assert EpochHides(before, torn);
        HidesMeans(before, torn);
        assert false;
      }
    }
  }

  lemma HidesMeans(s: seq<byte>, t: seq<byte>)
    requires |s| == |t| == HEADER_BYTES && EpochHides(s, t)
    ensures Steps(Little(XorBytes(s[32..36], t[32..36])), 8) == Little(XorBytes(s[40..44], t[40..44]))
  {
  }

  lemma MiddleParts(before: seq<byte>, next: seq<byte>, at: nat)
    requires |before| == |next| == HEADER_BYTES && 40 < at < 44 && AgreeElsewhere(before, next)
    ensures
      var torn, m := Torn(before, next, at), Mixed(before[40..44], next[40..44], at - 40);
      && torn[32..36] == next[32..36] && torn[40..44] == m
      && (m == next[40..44] ==> Cleared(torn, 56) == Cleared(next, 56))
  {
    var torn, m := Torn(before, next, at), Mixed(before[40..44], next[40..44], at - 40);
    assert torn[40..44] == m;
    assert torn[32..36] == next[32..36];
    if m == next[40..44] {
      forall i | 0 <= i < HEADER_BYTES ensures Cleared(torn, 56)[i] == Cleared(next, 56)[i] {
        if 40 <= i < 44 {
          assert torn[i] == m[i - 40] && next[i] == next[40..44][i - 40];
        }
      }
    }
  }


  // ----- The limit is exact

  /** The epoch before and after: a rise of exactly the limit. */
  const EPOCH: u32 := 26255744

  /** With an epoch that rises by the limit from there on, a count that rises from 255 to 262 is hidden
      when only its first byte is written: the torn header is accepted, and it is neither of the two. */
  lemma TornHeaderAccepted(h: Header)
    ensures
      var a := h.(epoch := EPOCH, committed := 255);
      var b := h.(epoch := EPOCH + LIMIT, committed := 262);
      var torn := Torn(EncodeHeader(a), EncodeHeader(b), 41);
      Flushed(a, b) && HeaderStatus(torn) == Ok && torn != EncodeHeader(a) && torn != EncodeHeader(b)
  {
    hide EncodeHeader, HeaderStatus, EpochHides, LittleEndian;
    var a, b := h.(epoch := EPOCH, committed := 255), h.(epoch := EPOCH + LIMIT, committed := 262);
    var before, next := EncodeHeader(a), EncodeHeader(b);
    var torn := Torn(before, next, 41);
    TornHeaderExact(a, b, 41);
    WordsOf(a);
    WordsOf(b);
    HiddenNumbers();
    assert torn[40] == next[40..44][0] && torn[41] == before[40..44][1] && torn[42] == before[40..44][2] && torn[43] == before[40..44][3];
    assert torn[40..44] == [6, 0, 0, 0] && next[41] == next[40..44][1] && before[40] == before[40..44][0];
    assert torn[32..36] == next[32..36];
    HiddenCount(before, torn);
  }

  lemma HiddenNumbers()
    ensures LittleEndian(EPOCH, 4) == [0x80, 0xa1, 0x90, 0x01]
    ensures LittleEndian(EPOCH + LIMIT, 4) == [0, 0, 0, 0x02]
    ensures LittleEndian(255, 4) == [255, 0, 0, 0]
    ensures LittleEndian(262, 4) == [6, 1, 0, 0]
  {
    Digits([0x80, 0xa1, 0x90, 0x01], EPOCH);
    Digits([0, 0, 0, 0x02], EPOCH + LIMIT);
    Digits([255, 0, 0, 0], 255);
    Digits([6, 1, 0, 0], 262);
  }

  lemma Digits(s: seq<byte>, n: nat)
    requires |s| == 4
    requires n == s[0] as int + 256 * (s[1] as int + 256 * (s[2] as int + 256 * s[3] as int))
    ensures LittleEndian(n, 4) == s
  {
    hide LittleEndian, ByteOf;
    var t := s[1..];
    var u := t[1..];
    var w := u[1..];
    assert FromLittleEndian(w) == s[3] as int;
    assert FromLittleEndian(u) == s[2] as int + 256 * FromLittleEndian(w);
    assert FromLittleEndian(t) == s[1] as int + 256 * FromLittleEndian(u);
    EncodeDecode(s);
  }

  lemma HiddenCount(s: seq<byte>, t: seq<byte>)
    requires |s| == |t| == HEADER_BYTES
    requires s[32..36] == [0x80, 0xa1, 0x90, 0x01] && t[32..36] == [0, 0, 0, 0x02]
    requires s[40..44] == [255, 0, 0, 0] && t[40..44] == [6, 0, 0, 0]
    ensures EpochHides(s, t)
  {
    hide Steps, Little;
    var e, m := XorBytes(s[32..36], t[32..36]), XorBytes(s[40..44], t[40..44]);
    assert e == SPOT && m == [0xf9, 0, 0, 0];
    LittleIs(e);
    LittleIs(m);
    SpotJoin();
    FullJoin(0xf9);
    BackIs(0xf9);
    assert Back8(0xf9) == 0x0390a180;
  }
}
