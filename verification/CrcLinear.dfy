/** CRC-32C without its start value is linear: the register of a combined message is the
    combination of the registers. */
module CrcLinear {
  import opened Bytes
  import opened Crc32c
  import opened Words32

  lemma XorAssociative(x: bv32, y: bv32, z: bv32)
    ensures Xor(Xor(x, y), z) == Xor(x, Xor(y, z))
  {
  }

  lemma XorGroup(x: bv32, y: bv32)
    ensures Xor(x, y) == Xor(y, x) && Xor(x, x) == 0 && Xor(x, 0) == x
  {
  }

  lemma Regroup(x: bv32, y: bv32, a: bv32, b: bv32)
    ensures Xor(Xor(x, a), Xor(y, b)) == Xor(Xor(x, y), Xor(a, b))
  {
    hide Xor;
    XorAssociative(x, a, Xor(y, b));
    XorAssociative(a, y, b);
    XorGroup(a, y);
    XorAssociative(y, a, b);
    XorAssociative(x, y, Xor(a, b));
  }

  /** The polynomial enters exactly when a one is shifted out. */
  function Feedback(c: bv32): bv32 {
    if c & 1 == 0 then 0 else 0x82f63b78
  }

  lemma BitStepIs(c: bv32)
    ensures BitStep(c) == Xor(c >> 1, Feedback(c))
  {
    if c & 1 != 0 {
      assert c & 1 == 1;
    }
  }

  lemma ShiftLinear(x: bv32, y: bv32)
    ensures Xor(x, y) >> 1 == Xor(x >> 1, y >> 1)
  {
    hide Xor;
    XorIs(x, y);
    XorIs(x >> 1, y >> 1);
    ShiftDistributes(x, y);
  }

  lemma XorIs(x: bv32, y: bv32)
    ensures Xor(x, y) == x ^ y
  {
  }

  lemma ShiftDistributes(x: bv32, y: bv32)
    ensures (x ^ y) >> 1 == (x >> 1) ^ (y >> 1)
  {
  }

  lemma LowBit(x: bv32, y: bv32)
    ensures x & 1 == 0 || x & 1 == 1
    ensures Xor(x, y) & 1 == (x & 1) ^ (y & 1)
  {
  }

  lemma FeedbackLinear(x: bv32, y: bv32)
    ensures Feedback(Xor(x, y)) == Xor(Feedback(x), Feedback(y))
  {
    hide Xor;
    LowBit(x, y);
    LowBit(y, x);
    XorGroup(0x82f63b78, 0);
    XorGroup(0, 0);
  }

  lemma BitStepLinear(x: bv32, y: bv32)
    ensures BitStep(Xor(x, y)) == Xor(BitStep(x), BitStep(y))
  {
    hide BitStep, Xor, Feedback;
    BitStepIs(x);
    BitStepIs(y);
    BitStepIs(Xor(x, y));
    FeedbackLinear(x, y);
    ShiftLinear(x, y);
    Regroup(x >> 1, y >> 1, Feedback(x), Feedback(y));
  }

  lemma NibbleStepLinear(x: bv32, y: bv32)
    ensures NibbleStep(Xor(x, y)) == Xor(NibbleStep(x), NibbleStep(y))
  {
    hide BitStep, Xor;
    BitStepLinear(x, y);
    BitStepLinear(BitStep(x), BitStep(y));
    BitStepLinear(BitStep(BitStep(x)), BitStep(BitStep(y)));
    BitStepLinear(BitStep(BitStep(BitStep(x))), BitStep(BitStep(BitStep(y))));
  }

  lemma ByteStepLinear(x: bv32, y: bv32)
    ensures ByteStep(Xor(x, y)) == Xor(ByteStep(x), ByteStep(y))
  {
    hide NibbleStep, Xor;
    NibbleStepLinear(x, y);
    NibbleStepLinear(NibbleStep(x), NibbleStep(y));
  }

  /** The register after `n` zero bytes. */
  function Steps(c: bv32, n: nat): bv32
    decreases n
  {
    if n == 0 then c else Steps(ByteStep(c), n - 1)
  }

  lemma {:induction false} StepsLinear(x: bv32, y: bv32, n: nat)
    ensures Steps(Xor(x, y), n) == Xor(Steps(x, n), Steps(y, n))
    decreases n
  {
    hide ByteStep, Xor;
    if n > 0 {
      ByteStepLinear(x, y);
      StepsLinear(ByteStep(x), ByteStep(y), n - 1);
    }
  }

  lemma {:induction false} StepsOfZero(n: nat)
    ensures Steps(0, n) == 0
  {
    assert ByteStep(0) == 0;
    if n > 0 {
      StepsOfZero(n - 1);
    }
  }

  lemma {:induction false} StepsInjective(x: bv32, y: bv32, n: nat)
    requires Steps(x, n) == Steps(y, n)
    ensures x == y
    decreases n
  {
    hide ByteStep;
    if n > 0 {
      StepsInjective(ByteStep(x), ByteStep(y), n - 1);
      ByteStepInjective(x, y);
    }
  }

  lemma {:induction false} StepsSum(c: bv32, m: nat, n: nat)
    ensures Steps(c, m + n) == Steps(Steps(c, m), n)
    decreases m
  {
    hide ByteStep;
    if m > 0 {
      StepsSum(ByteStep(c), m - 1, n);
    }
  }

  // ----- Messages

  function XorBytes(s: seq<byte>, t: seq<byte>): (d: seq<byte>)
    requires |s| == |t|
    ensures |d| == |s|
  {
    seq(|s|, i requires 0 <= i < |s| => s[i] ^ t[i])
  }

  lemma WithByteLinear(c: bv32, d: bv32, a: byte, b: byte)
    ensures WithByte(Xor(c, d), a ^ b) == Xor(WithByte(c, a), WithByte(d, b))
  {
    hide Xor;
    ByteLinear(a, b);
    Regroup(c, d, a as bv32, b as bv32);
    assert WithByte(Xor(c, d), a ^ b) == Xor(Xor(c, d), (a ^ b) as bv32) by {
      WithByteIs(Xor(c, d), a ^ b);
    }
    WithByteIs(c, a);
    WithByteIs(d, b);
  }

  lemma WithByteIs(c: bv32, b: byte)
    ensures WithByte(c, b) == Xor(c, b as bv32)
  {
  }

  lemma ByteLinear(a: byte, b: byte)
    ensures (a ^ b) as bv32 == Xor(a as bv32, b as bv32)
  {
  }

  /** Two messages of the same length: their registers differ by the register of their difference. */
  lemma {:induction false} FeedLinear(c: bv32, d: bv32, s: seq<byte>, t: seq<byte>)
    requires |s| == |t|
    ensures Feed(Xor(c, d), XorBytes(s, t)) == Xor(Feed(c, s), Feed(d, t))
    decreases |s|
  {
    hide ByteStep, Xor, WithByte;
    if s != [] {
      var u := XorBytes(s, t);
      WithByteLinear(c, d, s[0], t[0]);
      ByteStepLinear(WithByte(c, s[0]), WithByte(d, t[0]));
      FeedLinear(FeedByte(c, s[0]), FeedByte(d, t[0]), s[1..], t[1..]);
      assert u[1..] == XorBytes(s[1..], t[1..]);
    }
  }

  lemma {:induction false} FeedZeros(c: bv32, n: nat)
    ensures Feed(c, Zeros(n)) == Steps(c, n)
    decreases n
  {
    hide ByteStep;
    if n > 0 {
      assert WithByte(c, 0) == c;
      assert Zeros(n)[1..] == Zeros(n - 1);
      FeedZeros(ByteStep(c), n - 1);
    }
  }

  function Up(l: bv32): bv32 {
    l << 8
  }

  function Join(b: byte, l: bv32): bv32 {
    (b as bv32) | Up(l)
  }

  /** The bytes as a word, least significant first. */
  function Little(s: seq<byte>): bv32
    requires |s| <= 4
    decreases |s|
  {
    if s == [] then 0 else Join(s[0], Little(s[1..]))
  }

  lemma ShiftOut(l: bv32)
    requires l & 0xff000000 == 0
    ensures ByteStep(Up(l)) == l
  {
  }

  lemma JoinIsXor(b: byte, l: bv32)
    ensures Join(b, l) == Xor(b as bv32, Up(l))
  {
  }

  lemma JoinBound(b: byte, l: bv32)
    ensures Join(b, 0) & 0xffffff00 == 0
    ensures l & 0xffffff00 == 0 ==> Join(b, l) & 0xffff0000 == 0
    ensures l & 0xffff0000 == 0 ==> Join(b, l) & 0xff000000 == 0
  {
  }

  lemma Wider(l: bv32)
    ensures l & 0xffffff00 == 0 ==> l & 0xffff0000 == 0
    ensures l & 0xffff0000 == 0 ==> l & 0xff000000 == 0
  {
  }

  lemma LittleBound(s: seq<byte>)
    requires |s| <= 3
    ensures |s| == 0 ==> Little(s) == 0
    ensures |s| <= 1 ==> Little(s) & 0xffffff00 == 0
    ensures |s| <= 2 ==> Little(s) & 0xffff0000 == 0
    ensures Little(s) & 0xff000000 == 0
  {
    hide Join;
    if s != [] {
      LittleBound(s[1..]);
      JoinBound(s[0], Little(s[1..]));
      Wider(Little(s));
    }
  }

  /** At most four bytes can be combined with the register at once. */
  lemma {:induction false} FeedLittle(c: bv32, s: seq<byte>)
    requires |s| <= 4
    ensures Feed(c, s) == Steps(Xor(c, Little(s)), |s|)
    decreases |s|
  {
    hide ByteStep, Xor, WithByte, Join, Up;
    if s == [] {
      XorGroup(c, 0);
    } else {
      var l := Little(s[1..]);
      LittleBound(s[1..]);
      ShiftOut(l);
      JoinIsXor(s[0], l);
      WithByteIs(c, s[0]);
      XorAssociative(c, s[0] as bv32, Up(l));
      ByteStepLinear(WithByte(c, s[0]), Up(l));
      FeedLittle(FeedByte(c, s[0]), s[1..]);
    }
  }

  lemma JoinInjective(a: byte, l: bv32, b: byte, m: bv32)
    requires l & 0xff000000 == 0 && m & 0xff000000 == 0 && Join(a, l) == Join(b, m)
    ensures a == b && l == m
  {
  }

  lemma {:induction false} LittleInjective(s: seq<byte>, t: seq<byte>)
    requires |s| == |t| <= 4 && Little(s) == Little(t)
    ensures s == t
    decreases |s|
  {
    hide Join;
    if s != [] {
      LittleBound(s[1..]);
      LittleBound(t[1..]);
      JoinInjective(s[0], Little(s[1..]), t[0], Little(t[1..]));
      LittleInjective(s[1..], t[1..]);
      assert s == [s[0]] + s[1..] && t == [t[0]] + t[1..];
    }
  }

  lemma {:induction false} LittleZeros(n: nat)
    requires n <= 4
    ensures Little(Zeros(n)) == 0
  {
    if n > 0 {
      LittleZeros(n - 1);
      assert Zeros(n)[1..] == Zeros(n - 1);
    }
  }

  lemma LittleIs(s: seq<byte>)
    requires 0 < |s| <= 4
    ensures |s| == 1 ==> Little(s) == s[0] as bv32
    ensures |s| == 2 ==> Little(s) == Join(s[0], s[1] as bv32)
    ensures |s| == 3 ==> Little(s) == Join(s[0], Join(s[1], s[2] as bv32))
    ensures |s| == 4 ==> Little(s) == Join(s[0], Join(s[1], Join(s[2], s[3] as bv32)))
  {
    hide Join;
    JoinZero(s[|s| - 1]);
    LittleSteps(s);
  }

  lemma JoinZero(b: byte)
    ensures Join(b, 0) == b as bv32
  {
  }

  lemma LittleSteps(s: seq<byte>)
    requires 0 < |s| <= 4
    ensures |s| == 1 ==> Little(s) == Join(s[0], 0)
    ensures |s| == 2 ==> Little(s) == Join(s[0], Join(s[1], 0))
    ensures |s| == 3 ==> Little(s) == Join(s[0], Join(s[1], Join(s[2], 0)))
    ensures |s| == 4 ==> Little(s) == Join(s[0], Join(s[1], Join(s[2], Join(s[3], 0))))
  {
    hide Join;
    if |s| > 1 {
      LittleSteps(s[1..]);
    }
  }

  /** Storing a word and reading bytes as a word are inverse to each other. */
  lemma StoreIs(x: bv32, s: seq<byte>)
    requires |s| == 4
    ensures s == StoreLittle(x) <==> Little(s) == x
  {
    hide Join, StoreLittle;
    LittleOfStore(x);
    if Little(s) == x {
      LittleInjective(s, StoreLittle(x));
    }
  }

  lemma LittleOfStore(x: bv32)
    ensures Little(StoreLittle(x)) == x
  {
    hide Join;
    LittleIs(StoreLittle(x));
    Rejoined(x);
  }

  lemma Rejoined(x: bv32)
    ensures Join((x & 0xff) as byte, Join(((x >> 8) & 0xff) as byte, Join(((x >> 16) & 0xff) as byte, ((x >> 24) & 0xff) as byte as bv32))) == x
  {
  }

  /** Bytes that are zero clear their part of the word. */
  lemma ClearParts(s: seq<byte>)
    requires |s| == 4
    ensures s[3] == 0 ==> Little(s) & 0xff000000 == 0
    ensures s[2] == s[3] == 0 ==> Little(s) & 0xffff0000 == 0
    ensures s[1] == s[2] == s[3] == 0 ==> Little(s) == s[0] as bv32
    ensures s[0] == 0 ==> Little(s) & 0x000000ff == 0
    ensures s[0] == s[1] == 0 ==> Little(s) & 0x0000ffff == 0
    ensures s[0] == s[1] == s[2] == 0 ==> Little(s) == (s[3] as bv32) << 24
  {
    hide Little, Join;
    var word, p, q, r, t := Little(s), s[0], s[1], s[2], s[3];
    assert word == Join(p, Join(q, Join(r, t as bv32))) by {
      LittleIs(s);
    }
    ClearedParts(word, p, q, r, t);
  }

  lemma ClearedParts(word: bv32, p: byte, q: byte, r: byte, t: byte)
    requires word == Join(p, Join(q, Join(r, t as bv32)))
    ensures t == 0 ==> word & 0xff000000 == 0
    ensures r == t == 0 ==> word & 0xffff0000 == 0
    ensures q == r == t == 0 ==> word == p as bv32
    ensures p == 0 ==> word & 0x000000ff == 0
    ensures p == q == 0 ==> word & 0x0000ffff == 0
    ensures p == q == r == 0 ==> word == (t as bv32) << 24
  {
  }
}
