/** CRC-32C in its reflected, bit-serial form (section 12.1 of RFC 3720). */
module Crc32c {
  import opened Bytes

  function BitStep(c: bv32): bv32 {
    (c >> 1) ^ (0x82f63b78 & (0 - (c & 1)))
  }

  function BitSteps(c: bv32, n: nat): bv32
    decreases n
  {
    if n == 0 then c else BitStep(BitSteps(c, n - 1))
  }

  function NibbleStep(c: bv32): bv32 {
    BitStep(BitStep(BitStep(BitStep(c))))
  }

  /** Shifts eight message bits through the register. */
  function ByteStep(c: bv32): bv32 {
    NibbleStep(NibbleStep(c))
  }

  /** The byte is combined with the low end of the register. */
  function WithByte(c: bv32, b: byte): bv32 {
    c ^ (b as bv32)
  }

  function FeedByte(c: bv32, b: byte): bv32 {
    ByteStep(WithByte(c, b))
  }

  /** The register after the message `s`, started from `c`. */
  function Feed(c: bv32, s: seq<byte>): bv32
    decreases |s|
  {
    if s == [] then c else Feed(FeedByte(c, s[0]), s[1..])
  }

  function Complement(x: bv32): bv32 {
    !x
  }

  function Checksum(s: seq<byte>): bv32 {
    Complement(Feed(0xffffffff, s))
  }

  // ----- The loops

  method Update(start: bv32, data: seq<byte>) returns (crc: bv32)
    ensures crc == Feed(start, data)
  {
    hide ByteStep, NibbleStep, BitStep, WithByte;
    crc := start;
    for i := 0 to |data|
      invariant Feed(start, data) == Feed(crc, data[i..])
    {
      assert data[i..][0] == data[i] && data[i..][1..] == data[i + 1..];
      crc := WithByte(crc, data[i]);
      ghost var entry := crc;
      for bit := 0 to 8
        invariant crc == BitSteps(entry, bit)
      {
        var mask := 0 - (crc & 1);
        ghost var before := crc;
        crc := (crc >> 1) ^ (0x82f63b78 & mask);
        StepDefinition(before);
      }
      EightSteps(entry);
    }
    assert data[|data|..] == [];
  }

  lemma StepDefinition(c: bv32)
    ensures BitStep(c) == (c >> 1) ^ (0x82f63b78 & (0 - (c & 1)))
  {
  }

  lemma EightSteps(c: bv32)
    ensures BitSteps(c, 8) == ByteStep(c)
  {
    hide BitStep;
    assert BitSteps(c, 4) == NibbleStep(c);
    assert BitSteps(c, 8) == NibbleStep(BitSteps(c, 4));
  }

  // ----- Message structure

  lemma {:induction false} FeedConcat(c: bv32, a: seq<byte>, b: seq<byte>)
    ensures Feed(c, a + b) == Feed(Feed(c, a), b)
    decreases |a|
  {
    hide FeedByte;
    if a == [] {
      assert a + b == b;
    } else {
      assert (a + b)[0] == a[0] && (a + b)[1..] == a[1..] + b;
      FeedConcat(FeedByte(c, a[0]), a[1..], b);
    }
  }

  // ----- The register is an injective function of its past

  /** Two registers agree on the bits of `m`. */
  predicate Agree(x: bv32, y: bv32, m: bv32) {
    x & m == y & m
  }

  lemma AgreeSelf(x: bv32, m: bv32)
    ensures Agree(x, x, m)
  {
  }

  /** When two registers agree on `m` after four bits, and `m` covers the four bits that entered
      last, they agreed before on `m` moved back by four and on the four bits shifted out. */
  lemma NibbleBack(x: bv32, y: bv32, m: bv32)
    requires m & 0xf0000000 == 0xf0000000
    requires Agree(NibbleStep(x), NibbleStep(y), m)
    ensures Agree(x, y, (m << 4) | 0xf)
  {
  }

  lemma ByteBack(x: bv32, y: bv32, m: bv32)
    requires m & 0xff000000 == 0xff000000
    requires Agree(ByteStep(x), ByteStep(y), m)
    ensures Agree(x, y, (m << 8) | 0xff)
  {
    hide NibbleStep, Agree;
    assert (((m << 4) | 0xf) << 4) | 0xf == (m << 8) | 0xff;
    NibbleBack(NibbleStep(x), NibbleStep(y), m);
    NibbleBack(x, y, (m << 4) | 0xf);
  }

  lemma ByteStepInjective(x: bv32, y: bv32)
    requires ByteStep(x) == ByteStep(y)
    ensures x == y
  {
    hide ByteStep;
    assert Agree(ByteStep(x), ByteStep(y), 0xffffffff);
    ByteBack(x, y, 0xffffffff);
  }

  lemma WithByteInjective(c: bv32, d: bv32, b: byte)
    ensures WithByte(c, b) == WithByte(d, b) ==> c == d
  {
  }

  lemma FeedByteInjective(c: bv32, d: bv32, b: byte)
    requires FeedByte(c, b) == FeedByte(d, b)
    ensures c == d
  {
    hide ByteStep, WithByte;
    ByteStepInjective(WithByte(c, b), WithByte(d, b));
    WithByteInjective(c, d, b);
  }

  lemma {:induction false} FeedInjective(c: bv32, d: bv32, s: seq<byte>)
    requires Feed(c, s) == Feed(d, s)
    ensures c == d
    decreases |s|
  {
    hide FeedByte;
    if s != [] {
      FeedInjective(FeedByte(c, s[0]), FeedByte(d, s[0]), s[1..]);
      FeedByteInjective(c, d, s[0]);
    }
  }

  // ----- Bursts of at most 32 bits

  lemma LowByteBits(x: bv32, y: bv32, a: byte, b: byte, m: bv32)
    requires Agree(WithByte(x, a), WithByte(y, b), (m << 8) | 0xff)
    ensures Agree(x, y, m << 8)
    ensures Agree(x, y, 0xff) ==> a == b
  {
  }

  /** Going back over one byte keeps eight fewer bits of the register, and the byte itself is
      determined by the register before it. */
  lemma FeedByteBack(x: bv32, y: bv32, a: byte, b: byte, m: bv32)
    requires m & 0xff000000 == 0xff000000
    requires Agree(FeedByte(x, a), FeedByte(y, b), m)
    ensures Agree(x, y, m << 8)
    ensures Agree(x, y, 0xff) ==> a == b
  {
    hide ByteStep, Agree, WithByte;
    ByteBack(WithByte(x, a), WithByte(y, b), m);
    LowByteBits(x, y, a, b, m);
  }

  /** Four message bytes fill the register: no two four-byte windows lead to the same one. */
  lemma WindowInjective(c: bv32, a: seq<byte>, b: seq<byte>)
    requires |a| == |b| == 4
    requires Feed(c, a) == Feed(c, b)
    ensures a == b
  {
    hide FeedByte, Agree;
    var x1, y1 := FeedByte(c, a[0]), FeedByte(c, b[0]);
    var x2, y2 := FeedByte(x1, a[1]), FeedByte(y1, b[1]);
    var x3, y3 := FeedByte(x2, a[2]), FeedByte(y2, b[2]);
    FeedFour(c, a);
    FeedFour(c, b);
    AgreeSelf(FeedByte(x3, a[3]), 0xffffffff);
    FeedByteBack(x3, y3, a[3], b[3], 0xffffffff);
    FeedByteBack(x2, y2, a[2], b[2], 0xffffff00);
    FeedByteBack(x1, y1, a[1], b[1], 0xffff0000);
    FeedByteBack(c, c, a[0], b[0], 0xff000000);
    AgreeSelf(c, 0xff);
    AgreeSelf(x1, 0xff);
    AgreeSelf(x2, 0xff);
    AgreeSelf(x3, 0xff);
  }

  lemma FeedFour(c: bv32, a: seq<byte>)
    requires |a| == 4
    ensures Feed(c, a) == FeedByte(FeedByte(FeedByte(FeedByte(c, a[0]), a[1]), a[2]), a[3])
  {
    hide FeedByte;
    assert a == [a[0]] + ([a[1]] + ([a[2]] + [a[3]]));
    FeedConcat(c, [a[0]], [a[1]] + ([a[2]] + [a[3]]));
    FeedConcat(FeedByte(c, a[0]), [a[1]], [a[2]] + [a[3]]);
    FeedConcat(FeedByte(FeedByte(c, a[0]), a[1]), [a[2]], [a[3]]);
  }

  /** `s` and `t` may differ only in the four bytes from `at` on. */
  predicate SameOutside(s: seq<byte>, t: seq<byte>, at: nat) {
    && |s| == |t|
    && forall i :: 0 <= i < |s| && !(at <= i < at + 4) ==> s[i] == t[i]
  }

  lemma BurstDetected(s: seq<byte>, t: seq<byte>, at: nat)
    requires at + 4 <= |s|
    requires SameOutside(s, t, at)
    requires Checksum(s) == Checksum(t)
    ensures s == t
  {
    hide Feed, Complement;
    ComplementInjective(Feed(0xffffffff, s), Feed(0xffffffff, t));
    RegisterDeterminesWindow(0xffffffff, s, t, at);
  }

  lemma ComplementInjective(x: bv32, y: bv32)
    requires Complement(x) == Complement(y)
    ensures x == y
  {
  }

  lemma RegisterDeterminesWindow(start: bv32, s: seq<byte>, t: seq<byte>, at: nat)
    requires at + 4 <= |s|
    requires SameOutside(s, t, at)
    requires Feed(start, s) == Feed(start, t)
    ensures s == t
  {
    hide FeedByte, Feed;
    SplitWindow(start, s, at);
    SplitWindow(start, t, at);
    assert s[..at] == t[..at] && s[at + 4..] == t[at + 4..];
    var c := Feed(start, s[..at]);
    FeedInjective(Feed(c, s[at..at + 4]), Feed(c, t[at..at + 4]), s[at + 4..]);
    WindowInjective(c, s[at..at + 4], t[at..at + 4]);
    assert s == s[..at] + s[at..at + 4] + s[at + 4..];
    assert t == t[..at] + t[at..at + 4] + t[at + 4..];
  }

  lemma SplitWindow(start: bv32, s: seq<byte>, at: nat)
    requires at + 4 <= |s|
    ensures Feed(start, s) == Feed(Feed(Feed(start, s[..at]), s[at..at + 4]), s[at + 4..])
  {
    hide FeedByte, Feed;
    assert s == s[..at] + (s[at..at + 4] + s[at + 4..]);
    FeedConcat(start, s[..at], s[at..at + 4] + s[at + 4..]);
    FeedConcat(Feed(start, s[..at]), s[at..at + 4], s[at + 4..]);
  }
}
