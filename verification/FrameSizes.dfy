/** What the size of a frame counts, and how many records a ring can hold. */
module FrameSizes {
  import opened Arith
  import opened Bytes
  import opened HyperMemorySpec

  // ----- Text in UTF-8

  type Point = n: nat | n < 0x11_0000

  function Paired(high: int, low: int): Point
    requires 0xd800 <= high < 0xdc00 && 0xdc00 <= low < 0xe000
  {
    0x1_0000 + (high - 0xd800) * 0x400 + (low - 0xdc00)
  }

  /** The code points of UTF-16 text: a high and a low surrogate are one, a lone surrogate is replaced. */
  function CodePoints(s: Text): seq<Point> {
    if s == [] then []
    else if 0xd800 <= s[0] < 0xdc00 && |s| > 1 && 0xdc00 <= s[1] < 0xe000 then [Paired(s[0], s[1])] + CodePoints(s[2..])
    else [if 0xd800 <= s[0] < 0xe000 then 0xfffd else s[0]] + CodePoints(s[1..])
  }

  /** One code point in UTF-8 (section 3 of RFC 3629). */
  function Encoded(p: Point): seq<nat> {
    if p < 0x80 then [p]
    else if p < 0x800 then [0xc0 + p / 64, 0x80 + p % 64]
    else if p < 0x1_0000 then [0xe0 + p / 64 / 64, 0x80 + p / 64 % 64, 0x80 + p % 64]
    else [0xf0 + p / 64 / 64 / 64, 0x80 + p / 64 / 64 % 64, 0x80 + p / 64 % 64, 0x80 + p % 64]
  }

  function EncodedAll(points: seq<Point>): seq<nat> {
    if points == [] then [] else Encoded(points[0]) + EncodedAll(points[1..])
  }

  function Utf8(s: Text): seq<nat> {
    EncodedAll(CodePoints(s))
  }

  /** How many bytes a code point takes, by its first byte alone. */
  function Taken(first: nat): nat {
    if first < 0x80 then 1 else if first < 0xe0 then 2 else if first < 0xf0 then 3 else 4
  }

  /** The code point that some bytes stand for. */
  function Decoded(bytes: seq<nat>): nat {
    if |bytes| == 1 then bytes[0]
    else if |bytes| == 2 then bytes[0] % 32 * 64 + bytes[1] % 64
    else if |bytes| == 3 then (bytes[0] % 16 * 64 + bytes[1] % 64) * 64 + bytes[2] % 64
    else if |bytes| == 4 then ((bytes[0] % 8 * 64 + bytes[1] % 64) * 64 + bytes[2] % 64) * 64 + bytes[3] % 64
    else 0
  }

  lemma EncodedReadsBack(p: Point)
    ensures |Encoded(p)| > 0 && Taken(Encoded(p)[0]) == |Encoded(p)|
    ensures Decoded(Encoded(p)) == p
  {
    if p < 0x80 {
    } else if p < 0x800 {
      TwoBytes(p);
    } else if p < 0x1_0000 {
      ThreeBytes(p);
    } else {
      FourBytes(p);
    }
  }

  lemma Digits(p: nat)
    ensures p == p / 64 * 64 + p % 64 && (0x80 + p % 64) % 64 == p % 64
  {
  }

  lemma TwoBytes(p: Point)
    requires 0x80 <= p < 0x800
    ensures Taken(Encoded(p)[0]) == 2 == |Encoded(p)| && Decoded(Encoded(p)) == p
  {
    Digits(p);
  }

  lemma ThreeBytes(p: Point)
    requires 0x800 <= p < 0x1_0000
    ensures Taken(Encoded(p)[0]) == 3 == |Encoded(p)| && Decoded(Encoded(p)) == p
  {
    Digits(p);
    Digits(p / 64);
    assert (0xe0 + p / 64 / 64) % 16 == p / 64 / 64;
  }

  lemma FourBytes(p: Point)
    requires 0x1_0000 <= p
    ensures Taken(Encoded(p)[0]) == 4 == |Encoded(p)| && Decoded(Encoded(p)) == p
  {
    Digits(p);
    Digits(p / 64);
    Digits(p / 64 / 64);
    assert (0xf0 + p / 64 / 64 / 64) % 8 == p / 64 / 64 / 64;
  }

  /** The bytes tell where every code point ends and which one it is. */
  lemma {:induction false} EncodedInjective(a: seq<Point>, b: seq<Point>)
    requires EncodedAll(a) == EncodedAll(b)
    ensures a == b
    decreases |a|
  {
    hide Encoded, Decoded, Taken;
    if a != [] { EncodedReadsBack(a[0]); }
    if b != [] { EncodedReadsBack(b[0]); }
    if a != [] && b != [] {
      var n := |Encoded(a[0])|;
      assert EncodedAll(a)[..n] == Encoded(a[0]) && EncodedAll(b)[..n] == Encoded(b[0]);
      assert EncodedAll(a)[n..] == EncodedAll(a[1..]) && EncodedAll(b)[n..] == EncodedAll(b[1..]);
      EncodedInjective(a[1..], b[1..]);
    }
  }

  /** The length that a frame counts for its kind is the length of the kind in UTF-8. */
  lemma {:induction false} LengthIsUtf8(s: Text)
    ensures Utf8Length(s) == |Utf8(s)|
  {
    if s != [] {
      var points := CodePoints(s);
      if 0xd800 <= s[0] < 0xdc00 && |s| > 1 && 0xdc00 <= s[1] < 0xe000 {
        LengthIsUtf8(s[2..]);
        assert points[1..] == CodePoints(s[2..]);
      } else {
        LengthIsUtf8(s[1..]);
        assert points[1..] == CodePoints(s[1..]);
      }
    }
  }

  // ----- Frames

  /** A frame is the kind in UTF-8, the payload and 64 bytes more. */
  lemma FrameCounts(r: Record)
    ensures Frame(r) == 64 + |Utf8(r.kind)| + |r.payload|
  {
    hide Utf8, Utf8Length;
    LengthIsUtf8(r.kind);
  }

  lemma {:induction false} FramesBound(q: seq<Record>)
    ensures 64 * |q| <= Total(q)
  {
    if q != [] {
      FrameCounts(q[0]);
      FramesBound(q[1..]);
    }
  }

  /** So a ring never holds more than one record for every 64 bytes of its capacity. */
  lemma RecordsBound(ring: Ring, history: seq<Record>, capacity: nat)
    requires Sound(ring, history, capacity)
    ensures 64 * |ring.records| <= capacity
  {
    hide Total, Fit;
    FramesBound(ring.records);
  }

  predicate Uniform(q: seq<Record>, frame: nat) {
    forall i :: 0 <= i < |q| ==> Frame(q[i]) == frame
  }

  lemma {:induction false} UniformTotal(q: seq<Record>, frame: nat)
    requires Uniform(q, frame)
    ensures Total(q) == |q| * frame
  {
    hide Frame;
    if q != [] {
      UniformTotal(q[1..], frame);
      assert (|q| - 1) * frame + frame == |q| * frame;
    }
  }

  /** Of records of equal size as many are kept as the capacity holds. */
  lemma {:induction false} UniformFit(q: seq<Record>, frame: nat, capacity: nat)
    requires Uniform(q, frame) && frame > 0
    ensures |Fit(q, capacity)| == if |q| <= capacity / frame then |q| else capacity / frame
  {
    hide Frame;
    UniformTotal(q, frame);
    QuotientBelow(capacity, frame, |q|);
    if |q| * frame > capacity {
      UniformFit(q[1..], frame, capacity);
    } else {
      Holds(|q|, frame, capacity);
    }
  }

  lemma Holds(n: nat, frame: nat, capacity: nat)
    requires frame > 0 && n * frame <= capacity
    ensures n <= capacity / frame
  {
    QuotientBelow(capacity, frame, n);
  }
}
