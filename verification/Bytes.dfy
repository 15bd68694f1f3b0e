/** Bytes, little- and big-endian integers, and packed records of fixed-width fields. */
module Bytes {

  type byte = bv8

  const U16: int := 0x1_0000
  const U32: int := 0x1_0000_0000
  const U64: int := 0x1_0000_0000_0000_0000

  type u16 = x: int | 0 <= x < 0x1_0000
  type u32 = x: int | 0 <= x < 0x1_0000_0000
  type u64 = x: int | 0 <= x < 0x1_0000_0000_0000_0000

  function Pow256(k: nat): (p: int)
    ensures p >= 1
  {
    if k == 0 then 1 else 256 * Pow256(k - 1)
  }

  lemma Pow256Values()
    ensures Pow256(1) == 256 && Pow256(2) == U16 && Pow256(4) == U32 && Pow256(8) == U64
  {
    assert Pow256(2) == 256 * Pow256(1);
    assert Pow256(4) == 256 * 256 * Pow256(2);
    assert Pow256(8) == 256 * 256 * 256 * 256 * Pow256(4);
  }

  /** The byte with the value `n`, reached by counting up. */
  function ByteOf(n: int): byte
    requires 0 <= n < 256
  {
    if n == 0 then 0 else ByteOf(n - 1) + 1
  }

  lemma Increment(b: byte)
    requires b < 255
    ensures (b + 1) as int == b as int + 1
  {
  }

  lemma {:induction false} ByteOfValue(n: int)
    requires 0 <= n < 256
    ensures ByteOf(n) as int == n
  {
    if n > 0 {
      ByteOfValue(n - 1);
      Increment(ByteOf(n - 1));
    }
  }

  lemma ValueInjective(a: byte, b: byte)
    requires a as int == b as int
    ensures a == b
  {
  }

  lemma ByteOfInverse(b: byte)
    ensures ByteOf(b as int) == b
  {
    hide ByteOf;
    ByteOfValue(b as int);
    ValueInjective(ByteOf(b as int), b);
  }

  function Zeros(k: nat): (z: seq<byte>)
    ensures |z| == k
  {
    seq(k, _ => 0)
  }

  /** The low `k` bytes of `n`, least significant first. */
  function LittleEndian(n: nat, k: nat): (s: seq<byte>)
    ensures |s| == k
    decreases k
  {
    if k == 0 then [] else [ByteOf(n % 256)] + LittleEndian(n / 256, k - 1)
  }

  function FromLittleEndian(s: seq<byte>): (n: nat)
    ensures n < Pow256(|s|)
  {
    if s == [] then 0 else s[0] as int + 256 * FromLittleEndian(s[1..])
  }

  lemma {:induction false} DecodeEncode(n: nat, k: nat)
    requires n < Pow256(k)
    ensures FromLittleEndian(LittleEndian(n, k)) == n
    decreases k
  {
    hide ByteOf;
    if k > 0 {
      ByteOfValue(n % 256);
      DecodeEncode(n / 256, k - 1);
    }
  }

  lemma {:induction false} EncodeDecode(s: seq<byte>)
    ensures LittleEndian(FromLittleEndian(s), |s|) == s
  {
    hide ByteOf;
    if s != [] {
      var n, low := FromLittleEndian(s), s[0] as int;
      EncodeDecode(s[1..]);
      assert n / 256 == FromLittleEndian(s[1..]) && n % 256 == low;
      ByteOfInverse(s[0]);
    }
  }

  /** The low `k` bytes of `n`, most significant first. */
  function BigEndian(n: nat, k: nat): (s: seq<byte>)
    ensures |s| == k
    decreases k
  {
    if k == 0 then [] else BigEndian(n / 256, k - 1) + [ByteOf(n % 256)]
  }

  lemma {:induction false} LittleEndianInjective(m: nat, n: nat, k: nat)
    requires LittleEndian(m, k) == LittleEndian(n, k)
    requires m < Pow256(k) && n < Pow256(k)
    ensures m == n
  {
    DecodeEncode(m, k);
    DecodeEncode(n, k);
  }

  lemma {:induction false} BigEndianInjective(m: nat, n: nat, k: nat)
    requires BigEndian(m, k) == BigEndian(n, k)
    requires m < Pow256(k) && n < Pow256(k)
    ensures m == n
    decreases k
  {
    hide ByteOf;
    if k > 0 {
      var a, b := BigEndian(m, k), BigEndian(n, k);
      assert a[..k - 1] == BigEndian(m / 256, k - 1) && b[..k - 1] == BigEndian(n / 256, k - 1);
      assert a[k - 1] == b[k - 1];
      ByteOfValue(m % 256);
      ByteOfValue(n % 256);
      BigEndianInjective(m / 256, n / 256, k - 1);
    }
  }

  // ----- Packed records: a sequence of values, each stored in its own width

  function Width(widths: seq<nat>): (n: nat)
  {
    if widths == [] then 0 else widths[0] + Width(widths[1..])
  }

  lemma {:induction false} WidthPrefix(widths: seq<nat>, i: nat)
    requires i < |widths|
    ensures Width(widths[..i + 1]) == Width(widths[..i]) + widths[i]
    decreases i
  {
    if i == 0 {
      assert widths[..1] == [widths[0]];
      assert widths[..0] == [];
    } else {
      WidthPrefix(widths[1..], i - 1);
      assert widths[1..][..i] == widths[..i + 1][1..];
      assert widths[1..][..i - 1] == widths[..i][1..];
    }
  }

  /** `offsets` lists where the fields begin, and where the last one ends. */
  predicate OffsetsOf(widths: seq<nat>, offsets: seq<nat>) {
    && |offsets| == |widths| + 1 && offsets[0] == 0
    && forall i :: 0 <= i < |widths| ==> offsets[i + 1] == offsets[i] + widths[i]
  }

  lemma {:induction false} WidthAt(widths: seq<nat>, offsets: seq<nat>, i: nat)
    requires OffsetsOf(widths, offsets) && i <= |widths|
    ensures Width(widths[..i]) == offsets[i]
  {
    if i == 0 {
      assert widths[..0] == [];
    } else {
      WidthAt(widths, offsets, i - 1);
      WidthPrefix(widths, i - 1);
    }
  }

  lemma TotalWidth(widths: seq<nat>, offsets: seq<nat>)
    requires OffsetsOf(widths, offsets)
    ensures Width(widths) == offsets[|widths|]
  {
    WidthAt(widths, offsets, |widths|);
    assert widths[..|widths|] == widths;
  }

  predicate Fits(values: seq<nat>, widths: seq<nat>)
  {
    |values| == |widths| && forall i :: 0 <= i < |values| ==> values[i] < Pow256(widths[i])
  }

  function Pack(values: seq<nat>, widths: seq<nat>): (s: seq<byte>)
    requires |values| == |widths|
    ensures |s| == Width(widths)
  {
    if values == [] then [] else LittleEndian(values[0], widths[0]) + Pack(values[1..], widths[1..])
  }

  function Unpack(s: seq<byte>, widths: seq<nat>): (values: seq<nat>)
    requires |s| == Width(widths)
    ensures Fits(values, widths)
    decreases |widths|
  {
    if widths == [] then []
    else [FromLittleEndian(s[..widths[0]])] + Unpack(s[widths[0]..], widths[1..])
  }

  lemma {:induction false} UnpackPack(values: seq<nat>, widths: seq<nat>)
    requires Fits(values, widths)
    ensures Unpack(Pack(values, widths), widths) == values
  {
    if values != [] {
      var s := Pack(values, widths);
      assert s[..widths[0]] == LittleEndian(values[0], widths[0]);
      assert s[widths[0]..] == Pack(values[1..], widths[1..]);
      DecodeEncode(values[0], widths[0]);
      UnpackPack(values[1..], widths[1..]);
    }
  }

  lemma {:induction false} PackUnpack(s: seq<byte>, widths: seq<nat>)
    requires |s| == Width(widths)
    ensures Pack(Unpack(s, widths), widths) == s
    decreases |widths|
  {
    if widths != [] {
      EncodeDecode(s[..widths[0]]);
      PackUnpack(s[widths[0]..], widths[1..]);
      assert s == s[..widths[0]] + s[widths[0]..];
    }
  }

  /** The bytes before field `i` depend on the earlier fields only. */
  lemma {:induction false} PackPrefix(v: seq<nat>, w: seq<nat>, widths: seq<nat>, i: nat)
    requires |v| == |w| == |widths| && i <= |widths|
    requires v[..i] == w[..i]
    ensures Width(widths[..i]) <= Width(widths)
    ensures Pack(v, widths)[..Width(widths[..i])] == Pack(w, widths)[..Width(widths[..i])]
    decreases i
  {
    if i > 0 {
      assert v[0] == v[..i][0] == w[..i][0] == w[0];
      assert v[1..][..i - 1] == v[..i][1..] && w[1..][..i - 1] == w[..i][1..];
      assert widths[1..][..i - 1] == widths[..i][1..];
      PackPrefix(v[1..], w[1..], widths[1..], i - 1);
      var n := Width(widths[1..][..i - 1]);
      assert Pack(v, widths)[..widths[0] + n] == LittleEndian(v[0], widths[0]) + Pack(v[1..], widths[1..])[..n];
      assert Pack(w, widths)[..widths[0] + n] == LittleEndian(w[0], widths[0]) + Pack(w[1..], widths[1..])[..n];
    }
  }

  lemma {:induction false} PackSplit(v: seq<nat>, widths: seq<nat>, i: nat)
    requires |v| == |widths| && i <= |widths|
    ensures Pack(v, widths) == Pack(v[..i], widths[..i]) + Pack(v[i..], widths[i..])
    decreases i
  {
    hide LittleEndian;
    if i == 0 {
      assert v[..0] == [] && v[0..] == v && widths[..0] == [] && widths[0..] == widths;
    } else {
      PackSplit(v[1..], widths[1..], i - 1);
      assert v[1..][..i - 1] == v[..i][1..] && v[1..][i - 1..] == v[i..];
      assert widths[1..][..i - 1] == widths[..i][1..] && widths[1..][i - 1..] == widths[i..];
      var first, near, far := LittleEndian(v[0], widths[0]), Pack(v[..i][1..], widths[..i][1..]), Pack(v[i..], widths[i..]);
      assert Pack(v, widths) == first + (near + far) == (first + near) + far;
    }
  }

  /** Field `i` occupies the bytes after the widths before it. */
  lemma PackSlice(values: seq<nat>, widths: seq<nat>, i: nat)
    requires |values| == |widths| && i < |widths|
    ensures Width(widths[..i]) + widths[i] <= Width(widths)
    ensures var at := Width(widths[..i]);
            Pack(values, widths)[at..at + widths[i]] == LittleEndian(values[i], widths[i])
  {
    hide Width, Pack, LittleEndian;
    PackSplit(values, widths, i);
    PackFirst(values[i..], widths[i..]);
    var front, rest := Pack(values[..i], widths[..i]), Pack(values[i..], widths[i..]);
    assert (front + rest)[|front|..|front| + widths[i]] == rest[..widths[i]];
  }

  lemma PackFirst(values: seq<nat>, widths: seq<nat>)
    requires |values| == |widths| > 0
    ensures widths[0] <= Width(widths)
    ensures Pack(values, widths)[..widths[0]] == LittleEndian(values[0], widths[0])
  {
    hide LittleEndian;
  }

  /** A small number has zeros in its upper bytes. */
  lemma {:induction false} HighBytesZero(n: nat, k: nat, m: nat)
    requires k <= m && n < Pow256(k)
    ensures forall i :: k <= i < m ==> LittleEndian(n, m)[i] == 0
    decreases m
  {
    if m > 0 {
      if k == 0 {
        assert ByteOf(0) == 0;
        HighBytesZero(0, 0, m - 1);
      } else {
        HighBytesZero(n / 256, k - 1, m - 1);
      }
    }
  }

  /** The bytes from field `i` on depend on the later fields only. */
  lemma PackSuffix(v: seq<nat>, w: seq<nat>, widths: seq<nat>, i: nat)
    requires |v| == |w| == |widths| && i <= |widths| && v[i..] == w[i..]
    ensures Width(widths[..i]) <= Width(widths)
    ensures Pack(v, widths)[Width(widths[..i])..] == Pack(w, widths)[Width(widths[..i])..]
  {
    hide Width, Pack;
    PackSplit(v, widths, i);
    PackSplit(w, widths, i);
    var a, b, rest := Pack(v[..i], widths[..i]), Pack(w[..i], widths[..i]), Pack(v[i..], widths[i..]);
    assert (a + rest)[|a|..] == rest && (b + rest)[|b|..] == rest;
  }

  /** Changing field `i` leaves the bytes before it and behind it alone. */
  lemma PackAround(v: seq<nat>, w: seq<nat>, widths: seq<nat>, offsets: seq<nat>, i: nat)
    requires OffsetsOf(widths, offsets) && |v| == |w| == |widths|
    requires i < |v| && w == v[i := w[i]]
    ensures offsets[i] <= offsets[i + 1] <= Width(widths)
    ensures Pack(v, widths)[..offsets[i]] == Pack(w, widths)[..offsets[i]]
    ensures Pack(v, widths)[offsets[i + 1]..] == Pack(w, widths)[offsets[i + 1]..]
  {
    hide Width, Pack;
    WidthAt(widths, offsets, i);
    WidthAt(widths, offsets, i + 1);
    PackPrefix(v, w, widths, i);
    PackSuffix(v, w, widths, i + 1);
  }

  lemma SliceOfPrefix<T>(s: seq<T>, b: nat, e: nat, n: nat)
    requires b <= e <= n <= |s|
    ensures s[..n][b..e] == s[b..e]
  {
  }

  /** A number in the bytes from `from` to `to` of a block, least significant byte first. */
  predicate Field(block: seq<byte>, from: nat, to: nat, value: nat) {
    from <= to <= |block| && block[from..to] == LittleEndian(value, to - from)
  }

  // ----- One-byte numbers

  lemma {:induction false} BigEndianZero(k: nat)
    ensures BigEndian(0, k) == Zeros(k)
  {
    if k > 0 {
      BigEndianZero(k - 1);
    }
  }

  lemma {:induction false} BigEndianSmall(n: nat, k: nat)
    requires n < 256 && k > 0
    ensures BigEndian(n, k) == Zeros(k - 1) + [ByteOf(n)]
  {
    hide ByteOf;
    if k > 1 {
      BigEndianZero(k - 1);
      assert n / 256 == 0 && n % 256 == n;
    }
  }

  lemma {:induction false} LittleEndianZero(k: nat)
    ensures LittleEndian(0, k) == Zeros(k)
    decreases k
  {
    if k > 0 {
      LittleEndianZero(k - 1);
    }
  }

  lemma LittleEndianSmall(n: nat, k: nat)
    requires n < 256 && k > 0
    ensures LittleEndian(n, k) == [ByteOf(n)] + Zeros(k - 1)
  {
    hide ByteOf;
    LittleEndianZero(k - 1);
    assert n / 256 == 0 && n % 256 == n;
  }

  // ----- Machine words

  /** A 32-bit word and its integer value determine each other. */
  lemma Word32(x: bv32)
    ensures 0 <= x as int < U32
    ensures (x as int) as bv32 == x
  {
  }

  lemma Word64(x: bv64)
    ensures 0 <= x as int < U64
    ensures (x as int) as bv64 == x
  {
  }
}
