/** The hash that links each committed record to the one before it: 64-bit FNV-1a over the record. */
module RecordChain {
  import opened Bytes

  const OFFSET: u64 := 1469598103934665603
  const PRIME: nat := 1099511628211

  function ByteXor(a: byte, b: byte): byte {
    a ^ b
  }

  /** A 64-bit word combined with a byte: only its lowest byte changes. */
  function Xor(x: u64, b: byte): u64 {
    x / 256 * 256 + (ByteXor(ByteOf(x % 256), b) as int)
  }

  function Mix(hash: u64, b: byte): u64 {
    Xor(hash, b) * PRIME % U64
  }

  function Hash(hash: u64, bytes: seq<byte>): u64
    decreases |bytes|
  {
    if bytes == [] then hash else Mix(Hash(hash, bytes[..|bytes| - 1]), bytes[|bytes| - 1])
  }

  method HashBytes(start: u64, bytes: seq<byte>) returns (hash: u64)
    ensures hash == Hash(start, bytes)
  {
    hide Mix;
    hash := start;
    for i := 0 to |bytes|
      invariant hash == Hash(start, bytes[..i])
    {
      hash := Mix(hash, bytes[i]);
      assert bytes[..i + 1][..i] == bytes[..i];
    }
    assert bytes[..|bytes|] == bytes;
  }

  /** The prime has an inverse modulo 2^64, so the multiplication loses nothing. */
  lemma TimesInjective(x: u64, y: u64)
    requires x * PRIME % U64 == y * PRIME % U64
    ensures x == y
  {
    var q := x * PRIME / U64 - y * PRIME / U64;
    var d := x - y;
    assert d * PRIME == q * U64;
    assert 0xce965057aff6957b * PRIME == 1 + 887285111055 * U64;
    assert d == U64 * (0xce965057aff6957b * q - 887285111055 * d);
  }

  lemma XorInjective(x: u64, y: u64, a: byte, b: byte)
    ensures Xor(x, a) == Xor(y, a) ==> x == y
    ensures Xor(x, a) == Xor(x, b) ==> a == b
  {
    hide ByteOf, ByteXor;
    ByteOfValue(x % 256);
    ByteOfValue(y % 256);
    var p, q := ByteOf(x % 256), ByteOf(y % 256);
    ByteXorLaws(p, q, a);
    ByteXorLaws(a, b, p);
    if Xor(x, a) == Xor(y, a) {
      SameParts(x / 256, y / 256, ByteXor(p, a), ByteXor(q, a));
    }
    if Xor(x, a) == Xor(x, b) {
      SameParts(x / 256, x / 256, ByteXor(p, a), ByteXor(p, b));
    }
  }

  lemma ByteXorLaws(p: byte, q: byte, a: byte)
    ensures ByteXor(p, a) == ByteXor(q, a) ==> p == q
    ensures ByteXor(a, p) == ByteXor(a, q) ==> p == q
    ensures ByteXor(p, a) == ByteXor(a, p)
  {
  }

  lemma SameParts(x: nat, y: nat, a: byte, b: byte)
    requires x * 256 + (a as int) == y * 256 + (b as int)
    ensures x == y && a == b
  {
    SameDigits(x, y, a as int, b as int);
    ValueInjective(a, b);
  }

  lemma SameDigits(x: nat, y: nat, m: nat, n: nat)
    requires x * 256 + m == y * 256 + n && m < 256 && n < 256
    ensures x == y && m == n
  {
  }

  lemma MixInjective(g: u64, h: u64, a: byte, b: byte)
    ensures Mix(g, a) == Mix(h, a) ==> g == h
    ensures Mix(g, a) == Mix(g, b) ==> a == b
  {
    hide Xor;
    XorInjective(g, h, a, b);
    if Mix(g, a) == Mix(h, a) {
      TimesInjective(Xor(g, a), Xor(h, a));
    }
    if Mix(g, a) == Mix(g, b) {
      TimesInjective(Xor(g, a), Xor(g, b));
    }
  }

  lemma {:induction false} HashInjective(g: u64, h: u64, bytes: seq<byte>)
    requires Hash(g, bytes) == Hash(h, bytes)
    ensures g == h
    decreases |bytes|
  {
    hide Mix;
    if bytes != [] {
      var front, last := bytes[..|bytes| - 1], bytes[|bytes| - 1];
      MixInjective(Hash(g, front), Hash(h, front), last, last);
      HashInjective(g, h, front);
    }
  }

  /** Changing one byte always changes the hash. */
  lemma {:induction false} OneByteShows(h: u64, bytes: seq<byte>, at: nat, b: byte)
    requires at < |bytes| && b != bytes[at]
    ensures Hash(h, bytes[at := b]) != Hash(h, bytes)
    decreases |bytes|
  {
    hide Mix;
    var last := |bytes| - 1;
    var other := bytes[at := b];
    if at == last {
      assert other[..last] == bytes[..last];
      MixInjective(Hash(h, bytes[..last]), Hash(h, bytes[..last]), b, bytes[last]);
    } else {
      assert other[..last] == bytes[..last][at := b];
      OneByteShows(h, bytes[..last], at, b);
      MixInjective(Hash(h, other[..last]), Hash(h, bytes[..last]), bytes[last], bytes[last]);
    }
  }

  /** An empty chain starts from the offset basis. */
  function Start(prior: u64): u64 {
    if prior == 0 then OFFSET else prior
  }

  function Link(prior: u64, content: seq<byte>): u64 {
    Hash(Start(prior), content)
  }

  lemma LinkIs(prior: u64, content: seq<byte>)
    ensures Link(prior, content) == Hash(if prior == 0 then OFFSET else prior, content)
  {
  }

  /** The one pair of different links that continues alike: zero stands for an empty chain, and an empty
      chain starts from the offset basis. */
  predicate Clash(g: u64, h: u64) {
    (g == 0 && h == OFFSET) || (g == OFFSET && h == 0)
  }

  /** Two chains that differ stay different while the same record is committed, unless they clash. */
  lemma DifferenceStays(g: u64, h: u64, content: seq<byte>)
    requires g != h
    ensures Link(g, content) == Link(h, content) <==> Clash(g, h)
  {
    hide Hash;
    if Link(g, content) == Link(h, content) {
      HashInjective(Start(g), Start(h), content);
    }
  }

  lemma AlteredRecordShows(prior: u64, content: seq<byte>, at: nat, b: byte)
    requires at < |content| && b != content[at]
    ensures Link(prior, content[at := b]) != Link(prior, content)
  {
    OneByteShows(Start(prior), content, at, b);
  }

  // ----- Whole histories

  /** The link after a whole history of contents. */
  function LinkAll(prior: u64, contents: seq<seq<byte>>): u64
    decreases |contents|
  {
    if contents == [] then prior
    else Link(LinkAll(prior, contents[..|contents| - 1]), contents[|contents| - 1])
  }

  /** After `j` contents the links of the two histories clash. */
  predicate ClashAt(prior: u64, c: seq<seq<byte>>, d: seq<seq<byte>>, j: nat)
    requires j <= |c| && j <= |d|
  {
    Clash(LinkAll(prior, c[..j]), LinkAll(prior, d[..j]))
  }

  /** The same last content keeps the links apart or together, unless they clash in front of it. */
  lemma HistoryStep(prior: u64, c: seq<seq<byte>>, d: seq<seq<byte>>)
    requires |c| == |d| > 0 && c[|c| - 1] == d[|c| - 1]
    ensures LinkAll(prior, d) == LinkAll(prior, c) <==>
              LinkAll(prior, d[..|c| - 1]) == LinkAll(prior, c[..|c| - 1]) || ClashAt(prior, c, d, |c| - 1)
  {
    hide Hash, Link, Clash;
    var g, h := LinkAll(prior, c[..|c| - 1]), LinkAll(prior, d[..|c| - 1]);
    if g != h {
      DifferenceStays(h, g, c[|c| - 1]);
      ClashSymmetric(g, h);
    }
  }

  lemma FrontClashes(prior: u64, c: seq<seq<byte>>, d: seq<seq<byte>>, n: nat, j: nat)
    requires j <= n <= |c| == |d|
    ensures ClashAt(prior, c[..n], d[..n], j) <==> ClashAt(prior, c, d, j)
  {
    hide LinkAll, Clash;
    assert c[..n][..j] == c[..j] && d[..n][..j] == d[..j];
  }

  /** Alter one byte of one record in a history: the final link shows it, exactly unless the links of
      the two histories clash somewhere between that record and the last. */
  lemma {:induction false} AlteredHistoryShows(prior: u64, c: seq<seq<byte>>, i: nat, at: nat, b: byte)
    requires i < |c| && at < |c[i]| && b != c[i][at]
    ensures var d := c[i := c[i][at := b]];
            LinkAll(prior, d) == LinkAll(prior, c) <==> exists j :: i < j < |c| && ClashAt(prior, c, d, j)
    decreases |c|
  {
    hide Hash, Link, ClashAt;
    var n, d := |c| - 1, c[i := c[i][at := b]];
    if i == n {
      assert d[..n] == c[..n];
      AlteredRecordShows(LinkAll(prior, c[..n]), c[n], at, b);
    } else {
      hide LinkAll;
      var e, f := c[..n], d[..n];
      assert f == e[i := e[i][at := b]];
      AlteredHistoryShows(prior, e, i, at, b);
      HistoryStep(prior, c, d);
      forall j | i < j < n ensures ClashAt(prior, c, d, j) <==> ClashAt(prior, e, f, j) {
        FrontClashes(prior, c, d, n, j);
      }
    }
  }

  lemma ClashSymmetric(g: u64, h: u64)
    ensures Clash(g, h) <==> Clash(h, g)
  {
  }

  // ----- Sequences of linked records

  /** Where a record keeps its link, and the bytes the link covers. */
  datatype Layout<!R> = Layout(chain: R -> u64, content: R -> seq<byte>)

  predicate LinkedAt<R>(layout: Layout<R>, prior: u64, q: seq<R>, i: nat)
    requires i < |q|
  {
    layout.chain(q[i]) == Link(if i == 0 then prior else layout.chain(q[i - 1]), layout.content(q[i]))
  }

  /** Every record is linked to the one before it, the first one to `prior`. */
  predicate Linked<R>(layout: Layout<R>, prior: u64, q: seq<R>) {
    forall i :: 0 <= i < |q| ==> LinkedAt(layout, prior, q, i)
  }

  /** Every two neighbours are linked. */
  predicate Adjacent<R>(layout: Layout<R>, q: seq<R>) {
    forall i :: 0 < i < |q| ==> LinkedAt(layout, 0, q, i)
  }

  /** The link that the next record continues from. */
  function Tip<R>(layout: Layout<R>, prior: u64, q: seq<R>): u64 {
    if q == [] then prior else layout.chain(q[|q| - 1])
  }

  lemma LinkedConcat<R>(layout: Layout<R>, prior: u64, q: seq<R>, r: seq<R>)
    requires Linked(layout, prior, q) && Linked(layout, Tip(layout, prior, q), r)
    ensures Linked(layout, prior, q + r) && Tip(layout, prior, q + r) == Tip(layout, Tip(layout, prior, q), r)
  {
    hide Link;
    var all := q + r;
    forall i | 0 <= i < |all| ensures LinkedAt(layout, prior, all, i) {
      if i < |q| {
        assert LinkedAt(layout, prior, q, i);
        assert all[i] == q[i] && (i > 0 ==> all[i - 1] == q[i - 1]);
      } else {
        assert LinkedAt(layout, Tip(layout, prior, q), r, i - |q|);
        assert all[i] == r[i - |q|] && (i > |q| ==> all[i - 1] == r[i - |q| - 1]);
      }
    }
  }

  lemma TailAdjacent<R>(layout: Layout<R>, q: seq<R>, n: nat)
    requires Adjacent(layout, q) && n <= |q|
    ensures Adjacent(layout, q[n..])
  {
    hide Link;
    forall i | 0 < i < |q[n..]| ensures LinkedAt(layout, 0, q[n..], i) {
      assert LinkedAt(layout, 0, q, n + i);
    }
  }

  lemma GrowAdjacent<R>(layout: Layout<R>, q: seq<R>, r: R, tip: u64)
    requires Adjacent(layout, q) && Tip(layout, tip, q) == tip && layout.chain(r) == Link(tip, layout.content(r))
    ensures Adjacent(layout, q + [r]) && Tip(layout, layout.chain(r), q + [r]) == layout.chain(r)
  {
    hide Link;
    var all := q + [r];
    forall i | 0 < i < |all| ensures LinkedAt(layout, 0, all, i) {
      if i < |q| {
        assert LinkedAt(layout, 0, q, i);
      }
    }
  }

  function Contents<R>(layout: Layout<R>, q: seq<R>): (c: seq<seq<byte>>)
    ensures |c| == |q|
  {
    seq(|q|, i requires 0 <= i < |q| => layout.content(q[i]))
  }

  /** In a linked sequence every record carries the link of the history up to it. */
  lemma {:induction false} LinkedIsHistory<R>(layout: Layout<R>, prior: u64, q: seq<R>)
    requires Linked(layout, prior, q)
    ensures Tip(layout, prior, q) == LinkAll(prior, Contents(layout, q))
    decreases |q|
  {
    hide Link;
    if q != [] {
      var n := |q| - 1;
      var front, c := q[..n], Contents(layout, q);
      forall i | 0 <= i < n ensures LinkedAt(layout, prior, front, i) {
        assert LinkedAt(layout, prior, q, i);
      }
      LinkedIsHistory(layout, prior, front);
      assert Contents(layout, front) == c[..n];
      assert LinkedAt(layout, prior, q, n);
    }
  }

  lemma PrefixLinked<R>(layout: Layout<R>, prior: u64, q: seq<R>, j: nat)
    requires Linked(layout, prior, q) && 0 < j <= |q|
    ensures layout.chain(q[j - 1]) == LinkAll(prior, Contents(layout, q)[..j])
  {
    hide Link;
    var front := q[..j];
    forall i | 0 <= i < j ensures LinkedAt(layout, prior, front, i) {
      assert LinkedAt(layout, prior, q, i);
    }
    LinkedIsHistory(layout, prior, front);
    assert Contents(layout, front) == Contents(layout, q)[..j];
  }

  /** Two linked logs from the same start that differ in one byte of one record end in different
      links, exactly unless the links stored from that record on, before the last, clash. */
  lemma AlteredLogShows<R>(layout: Layout<R>, prior: u64, q: seq<R>, r: seq<R>, i: nat, at: nat, b: byte)
    requires Linked(layout, prior, q) && Linked(layout, prior, r) && |q| == |r| && i < |q|
    requires at < |layout.content(q[i])| && b != layout.content(q[i])[at]
    requires layout.content(r[i]) == layout.content(q[i])[at := b]
    requires forall k :: 0 <= k < |q| && k != i ==> layout.content(r[k]) == layout.content(q[k])
    ensures Tip(layout, prior, q) == Tip(layout, prior, r) <==>
              exists k :: i <= k < |q| - 1 && Clash(layout.chain(q[k]), layout.chain(r[k]))
  {
    hide Link, Clash, LinkAll, Linked;
    var c, d := Contents(layout, q), Contents(layout, r);
    assert d == c[i := c[i][at := b]];
    LinkedIsHistory(layout, prior, q);
    LinkedIsHistory(layout, prior, r);
    AlteredHistoryShows(prior, c, i, at, b);
    forall j | i < j < |q| ensures ClashAt(prior, c, d, j) <==> Clash(layout.chain(q[j - 1]), layout.chain(r[j - 1])) {
      PrefixLinked(layout, prior, q, j);
      PrefixLinked(layout, prior, r, j);
    }
    if k :| i <= k < |q| - 1 && Clash(layout.chain(q[k]), layout.chain(r[k])) {
      assert ClashAt(prior, c, d, k + 1);
    }
  }
}
