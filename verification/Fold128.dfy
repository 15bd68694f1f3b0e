/** The 128-bit XOR fold: byte `i` of the data is folded into lane `i mod 16`. */
module Fold128 {
  import opened Bytes

  const LANES: nat := 16

  function Xor(a: byte, b: byte): byte {
    a ^ b
  }

  lemma XorLaws(a: byte, b: byte, c: byte)
    ensures Xor(Xor(a, b), c) == Xor(a, Xor(b, c))
    ensures Xor(a, 0) == a
    ensures Xor(0, a) == a
  {
  }

  /** Everything folded into one lane. */
  function Lane(data: seq<byte>, lane: nat): byte
    requires lane < LANES
    decreases |data|
  {
    if data == [] then 0
    else
      var last := |data| - 1;
      Xor(Lane(data[..last], lane), if last % LANES == lane then data[last] else 0)
  }

  function Fold(data: seq<byte>): (f: seq<byte>)
    ensures |f| == LANES
  {
    seq(LANES, lane requires 0 <= lane < LANES => Lane(data, lane))
  }

  // ----- Structure of the fold

  lemma {:induction false} LaneConcat(a: seq<byte>, b: seq<byte>, lane: nat)
    requires lane < LANES && |a| % LANES == 0
    ensures Lane(a + b, lane) == Xor(Lane(a, lane), Lane(b, lane))
    decreases |b|
  {
    hide Xor;
    if b == [] {
      assert a + b == a;
      XorLaws(Lane(a, lane), 0, 0);
    } else {
      var last := |b| - 1;
      assert (a + b)[..|a + b| - 1] == a + b[..last];
      SameLane(|a|, last);
      LaneConcat(a, b[..last], lane);
      XorLaws(Lane(a, lane), Lane(b[..last], lane), if last % LANES == lane then b[last] else 0);
    }
  }

  lemma SameLane(m: nat, n: nat)
    requires m % LANES == 0
    ensures (m + n) % LANES == n % LANES
  {
  }

  /** Aligned pieces can be folded separately and their folds combined. */
  lemma FoldConcat(a: seq<byte>, b: seq<byte>)
    requires |a| % LANES == 0
    ensures Fold(a + b) == XorLanes(Fold(a), Fold(b))
  {
    hide Xor;
    forall lane | 0 <= lane < LANES ensures Fold(a + b)[lane] == XorLanes(Fold(a), Fold(b))[lane] {
      LaneConcat(a, b, lane);
    }
  }

  function XorLanes(a: seq<byte>, b: seq<byte>): (c: seq<byte>)
    requires |a| == |b| == LANES
    ensures |c| == LANES
  {
    seq(LANES, lane requires 0 <= lane < LANES => Xor(a[lane], b[lane]))
  }

  /** At most one vector of data: each lane holds its own byte. */
  lemma {:induction false} LaneOfVector(v: seq<byte>, lane: nat)
    requires |v| <= LANES && lane < LANES
    ensures Lane(v, lane) == if lane < |v| then v[lane] else 0
    decreases |v|
  {
    hide Xor;
    if v != [] {
      var last := |v| - 1;
      LaneOfVector(v[..last], lane);
      XorLaws(v[last], 0, 0);
      XorLaws(Lane(v[..last], lane), 0, 0);
    }
  }

  lemma FoldOfVector(v: seq<byte>)
    requires |v| == LANES
    ensures Fold(v) == v
  {
    hide Xor;
    forall lane | 0 <= lane < LANES ensures Fold(v)[lane] == v[lane] {
      LaneOfVector(v, lane);
    }
  }

  /** Folding in one more byte changes only the lane of its position. */
  lemma FoldSnoc(data: seq<byte>, b: byte)
    ensures Fold(data + [b]) ==
            Fold(data)[|data| % LANES := Xor(Fold(data)[|data| % LANES], b)]
  {
    hide Xor;
    assert (data + [b])[..|data|] == data;
    forall lane | 0 <= lane < LANES {
      XorLaws(Lane(data, lane), 0, 0);
    }
  }

  // ----- The two loops

  /** Byte by byte. */
  method FoldScalar(data: seq<byte>, out: array<byte>)
    requires out.Length == LANES
    modifies out
    ensures out[..] == Fold(data)
  {
    hide Xor;
    forall i | 0 <= i < LANES {
      out[i] := 0;
    }
    assert out[..] == Fold(data[..0]);
    FoldTail(data, 0, out);
  }

  /** Sixteen bytes at a time, then the remaining bytes one by one. */
  method FoldVector(data: seq<byte>, out: array<byte>)
    requires out.Length == LANES
    modifies out
    ensures out[..] == Fold(data)
  {
    hide Xor;
    var acc: seq<byte> := seq(LANES, _ => 0);
    var i := 0;
    assert acc == Fold(data[..0]);
    while i + LANES <= |data|
      invariant 0 <= i <= |data| && i % LANES == 0
      invariant |acc| == LANES && acc == Fold(data[..i])
    {
      var v := data[i..i + LANES];
      FoldConcat(data[..i], v);
      FoldOfVector(v);
      assert data[..i] + v == data[..i + LANES];
      acc := XorLanes(acc, v);
      i := i + LANES;
    }
    forall k | 0 <= k < LANES {
      out[k] := acc[k];
    }
    assert out[..] == acc;
    FoldTail(data, i, out);
  }

  method FoldTail(data: seq<byte>, start: nat, out: array<byte>)
    requires out.Length == LANES && start <= |data|
    requires out[..] == Fold(data[..start])
    modifies out
    ensures out[..] == Fold(data)
  {
    hide Xor, Fold;
    for i := start to |data|
      invariant out[..] == Fold(data[..i])
    {
      FoldSnoc(data[..i], data[i]);
      assert data[..i] + [data[i]] == data[..i + 1];
      ghost var before := out[..];
      out[i % LANES] := Xor(out[i % LANES], data[i]);
      assert out[..] == before[i % LANES := Xor(before[i % LANES], data[i])];
    }
    assert data[..|data|] == data;
  }
}
