/** Four SHA-256 compressions side by side, one in each lane of a 128-bit vector. */
module Sha256x4 {
  import opened Bytes
  import opened Words32
  import opened Sha256

  datatype V4 = V4(l0: bv32, l1: bv32, l2: bv32, l3: bv32)

  function Lane(v: V4, j: nat): bv32
    requires j < 4
  {
    if j == 0 then v.l0 else if j == 1 then v.l1 else if j == 2 then v.l2 else v.l3
  }

  // ----- Vector operations

  function VSplat(x: bv32): V4 {
    V4(x, x, x, x)
  }

  function VAdd(x: V4, y: V4): V4 {
    V4(Add(x.l0, y.l0), Add(x.l1, y.l1), Add(x.l2, y.l2), Add(x.l3, y.l3))
  }

  function VXor(x: V4, y: V4): V4 {
    V4(Xor(x.l0, y.l0), Xor(x.l1, y.l1), Xor(x.l2, y.l2), Xor(x.l3, y.l3))
  }

  function VAnd(x: V4, y: V4): V4 {
    V4(And(x.l0, y.l0), And(x.l1, y.l1), And(x.l2, y.l2), And(x.l3, y.l3))
  }

  function VOr(x: V4, y: V4): V4 {
    V4(Or(x.l0, y.l0), Or(x.l1, y.l1), Or(x.l2, y.l2), Or(x.l3, y.l3))
  }

  function VNot(x: V4): V4 {
    V4(Not(x.l0), Not(x.l1), Not(x.l2), Not(x.l3))
  }

  function VShr(x: V4, n: nat): V4
    requires n <= 32
  {
    V4(Shr(x.l0, n), Shr(x.l1, n), Shr(x.l2, n), Shr(x.l3, n))
  }

  function VShl(x: V4, n: nat): V4
    requires n <= 32
  {
    V4(Shl(x.l0, n), Shl(x.l1, n), Shl(x.l2, n), Shl(x.l3, n))
  }

  function VRotr(x: V4, n: nat): V4
    requires 0 < n < 32
  {
    VOr(VShr(x, n), VShl(x, 32 - n))
  }

  function VCh(x: V4, y: V4, z: V4): V4 {
    VXor(VAnd(x, y), VAnd(VNot(x), z))
  }

  function VMaj(x: V4, y: V4, z: V4): V4 {
    VXor(VXor(VAnd(x, y), VAnd(x, z)), VAnd(y, z))
  }

  function VBigSigma0(x: V4): V4 {
    VXor(VXor(VRotr(x, 2), VRotr(x, 13)), VRotr(x, 22))
  }

  function VBigSigma1(x: V4): V4 {
    VXor(VXor(VRotr(x, 6), VRotr(x, 11)), VRotr(x, 25))
  }

  function VSmallSigma0(x: V4): V4 {
    VXor(VXor(VRotr(x, 7), VRotr(x, 18)), VShr(x, 3))
  }

  function VSmallSigma1(x: V4): V4 {
    VXor(VXor(VRotr(x, 17), VRotr(x, 19)), VShr(x, 10))
  }

  // ----- The vector compression

  type Blocks = s: seq<seq<byte>> | |s| == 4 && forall j :: 0 <= j < 4 ==> |s[j]| == 64
    witness [seq(64, _ => 0), seq(64, _ => 0), seq(64, _ => 0), seq(64, _ => 0)]

  datatype VWords = VWords(a: V4, b: V4, c: V4, d: V4, e: V4, f: V4, g: V4, h: V4)

  function VLoad(blocks: Blocks, at: nat): V4
    requires at + 4 <= 64
  {
    V4(LoadBig(blocks[0], at), LoadBig(blocks[1], at), LoadBig(blocks[2], at), LoadBig(blocks[3], at))
  }

  function VNextWord(w2: V4, w7: V4, w15: V4, w16: V4): V4 {
    VAdd(VAdd(VAdd(VSmallSigma1(w2), w7), VSmallSigma0(w15)), w16)
  }

  function VW(blocks: Blocks, t: nat): V4
    requires t < 64
  {
    if t < 16 then VLoad(blocks, 4 * t)
    else VNextWord(VW(blocks, t - 2), VW(blocks, t - 7), VW(blocks, t - 15), VW(blocks, t - 16))
  }

  function VT1(v: VWords, k: V4, w: V4): V4 {
    VAdd(VAdd(VAdd(VAdd(v.h, VBigSigma1(v.e)), VCh(v.e, v.f, v.g)), k), w)
  }

  function VT2(v: VWords): V4 {
    VAdd(VBigSigma0(v.a), VMaj(v.a, v.b, v.c))
  }

  function VRound(v: VWords, k: V4, w: V4): VWords {
    VWords(VAdd(VT1(v, k, w), VT2(v)), v.a, v.b, v.c, VAdd(v.d, VT1(v, k, w)), v.e, v.f, v.g)
  }

  function VRounds(blocks: Blocks, v: VWords, n: nat): VWords
    requires n <= 64
  {
    if n == 0 then v else VRound(VRounds(blocks, v, n - 1), VSplat(K(n - 1)), VW(blocks, n - 1))
  }

  function VSum(h: VWords, v: VWords): VWords {
    VWords(VAdd(h.a, v.a), VAdd(h.b, v.b), VAdd(h.c, v.c), VAdd(h.d, v.d),
           VAdd(h.e, v.e), VAdd(h.f, v.f), VAdd(h.g, v.g), VAdd(h.h, v.h))
  }

  function Compress4(h: VWords, blocks: Blocks): VWords {
    VSum(h, VRounds(blocks, h, 64))
  }

  // ----- The loops

  method CompressVectors(h: VWords, blocks: Blocks) returns (z: VWords)
    ensures z == Compress4(h, blocks)
  {
    hide K, VLoad, VNextWord, VW, VRound, VAdd;
    var w := new V4[64];
    for i := 0 to 16
      invariant forall t :: 0 <= t < i ==> w[t] == VW(blocks, t)
    {
      w[i] := VLoad(blocks, 4 * i);
      VWStep(blocks, i);
    }
    for i := 16 to 64
      invariant forall t :: 0 <= t < i ==> w[t] == VW(blocks, t)
    {
      w[i] := VNextWord(w[i - 2], w[i - 7], w[i - 15], w[i - 16]);
      VWStep(blocks, i);
    }
    var v := h;
    for i := 0 to 64
      invariant forall t :: 0 <= t < 64 ==> w[t] == VW(blocks, t)
      invariant v == VRounds(blocks, h, i)
    {
      v := VTurn(v, VSplat(K(i)), w[i]);
      NextVRound(blocks, h, i);
    }
    z := VSum(h, v);
  }

  lemma VWStep(blocks: Blocks, t: nat)
    requires t < 64
    ensures VW(blocks, t) == if t < 16 then VLoad(blocks, 4 * t)
      else VNextWord(VW(blocks, t - 2), VW(blocks, t - 7), VW(blocks, t - 15), VW(blocks, t - 16))
  {
    hide VLoad, VNextWord;
  }

  method VTurn(v: VWords, k: V4, w: V4) returns (next: VWords)
    ensures next == VRound(v, k, w)
  {
    hide VT1, VT2, VAdd;
    var t1, t2 := VT1(v, k, w), VT2(v);
    next := v.(h := v.g, g := v.f, f := v.e, e := VAdd(v.d, t1), d := v.c, c := v.b, b := v.a, a := VAdd(t1, t2));
  }

  lemma NextVRound(blocks: Blocks, start: VWords, n: nat)
    requires n < 64
    ensures VRounds(blocks, start, n + 1) == VRound(VRounds(blocks, start, n), VSplat(K(n)), VW(blocks, n))
  {
    hide K, VW, VRound, VSplat;
  }

  // ----- Lanes

  function LaneWords(v: VWords, j: nat): Words
    requires j < 4
  {
    Words(Lane(v.a, j), Lane(v.b, j), Lane(v.c, j), Lane(v.d, j),
          Lane(v.e, j), Lane(v.f, j), Lane(v.g, j), Lane(v.h, j))
  }

  lemma LaneXor(x: V4, y: V4, j: nat)
    requires j < 4
    ensures Lane(VXor(x, y), j) == Xor(Lane(x, j), Lane(y, j))
  {
    hide Xor;
  }

  lemma LaneAnd(x: V4, y: V4, j: nat)
    requires j < 4
    ensures Lane(VAnd(x, y), j) == And(Lane(x, j), Lane(y, j))
    ensures Lane(VNot(x), j) == Not(Lane(x, j))
  {
    hide And, Not;
  }

  lemma LaneRotr(x: V4, n: nat, j: nat)
    requires j < 4 && 0 < n < 32
    ensures Lane(VRotr(x, n), j) == Rotr(Lane(x, j), n)
    ensures Lane(VShr(x, n), j) == Shr(Lane(x, j), n)
  {
    hide Or, Shr, Shl;
  }

  lemma LaneTriple(x: V4, y: V4, z: V4, j: nat)
    requires j < 4
    ensures Lane(VXor(VXor(x, y), z), j) == Xor(Xor(Lane(x, j), Lane(y, j)), Lane(z, j))
  {
    hide Lane, VXor, Xor;
    LaneXor(x, y, j);
    LaneXor(VXor(x, y), z, j);
  }

  lemma LaneSigmas(x: V4, j: nat)
    requires j < 4
    ensures Lane(VBigSigma0(x), j) == BigSigma0(Lane(x, j))
    ensures Lane(VBigSigma1(x), j) == BigSigma1(Lane(x, j))
    ensures Lane(VSmallSigma0(x), j) == SmallSigma0(Lane(x, j))
    ensures Lane(VSmallSigma1(x), j) == SmallSigma1(Lane(x, j))
  {
    hide Lane, VXor, Xor, VRotr, Rotr, VShr, Shr;
    forall n | 0 < n < 32
      ensures Lane(VRotr(x, n), j) == Rotr(Lane(x, j), n) && Lane(VShr(x, n), j) == Shr(Lane(x, j), n)
    {
      LaneRotr(x, n, j);
    }
    LaneTriple(VRotr(x, 2), VRotr(x, 13), VRotr(x, 22), j);
    LaneTriple(VRotr(x, 6), VRotr(x, 11), VRotr(x, 25), j);
    LaneTriple(VRotr(x, 7), VRotr(x, 18), VShr(x, 3), j);
    LaneTriple(VRotr(x, 17), VRotr(x, 19), VShr(x, 10), j);
  }

  lemma LaneChoices(x: V4, y: V4, z: V4, j: nat)
    requires j < 4
    ensures Lane(VCh(x, y, z), j) == Ch(Lane(x, j), Lane(y, j), Lane(z, j))
    ensures Lane(VMaj(x, y, z), j) == Maj(Lane(x, j), Lane(y, j), Lane(z, j))
  {
    hide Lane, VXor, Xor, VAnd, And, VNot, Not;
    LaneAnd(x, y, j);
    LaneAnd(VNot(x), z, j);
    LaneAnd(x, z, j);
    LaneAnd(y, z, j);
    LaneXor(VAnd(x, y), VAnd(VNot(x), z), j);
    LaneTriple(VAnd(x, y), VAnd(x, z), VAnd(y, z), j);
  }

  lemma LaneAdd(x: V4, y: V4, j: nat)
    requires j < 4
    ensures Lane(VAdd(x, y), j) == Add(Lane(x, j), Lane(y, j))
  {
    hide Add;
  }

  lemma LaneNextWord(w2: V4, w7: V4, w15: V4, w16: V4, j: nat)
    requires j < 4
    ensures Lane(VNextWord(w2, w7, w15, w16), j) == NextWord(Lane(w2, j), Lane(w7, j), Lane(w15, j), Lane(w16, j))
  {
    hide Lane, VAdd, Add, VSmallSigma0, VSmallSigma1, SmallSigma0, SmallSigma1;
    LaneSigmas(w2, j);
    LaneSigmas(w15, j);
    LaneAdd(VSmallSigma1(w2), w7, j);
    LaneAdd(VAdd(VSmallSigma1(w2), w7), VSmallSigma0(w15), j);
    LaneAdd(VAdd(VAdd(VSmallSigma1(w2), w7), VSmallSigma0(w15)), w16, j);
  }

  /** Lane `j` of the vector schedule is the schedule of block `j`. */
  lemma {:induction false} LaneSchedule(blocks: Blocks, t: nat, j: nat)
    requires t < 64 && j < 4
    ensures Lane(VW(blocks, t), j) == W(blocks[j], t)
    decreases t
  {
    hide LoadBig, VNextWord, NextWord;
    if t >= 16 {
      LaneSchedule(blocks, t - 2, j);
      LaneSchedule(blocks, t - 7, j);
      LaneSchedule(blocks, t - 15, j);
      LaneSchedule(blocks, t - 16, j);
      LaneNextWord(VW(blocks, t - 2), VW(blocks, t - 7), VW(blocks, t - 15), VW(blocks, t - 16), j);
    }
  }

  lemma LaneT(v: VWords, k: V4, w: V4, j: nat)
    requires j < 4
    ensures Lane(VT1(v, k, w), j) == T1(LaneWords(v, j), Lane(k, j), Lane(w, j))
    ensures Lane(VT2(v), j) == T2(LaneWords(v, j))
  {
    hide Lane, VAdd, Add, VBigSigma0, VBigSigma1, BigSigma0, BigSigma1, VCh, VMaj, Ch, Maj;
    LaneSigmas(v.e, j);
    LaneSigmas(v.a, j);
    LaneChoices(v.e, v.f, v.g, j);
    LaneChoices(v.a, v.b, v.c, j);
    var s1 := VAdd(v.h, VBigSigma1(v.e));
    var s2 := VAdd(s1, VCh(v.e, v.f, v.g));
    var s3 := VAdd(s2, k);
    LaneAdd(v.h, VBigSigma1(v.e), j);
    LaneAdd(s1, VCh(v.e, v.f, v.g), j);
    LaneAdd(s2, k, j);
    LaneAdd(s3, w, j);
    LaneAdd(VBigSigma0(v.a), VMaj(v.a, v.b, v.c), j);
  }

  lemma LaneRound(v: VWords, k: bv32, w: V4, j: nat)
    requires j < 4
    ensures LaneWords(VRound(v, VSplat(k), w), j) == Round(LaneWords(v, j), k, Lane(w, j))
  {
    hide VAdd, Add, VT1, VT2, T1, T2;
    LaneT(v, VSplat(k), w, j);
    LaneAdd(VT1(v, VSplat(k), w), VT2(v), j);
    LaneAdd(v.d, VT1(v, VSplat(k), w), j);
    assert Lane(VSplat(k), j) == k;
  }

  lemma {:induction false} LaneRounds(blocks: Blocks, v: VWords, n: nat, j: nat)
    requires n <= 64 && j < 4
    ensures LaneWords(VRounds(blocks, v, n), j) == Rounds(blocks[j], LaneWords(v, j), n)
    decreases n
  {
    hide K, VW, W, VRound, Round, LaneWords, VSplat;
    if n > 0 {
      LaneRounds(blocks, v, n - 1, j);
      LaneSchedule(blocks, n - 1, j);
      LaneRound(VRounds(blocks, v, n - 1), K(n - 1), VW(blocks, n - 1), j);
    }
  }

  /** Every lane of the vector compression is the scalar compression of that lane's block, for all
      chaining values and all blocks. */
  lemma LanesRefineScalar(h: VWords, blocks: Blocks, j: nat)
    requires j < 4
    ensures LaneWords(Compress4(h, blocks), j) == Compress(LaneWords(h, j), blocks[j])
  {
    hide VRounds, Rounds, VAdd, Add;
    var v := VRounds(blocks, h, 64);
    LaneRounds(blocks, h, 64, j);
    LaneAdd(h.a, v.a, j);
    LaneAdd(h.b, v.b, j);
    LaneAdd(h.c, v.c, j);
    LaneAdd(h.d, v.d, j);
    LaneAdd(h.e, v.e, j);
    LaneAdd(h.f, v.f, j);
    LaneAdd(h.g, v.g, j);
    LaneAdd(h.h, v.h, j);
  }

  function VStart(): VWords {
    VWords(VSplat(START.a), VSplat(START.b), VSplat(START.c), VSplat(START.d),
           VSplat(START.e), VSplat(START.f), VSplat(START.g), VSplat(START.h))
  }

  /** One block per lane from the initial chaining value. */
  method OneBlock(blocks: Blocks) returns (out: VWords)
    ensures forall j :: 0 <= j < 4 ==> LaneWords(out, j) == Compress(START, blocks[j])
  {
    hide Compress4, Compress;
    out := CompressVectors(VStart(), blocks);
    forall j | 0 <= j < 4 ensures LaneWords(out, j) == Compress(START, blocks[j]) {
      LanesRefineScalar(VStart(), blocks, j);
      assert LaneWords(VStart(), j) == START;
    }
  }
}
