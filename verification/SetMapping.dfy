/** Which contexts share a set of the predictor and of the validation table. */
module SetMapping {
  import opened Bytes
  import opened Predictor
  import opened PredictorExact
  import opened PredictorRuns
  import opened RflFormat
  import opened StoreSpec

  /** The set as a machine word. */
  function SetWord(x: bv64): bv64 {
    SetIndex(x) as bv64
  }

  function Bit(x: bv64, i: bv6): bv64 {
    (x >> i) & 1
  }

  lemma Mixed(x: bv64)
    ensures SetWord(x) == (x ^ (x >> 33) ^ (x >> 17)) & 255
  {
    Word64((x ^ (x >> 33) ^ (x >> 17)) & 255);
  }

  lemma SameWord(x: bv64, y: bv64)
    ensures SetIndex(x) == SetIndex(y) ==> SetWord(x) == SetWord(y)
  {
    hide SetIndex;
  }

  lemma MixedBits(x: bv64, i: bv6)
    ensures i < 8 ==> (((x ^ (x >> 33) ^ (x >> 17)) & 255) >> i) & 1 == ((x >> i) & 1) ^ ((x >> (i + 17)) & 1) ^ ((x >> (i + 33)) & 1)
    ensures i >= 8 ==> (((x ^ (x >> 33) ^ (x >> 17)) & 255) >> i) & 1 == 0
  {
  }

  /** Every bit of the set is the exclusive or of three bits of the context, 17 and 33 places apart; eight
      bits there are, and no more. */
  lemma SetBits(x: bv64, i: bv6)
    ensures i < 8 ==> Bit(SetWord(x), i) == Bit(x, i) ^ Bit(x, i + 17) ^ Bit(x, i + 33)
    ensures i >= 8 ==> Bit(SetWord(x), i) == 0
  {
    hide SetWord;
    Mixed(x);
    MixedBits(x, i);
  }

  lemma SetLinear(x: bv64, y: bv64)
    ensures SetWord(x ^ y) == SetWord(x) ^ SetWord(y)
  {
    hide SetWord;
    Mixed(x);
    Mixed(y);
    Mixed(x ^ y);
  }

  lemma Shifts(x: bv64, high: bv64)
    requires high == x >> 8
    ensures x >> 33 == high >> 25 && x >> 17 == high >> 9
  {
  }

  lemma LowByte(x: bv64, y: bv64, a: bv64, b: bv64)
    requires (x ^ a ^ b) & 255 == (y ^ a ^ b) & 255
    ensures x & 255 == y & 255
  {
    assert x & 255 == ((x ^ a ^ b) & 255) ^ (a & 255) ^ (b & 255);
    assert y & 255 == ((y ^ a ^ b) & 255) ^ (a & 255) ^ (b & 255);
  }

  lemma Parts(x: bv64, high: bv64, low: bv64)
    requires high == x >> 8 && low == x & 255
    ensures x == (high << 8) | low
  {
  }

  lemma Together(x: bv64, y: bv64, high: bv64, a: bv64, b: bv64)
    requires high == x >> 8 && high == y >> 8
    requires (x ^ a ^ b) & 255 == (y ^ a ^ b) & 255
    ensures x == y
  {
    LowByte(x, y, a, b);
    Parts(x, high, x & 255);
    Parts(y, high, y & 255);
  }

  function High(x: bv64): bv64 {
    x >> 8
  }

  function Mix(x: bv64, high: bv64): bv64 {
    (x ^ (high >> 25) ^ (high >> 9)) & 255
  }

  lemma SetIsMix(x: bv64)
    ensures SetWord(x) == Mix(x, High(x))
  {
    hide SetWord;
    Mixed(x);
    Shifts(x, x >> 8);
  }

  lemma MixDecides(x: bv64, y: bv64, high: bv64)
    requires High(x) == high && High(y) == high && Mix(x, high) == Mix(y, high)
    ensures x == y
  {
    Together(x, y, high, high >> 25, high >> 9);
  }

  /** Contexts that differ in their low eight bits only are spread over different sets. */
  lemma Spread(x: bv64, y: bv64)
    requires x >> 8 == y >> 8 && x != y
    ensures SetIndex(x) != SetIndex(y)
  {
    hide SetWord, SetIndex, Mix;
    SameWord(x, y);
    SetIsMix(x);
    SetIsMix(y);
    if SetIndex(x) == SetIndex(y) {
      MixDecides(x, y, High(x));
      assert false;
    }
  }

  lemma BlockMember(x: bv64, y: bv64) returns (z: bv64)
    ensures z >> 8 == x >> 8
    ensures (z ^ (z >> 33) ^ (z >> 17)) & 255 == (y ^ (y >> 33) ^ (y >> 17)) & 255
  {
    z := x ^ ((x ^ (x >> 33) ^ (x >> 17) ^ y ^ (y >> 33) ^ (y >> 17)) & 255);
  }

  lemma MixedSame(x: bv64, y: bv64)
    requires (x ^ (x >> 33) ^ (x >> 17)) & 255 == (y ^ (y >> 33) ^ (y >> 17)) & 255
    ensures SetIndex(x) == SetIndex(y)
  {
  }

  /** The block of 256 contexts that `x` lies in. */
  function Block(x: bv64): bv64 {
    x >> 8
  }

  lemma SpreadInBlock(x: bv64, y: bv64)
    requires Block(x) == Block(y) && x != y
    ensures SetIndex(x) != SetIndex(y)
  {
    hide SetIndex;
    Spread(x, y);
  }

  lemma MemberInBlock(x: bv64, y: bv64) returns (z: bv64)
    ensures Block(z) == Block(x) && SetIndex(z) == SetIndex(y)
  {
    hide SetIndex;
    z := BlockMember(x, y);
    MixedSame(z, y);
  }

  /** Every block has exactly one context in every set that has a context at all. */
  lemma OnePerBlock(x: bv64, y: bv64) returns (z: bv64)
    ensures Block(z) == Block(x) && SetIndex(z) == SetIndex(y)
    ensures forall w: bv64 :: Block(w) == Block(x) && SetIndex(w) == SetIndex(y) ==> w == z
  {
    hide SetIndex, Block;
    z := MemberInBlock(x, y);
    forall w: bv64 | Block(w) == Block(x) && SetIndex(w) == SetIndex(y) ensures w == z {
      if w != z {
        SpreadInBlock(w, z);
      }
    }
  }

  // ----- What it means for predictions

  /** The different candidates that were observed for a context. */
  function Candidates(log: seq<Event>, context: bv64): set<Pair>
    decreases |log|
  {
    if log == [] then {}
    else
      var p := log[|log| - 1].pair;
      Candidates(log[..|log| - 1], context) + (if p.context == context then {p} else {})
  }

  /** All contexts observed lie in the same block of 256. */
  predicate InBlock(log: seq<Event>, context: bv64) {
    forall i :: 0 <= i < |log| ==> Block(log[i].pair.context) == Block(context)
  }

  /** Within one block a set holds the pairs of one context only. */
  lemma {:induction false} OwnSet(log: seq<Event>, context: bv64)
    requires InBlock(log, context)
    ensures PairsIn(log, SetIndex(context)) == Candidates(log, context)
    decreases |log|
  {
    hide SetIndex, Block;
    if log != [] {
      var before, p := log[..|log| - 1], log[|log| - 1].pair;
      assert InBlock(before, context) by {
        assert forall i :: 0 <= i < |before| ==> before[i] == log[i];
      }
      OwnSet(before, context);
      if p.context != context {
        SpreadInBlock(p.context, context);
      }
    }
  }

  /** So after any run of a store that learned contexts of one block only, a prediction for a context with
      at most four different candidates is exact counting, however many contexts there were. */
  lemma BlockPrediction(s: State, ops: seq<Op>, context: bv64)
    requires s.Closed? && Run(s, ops).Open?
    requires InBlock(Learned(s, ops), context) && |Candidates(Learned(s, ops), context)| <= WAYS
    ensures var log, (rc, r) := Learned(s, ops), PredictNow(Run(s, ops), context);
      && (rc == Ok ==>
            && r.Predicted? && MostFrequent(log, context, r.candidate)
            && r.support == Min(Support(log, context), COUNT_MAX) && Support(log, context) > 0
            && r.confidence == SatFreq(log, Pair(context, r.candidate)) * 65535 / Support(log, context))
      && (rc == ErrCapacity ==> forall c: u32 :: Freq(log, Pair(context, c)) == 0)
  {
    hide Run, Learned, PredictNow, PairsIn, Candidates, SetIndex, Support, Freq, SatFreq, InBlock, MostFrequent;
    OwnSet(Learned(s, ops), context);
    RunPrediction(s, ops, context);
  }
}
