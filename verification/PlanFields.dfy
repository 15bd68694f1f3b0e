/** What the coherence, the tokens and the masks of a plan mean. */
module PlanFields {
  import opened Bitwise
  import opened Bytes
  import opened Q16
  import opened Planner

  // ----- Coherence

  /** Three quarters of the mean of stability and accuracy, and one quarter of the mean of that and of what
      friction and overhead leave; every division rounds down. */
  lemma CoherenceIs(s: Signal)
    ensures var stable := (s.stability + s.accuracy) / 2;
            var runtime := ((65535 - s.friction) + (65535 - s.overhead)) / 2;
            Coherence(s) == (3 * stable + (stable + runtime) / 2) / 4
  {
    hide Smooth;
    AverageIs(s.stability, s.accuracy);
    AverageIs(Inverse(s.friction), Inverse(s.overhead));
    var stable, runtime := Average(s.stability, s.accuracy), Average(Inverse(s.friction), Inverse(s.overhead));
    AverageIs(stable, runtime);
    SmoothBetween(stable, Average(stable, runtime), 2);
  }

  /** So a signal without friction or overhead is as coherent as it is stable and accurate, or more. */
  lemma CoherenceBetween(s: Signal)
    ensures var stable := (s.stability + s.accuracy) / 2;
            var runtime := ((65535 - s.friction) + (65535 - s.overhead)) / 2;
            if runtime <= stable then runtime <= Coherence(s) <= stable else stable <= Coherence(s) <= runtime
  {
    hide Coherence;
    CoherenceIs(s);
  }

  /** The three flags of the architecture. */
  lemma ArchBits(arch: u32)
    ensures Has(arch, ARM32) <==> Bit(arch, 0)
    ensures Has(arch, NEON) <==> Bit(arch, 1)
    ensures Has(arch, SMALL_CACHE) <==> Bit(arch, 2)
  {
    assert Pow2(0) == 1 && Pow2(1) == 2 && Pow2(2) == 4;
    AndPow2(0, arch);
    AndPow2(1, arch);
    AndPow2(2, arch);
    AndComm(1, arch);
    AndComm(2, arch);
    AndComm(4, arch);
  }

  // ----- Tokens

  /** Bits that do not overlap add up. */
  lemma {:induction false} OrShifted(a: nat, b: nat, n: nat)
    requires b < Pow2(n)
    ensures Or(a * Pow2(n), b) == a * Pow2(n) + b
    decreases n
  {
    if n > 0 && b > 0 && a > 0 {
      var x := a * Pow2(n);
      Doubled(a, Pow2(n - 1));
      OrShifted(a, b / 2, n - 1);
      assert x / 2 == a * Pow2(n - 1) && x % 2 == 0;
    }
  }

  lemma Doubled(a: nat, p: nat)
    ensures a * (2 * p) == 2 * (a * p)
  {
  }

  /** A token holds the low bytes of the last route and of the planned one. */
  lemma TokenIs(lastRoute: u32, route: u32)
    ensures Token(lastRoute, route) == lastRoute % 256 * 256 + route % 256
  {
    hide Or;
    Powers();
    OrShifted(lastRoute % 256, route % 256, 8);
  }

  /** So it gives back both routes when they are routes at all. */
  lemma PlanToken(s: Signal)
    ensures Plan(s).token % 256 == Plan(s).route < 4
    ensures Plan(s).token / 256 == s.lastRoute % 256
  {
    hide Token, Scores, SelectBest, MitigationMask, Or32, And32, Xor32, MaskNonzero;
    PlanIsBest(s);
    TokenIs(s.lastRoute, Plan(s).route);
  }

  /** Mitigation and rollback mark their tokens: combined with the tokens they started from, what is left is
      the mark and the known-good route. */
  lemma MarkedTokens(s: Signal, p: RiskPolicy, previous: Decision, knownGood: u32)
    ensures !RiskFree(s, p) ==>
      Xor16(Xor16(Mitigate(s, p, previous).decision.token, Plan(s).token), previous.token)
        == 0x5a00 + KnownGood(p.knownGood) % 256
    ensures RiskFree(s, p) ==> Mitigate(s, p, previous).decision.token == Plan(s).token
    ensures Xor16(Rollback(previous, knownGood).token, previous.token) == 0xa500 + KnownGood(knownGood) % 256
  {
    hide Plan, RiskWord, KnownGood, MaskNonzero, Select, Select16, Smooth, Xor, And32, RiskFree, Or;
    NoRiskIsRiskFree(s, p);
    Powers();
    var safe := KnownGood(p.knownGood);
    OrShifted(0x5a, safe % 256, 8);
    OrShifted(0xa5, KnownGood(knownGood) % 256, 8);
    MaskNonzeroIs(RiskWord(s, p, Plan(s)));
    var mark := Low16(Or32(0x5a00, safe % 256));
    var token := Xor16(Xor16(previous.token, Plan(s).token), mark);
    SelectIs(RiskWord(s, p, Plan(s)) != 0, token, Plan(s).token);
    ThreeXor(previous.token, Plan(s).token, mark);
    XorComm(previous.token, 0xa500 + KnownGood(knownGood) % 256);
    XorUndone(0xa500 + KnownGood(knownGood) % 256, previous.token);
  }

  lemma {:induction false} XorComm(a: nat, b: nat)
    ensures Xor(a, b) == Xor(b, a)
    decreases a
  {
    if a > 0 && b > 0 {
      XorComm(a / 2, b / 2);
    }
  }

  lemma {:induction false} XorAssoc(a: nat, b: nat, c: nat)
    ensures Xor(Xor(a, b), c) == Xor(a, Xor(b, c))
    decreases a + b + c
  {
    if a > 0 && b > 0 && c > 0 {
      XorAssoc(a / 2, b / 2, c / 2);
      XorHalves(a, b);
      XorHalves(b, c);
      XorHalves(Xor(a, b), c);
      XorHalves(a, Xor(b, c));
    }
  }

  lemma XorHalves(a: nat, b: nat)
    ensures Xor(a, b) / 2 == Xor(a / 2, b / 2)
    ensures Xor(a, b) % 2 == if a % 2 != b % 2 then 1 else 0
  {
  }

  lemma ThreeXor(a: u16, b: u16, mark: u16)
    ensures Xor16(Xor16(Xor16(Xor16(a, b), mark), b), a) == mark
  {
    hide Xor;
    var ab := Xor(a, b);
    XorComm(ab, mark);
    XorAssoc(mark, ab, b);
    XorUndone(a, b);
    XorUndone(mark, a);
  }

  // ----- Masks

  /** A plan asks for mitigation when stability or accuracy is at most one half, when friction or overhead is
      three quarters or more, and for every fault in the low half of the fault word. */
  lemma PlanMitigates(s: Signal)
    ensures Plan(s).mitigation ==
      Low16(Or32(Or32(Or32(Or32(Flag(s.stability <= 32768, 1), Flag(s.accuracy <= 32768, 2)),
                           Flag(s.friction >= 49152, 4)), Flag(s.overhead >= 49152, 8)), s.faults % 0x1_0000))
  {
    hide Scores, SelectBest, Or32, And32, MaskGe, MaskNonzero, Xor32, Token;
    AtLeastIs(32768, s.stability, 1);
    AtLeastIs(32768, s.accuracy, 2);
    AtLeastIs(s.friction, 49152, 4);
    AtLeastIs(s.overhead, 49152, 8);
  }

  lemma AtLeastIs(x: q16, y: q16, bit: u32)
    ensures And32(MaskGe(x, y), bit) == Flag(x >= y, bit)
  {
    hide MaskGe, And32;
    MaskGeIs(x, y);
    AndMask(bit, x >= y);
  }

  /** Mitigation adds the risks to what the plan asked for, and moves the confidence a quarter of the way to
      one. */
  lemma MitigationAdds(s: Signal, p: RiskPolicy, previous: Decision)
    ensures var m := Mitigate(s, p, previous);
      && m.decision.mitigation == Low16(Or32(Plan(s).mitigation, RiskWord(s, p, Plan(s)) % 0x1_0000))
      && m.risk == RiskWord(s, p, Plan(s))
      && m.decision.confidence == (if RiskFree(s, p) then Plan(s).confidence else (3 * Plan(s).confidence + 65535) / 4)
  {
    hide Plan, RiskWord, KnownGood, MaskNonzero, Select, Select16, Smooth, Xor16, And32, Or32, RiskFree;
    NoRiskIsRiskFree(s, p);
    MaskNonzeroIs(RiskWord(s, p, Plan(s)));
    SelectIs(RiskWord(s, p, Plan(s)) != 0, Smooth(Plan(s).confidence, ONE, 2), Plan(s).confidence);
    SmoothBetween(Plan(s).confidence, ONE, 2);
  }
}
