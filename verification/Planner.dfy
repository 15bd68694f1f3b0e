/** The branchless route planner: every decision is a mask, and a mask is either all ones or zero. */
module Planner {
  import opened Bitwise
  import opened Bytes
  import opened Q16

  const ONES: u32 := 0xffff_ffff

  datatype Signal = Signal(
    stability: q16, accuracy: q16, friction: q16, entropy: q16, overhead: q16,
    faults: u32, arch: u32, budget: u32, lastRoute: u32)

  datatype Decision = Decision(route: u32, flags: u32, confidence: q16, token: u16, mitigation: u16)

  datatype RiskPolicy = RiskPolicy(
    minStability: q16, minAccuracy: q16, maxFriction: q16, maxEntropy: q16, maxOverhead: q16, minConfidence: q16,
    allowed: u32, knownGood: u32)

  datatype Mitigation = Mitigation(decision: Decision, risk: u32, applied: u32)

  // ----- 32-bit words

  lemma Powers()
    ensures Pow2(16) == U16 && Pow2(32) == U32 && Pow2(8) == 256
  {
    assert Pow2(8) == 256;
    assert Pow2(16) == 256 * Pow2(8);
    assert Pow2(24) == 256 * Pow2(16);
    assert Pow2(32) == 256 * Pow2(24);
  }

  function Minus(l: u32, r: u32): u32 {
    (l - r) % U32
  }

  function Or32(a: u32, b: u32): (r: u32)
    ensures r >= a && r >= b
  {
    Powers();
    OrFits(a, b, 32);
    OrAtLeast(a, b);
    Or(a, b)
  }

  function And32(a: u32, b: u32): (r: u32)
    ensures r <= a && r <= b
  {
    AndBound(a, b);
    And(a, b)
  }

  function Not(a: u32): u32 {
    ONES - a
  }

  // ----- Masks

  function MaskNonzero(value: u32): u32 {
    Minus(0, Or32(value, Minus(0, value)) / 0x8000_0000)
  }

  function MaskGe(left: u32, right: u32): u32 {
    var sign := Minus(left, right) / 0x8000_0000;
    Minus(0, Xor(sign, 1))
  }

  function Select(mask: u32, whenSet: u32, whenClear: u32): u32 {
    Or32(And32(whenSet, mask), And32(whenClear, Not(mask)))
  }

  function Select16(mask: u32, whenSet: q16, whenClear: q16): q16 {
    Cast(Select(mask, whenSet, whenClear))
  }

  function MaskOf(b: bool): u32 {
    if b then ONES else 0
  }

  lemma MaskNonzeroIs(v: u32)
    ensures MaskNonzero(v) == MaskOf(v != 0)
  {
    hide Or;
    if v == 0 {
      OrNothing();
    } else {
      var either := Or32(v, Minus(0, v));
      assert Minus(0, v) == U32 - v;
      assert either >= 0x8000_0000;
      assert either / 0x8000_0000 == 1;
    }
  }

  lemma OrNothing()
    ensures Or32(0, 0) == 0
  {
  }

  /** The comparison looks at the top bit of the difference: it is right exactly while the operands are
      less than 2^31 apart, or the right one is larger by exactly 2^31. */
  lemma MaskGeIs(l: u32, r: u32)
    ensures MaskGe(l, r) == MaskOf(l >= r) <==> if l >= r then l - r < 0x8000_0000 else r - l <= 0x8000_0000
    ensures MaskGe(l, r) in {0, ONES}
  {
    assert Xor(0, 1) == 1 && Xor(1, 1) == 0;
  }

  lemma AndMask(x: u32, b: bool)
    ensures And32(x, MaskOf(b)) == And32(MaskOf(b), x) == if b then x else 0
  {
    Powers();
    AndOnes(x, 32);
    AndComm(x, MaskOf(b));
  }

  lemma SelectIs(b: bool, x: u32, y: u32)
    ensures Select(MaskOf(b), x, y) == if b then x else y
    ensures x < 65536 && y < 65536 ==> Select16(MaskOf(b), x, y) == if b then x else y
  {
    hide And;
    assert Not(MaskOf(b)) == MaskOf(!b);
    AndMask(x, b);
    AndMask(y, !b);
  }

  // ----- Scores

  function Inverse(x: q16): q16 {
    ONE - x
  }

  function SaturatingAdd(l: u16, r: u16): q16 {
    var sum := l + r;
    Cast(Select(MaskGe(sum, 65535), 65535, sum))
  }

  function Coherence(s: Signal): q16 {
    var stable := Average(s.stability, s.accuracy);
    var runtime := Average(Inverse(s.friction), Inverse(s.overhead));
    Smooth(stable, Average(stable, runtime), 2)
  }

  const ARM32: u32 := 1
  const NEON: u32 := 2
  const SMALL_CACHE: u32 := 4

  function ScoreGeneric(s: Signal, c: q16): q16 {
    Average(Average(c, Inverse(s.friction)), Inverse(s.overhead))
  }

  function ScoreNeon(s: Signal, c: q16): q16 {
    var both := And32(MaskNonzero(And32(s.arch, ARM32)), MaskNonzero(And32(s.arch, NEON)));
    SaturatingAdd(Average(c, Inverse(s.overhead)), Select16(both, 12288, 0))
  }

  function ScoreCache(s: Signal, c: q16): q16 {
    var either := Or32(MaskNonzero(And32(s.arch, SMALL_CACHE)), MaskGe(700, s.budget));
    SaturatingAdd(Average(c, Inverse(s.friction)), Select16(either, 8192, 0))
  }

  function ScoreRollback(s: Signal, c: q16): q16 {
    SaturatingAdd(Average(Inverse(s.entropy), Inverse(c)), Select16(MaskNonzero(s.faults), 24576, 0))
  }

  function Scores(s: Signal): (scores: seq<q16>)
    ensures |scores| == 4
  {
    var c := Coherence(s);
    [ScoreGeneric(s, c), ScoreNeon(s, c), ScoreCache(s, c), ScoreRollback(s, c)]
  }

  /** Addition that stops at one. */
  function Capped(x: q16, bonus: q16): q16 {
    if x + bonus > ONE then ONE else x + bonus
  }

  predicate Has(flags: u32, bits: u32) {
    And32(flags, bits) != 0
  }

  /** What the four scores mean. */
  function Meaning(s: Signal): (scores: seq<q16>)
    ensures |scores| == 4
  {
    var c := Coherence(s);
    [Average(Average(c, Inverse(s.friction)), Inverse(s.overhead)),
     Capped(Average(c, Inverse(s.overhead)), if Has(s.arch, ARM32) && Has(s.arch, NEON) then 12288 else 0),
     Capped(Average(c, Inverse(s.friction)), if Has(s.arch, SMALL_CACHE) || s.budget <= 700 then 8192 else 0),
     Capped(Average(Inverse(s.entropy), Inverse(c)), if s.faults != 0 then 24576 else 0)]
  }

  lemma SaturatingAddIs(x: u16, bonus: u16)
    ensures SaturatingAdd(x, bonus) == Capped(x, bonus)
  {
    hide Select, MaskGe;
    MaskGeIs(x + bonus, 65535);
    SelectIs(x + bonus >= 65535, 65535, x + bonus);
  }

  lemma MaskAndOr(a: bool, b: bool)
    ensures And32(MaskOf(a), MaskOf(b)) == MaskOf(a && b)
    ensures Or32(MaskOf(a), MaskOf(b)) == MaskOf(a || b)
  {
    hide And;
    AndMask(MaskOf(a), b);
  }

  const LARGEST_BUDGET: u32 := 0x8000_02bc

  lemma LowBudget(budget: u32)
    ensures MaskGe(700, budget) == MaskOf(budget <= 700 || budget > LARGEST_BUDGET)
  {
    MaskGeIs(700, budget);
  }

  lemma BonusIs(base: q16, mask: u32, b: bool, bonus: q16)
    requires mask == MaskOf(b)
    ensures SaturatingAdd(base, Select16(mask, bonus, 0)) == Capped(base, if b then bonus else 0)
  {
    hide SaturatingAdd, Select16, Capped;
    SelectIs(b, bonus, 0);
    SaturatingAddIs(base, if b then bonus else 0);
  }

  /** The cache-local score in full: a budget above 0x800002BC is taken for a low one. */
  lemma CacheScoreIs(s: Signal)
    ensures Scores(s)[2] == Capped(Average(Coherence(s), Inverse(s.friction)),
              if Has(s.arch, SMALL_CACHE) || s.budget <= 700 || s.budget > LARGEST_BUDGET then 8192 else 0)
  {
    hide Average, Inverse, Coherence, SaturatingAdd, Select16, MaskNonzero, MaskGe, And32, Or32, Capped;
    MaskNonzeroIs(And32(s.arch, SMALL_CACHE));
    LowBudget(s.budget);
    var low := s.budget <= 700 || s.budget > LARGEST_BUDGET;
    MaskAndOr(Has(s.arch, SMALL_CACHE), low);
    BonusIs(Average(Coherence(s), Inverse(s.friction)), Or32(MaskNonzero(And32(s.arch, SMALL_CACHE)), MaskGe(700, s.budget)),
            Has(s.arch, SMALL_CACHE) || low, 8192);
  }

  /** The branchless scores mean what the branches say, exactly when the cycle budget is at most
      0x800002BC, or the cache bonus is due anyway, or makes no difference. */
  lemma ScoresExact(s: Signal)
    ensures Scores(s) == Meaning(s) <==>
            (s.budget <= LARGEST_BUDGET || Has(s.arch, SMALL_CACHE) || Average(Coherence(s), Inverse(s.friction)) == ONE)
    ensures forall r :: 0 <= r < 4 && r != 2 ==> Scores(s)[r] == Meaning(s)[r]
  {
    hide Average, Inverse, Coherence, SaturatingAdd, Select16, MaskNonzero, MaskGe, And32, Or32;
    var c := Coherence(s);
    MaskNonzeroIs(And32(s.arch, ARM32));
    MaskNonzeroIs(And32(s.arch, NEON));
    MaskNonzeroIs(s.faults);
    MaskAndOr(Has(s.arch, ARM32), Has(s.arch, NEON));
    CacheScoreIs(s);
    BonusIs(Average(c, Inverse(s.overhead)), And32(MaskNonzero(And32(s.arch, ARM32)), MaskNonzero(And32(s.arch, NEON))),
            Has(s.arch, ARM32) && Has(s.arch, NEON), 12288);
    BonusIs(Average(Inverse(s.entropy), Inverse(c)), MaskNonzero(s.faults), s.faults != 0, 24576);
  }

  // ----- The best route

  datatype Best = Best(route: u32, score: q16)

  /** A later route replaces the best one so far when its score reaches the successor of the best. */
  function Challenge(best: Best, score: q16, route: u32): Best {
    var mask := MaskGe(score, best.score + 1);
    Best(Select(mask, route, best.route), Select16(mask, score, best.score))
  }

  function SelectBest(scores: seq<q16>): Best
    requires |scores| == 4
  {
    Challenge(Challenge(Challenge(Best(0, scores[0]), scores[1], 1), scores[2], 2), scores[3], 3)
  }

  predicate FirstBest(scores: seq<q16>, best: Best)
    requires |scores| == 4
  {
    && best.route < 4 && best.score == scores[best.route]
    && (forall r :: 0 <= r < 4 ==> scores[r] <= best.score)
    && (forall r :: 0 <= r < best.route ==> scores[r] < best.score)
  }

  lemma ChallengeIs(best: Best, score: q16, route: u32)
    ensures Challenge(best, score, route) == if score > best.score then Best(route, score) else best
  {
    hide MaskGe, Select, Select16;
    MaskGeIs(score, best.score + 1);
    SelectIs(score > best.score, route, best.route);
    SelectIs(score > best.score, score, best.score);
  }

  /** The first route with the highest score is taken, and that score is reported. */
  lemma SelectBestIsFirst(scores: seq<q16>)
    requires |scores| == 4
    ensures FirstBest(scores, SelectBest(scores))
  {
    hide Challenge;
    var b0 := Best(0, scores[0]);
    ChallengeIs(b0, scores[1], 1);
    var b1 := Challenge(b0, scores[1], 1);
    ChallengeIs(b1, scores[2], 2);
    var b2 := Challenge(b1, scores[2], 2);
    ChallengeIs(b2, scores[3], 3);
  }

  lemma FirstBestUnique(scores: seq<q16>, a: Best, b: Best)
    requires |scores| == 4 && FirstBest(scores, a) && FirstBest(scores, b)
    ensures a == b
  {
  }

  // ----- The plan

  const UNSTABLE: u32 := 1
  const INACCURATE: u32 := 2
  const FRICTION: u32 := 4
  const OVERHEAD: u32 := 8
  const ENTROPY: u32 := 16
  const LOW_CONFIDENCE: u32 := 32
  const DISALLOWED: u32 := 64

  const FAILSAFE: u32 := 1
  const FAILOVER: u32 := 2
  const ROLLBACK: u32 := 4
  const MORPHED: u32 := 8

  function Low16(x: u32): u16 {
    x % U16
  }

  function MitigationMask(s: Signal): u16 {
    var mask := And32(MaskGe(32768, s.stability), UNSTABLE);
    var mask1 := Or32(mask, And32(MaskGe(32768, s.accuracy), INACCURATE));
    var mask2 := Or32(mask1, And32(MaskGe(s.friction, 49152), FRICTION));
    var mask3 := Or32(mask2, And32(MaskGe(s.overhead, 49152), OVERHEAD));
    Low16(Or32(mask3, Low16(s.faults)))
  }

  function Token(lastRoute: u32, route: u32): u16 {
    Low16(Or32((lastRoute % 256) * 256, route % 256))
  }

  function Xor32(a: u32, b: u32): u32 {
    Powers();
    XorFits(a, b, 32);
    Xor(a, b)
  }

  function Xor16(a: u16, b: u16): u16 {
    Powers();
    XorFits(a, b, 16);
    Xor(a, b)
  }

  function Plan(s: Signal): Decision {
    var best := SelectBest(Scores(s));
    var mitigation := MitigationMask(s);
    var active := MaskNonzero(mitigation);
    var changed := MaskNonzero(Xor32(best.route, s.lastRoute));
    Decision(best.route,
             Or32(Or32(And32(active, FAILSAFE), And32(active, FAILOVER)), And32(changed, MORPHED)),
             best.score, Token(s.lastRoute, best.route), mitigation)
  }

  /** The plan is the first route with the highest score, and its confidence is that score, whenever
      the cycle budget is at most 0x800002BC. The flags say whether the route has changed, and whether
      something calls for mitigation. */
  lemma PlanIsBest(s: Signal)
    ensures FirstBest(Scores(s), Best(Plan(s).route, Plan(s).confidence))
    ensures s.budget <= LARGEST_BUDGET ==> FirstBest(Meaning(s), Best(Plan(s).route, Plan(s).confidence))
    ensures Plan(s).flags == (if Plan(s).mitigation != 0 then FAILSAFE + FAILOVER else 0) + (if Plan(s).route != s.lastRoute then MORPHED else 0)
  {
    hide Scores, Meaning, SelectBest, MitigationMask, Coherence, MaskNonzero, Xor32, Average, And32, Has;
    SelectBestIsFirst(Scores(s));
    ScoresExact(s);
    var best, mitigation := SelectBest(Scores(s)), MitigationMask(s);
    MaskNonzeroIs(mitigation);
    MaskNonzeroIs(Xor32(best.route, s.lastRoute));
    SameRoute(best.route, s.lastRoute);
    PlanFlags(mitigation != 0, best.route != s.lastRoute);
  }

  /** A huge budget makes no difference when the cache bonus is due anyway, changes nothing, or does
      not lift the cache-local route to the first place. */
  predicate BudgetHarmless(s: Signal) {
    var base, m := Average(Coherence(s), Inverse(s.friction)), Meaning(s);
    var boosted := Capped(base, 8192);
    || s.budget <= LARGEST_BUDGET || Has(s.arch, SMALL_CACHE) || base == ONE
    || m[0] >= boosted || m[1] >= boosted || m[3] > boosted
  }

  /** The plan is the one that the meaning of the scores asks for, exactly when the budget is harmless. */
  lemma PlanExact(s: Signal)
    ensures FirstBest(Meaning(s), Best(Plan(s).route, Plan(s).confidence)) <==> BudgetHarmless(s)
    ensures Best(Plan(s).route, Plan(s).confidence) == SelectBest(Meaning(s)) <==> BudgetHarmless(s)
  {
    hide Scores, Meaning, Plan, Coherence, Average, Inverse, Has, SelectBest;
    PlanIsBest(s);
    ScoresExact(s);
    CacheScoreIs(s);
    CacheMeaning(s);
    SelectBestIsFirst(Meaning(s));
    var planned := Best(Plan(s).route, Plan(s).confidence);
    if FirstBest(Meaning(s), planned) {
      FirstBestUnique(Meaning(s), planned, SelectBest(Meaning(s)));
    }
  }

  lemma CacheMeaning(s: Signal)
    ensures Meaning(s)[2] == Capped(Average(Coherence(s), Inverse(s.friction)),
              if Has(s.arch, SMALL_CACHE) || s.budget <= 700 then 8192 else 0)
  {
    hide Coherence, Average, Inverse, Has, Capped;
  }

  lemma SameRoute(a: u32, b: u32)
    ensures Xor32(a, b) == 0 <==> a == b
  {
    XorUndone(a, b);
  }

  lemma PlanFlags(active: bool, changed: bool)
    ensures Or32(Or32(And32(MaskOf(active), FAILSAFE), And32(MaskOf(active), FAILOVER)), And32(MaskOf(changed), MORPHED))
         == (if active then FAILSAFE + FAILOVER else 0) + (if changed then MORPHED else 0)
  {
    hide And, And32;
    AndMask(FAILSAFE, active);
    AndMask(FAILOVER, active);
    AndMask(MORPHED, changed);
    assert Or(1, 2) == 3 && Or(3, 8) == 11;
  }

  const HUGE: Signal := Signal(40000, 40000, 20000, 65535, 20000, 0, 0, 0xffff_ffff, 0)

  lemma NoFlags(bits: u32)
    ensures !Has(0, bits)
  {
  }

  lemma HugeCoherence()
    ensures Coherence(HUGE) == 40691
  {
    hide Average, Smooth;
    AverageIs(40000, 40000);
    AverageIs(45535, 45535);
    AverageIs(40000, 45535);
    SmoothBetween(40000, 42767, 2);
  }

  lemma AverageIs(x: q16, y: q16)
    ensures Average(x, y) == (x + y) / 2
  {
  }

  lemma HugeMeaning()
    ensures Meaning(HUGE) == [44324, 43113, 43113, 12422]
    ensures Average(Coherence(HUGE), Inverse(HUGE.friction)) == 43113
  {
    hide Coherence, Has;
    HugeCoherence();
    NoFlags(SMALL_CACHE);
    NoFlags(ARM32);
    assert Average(40691, 45535) == 43113;
    assert Average(43113, 45535) == 44324;
    assert Average(0, 24844) == 12422;
  }

  /** The bound is needed: with the largest budget the cache-local route gets the bonus for a low one
      and is planned, although the generic route has the highest score. */
  lemma HugeBudgetFails()
    ensures FirstBest(Meaning(HUGE), Best(0, 44324))
    ensures Plan(HUGE).route == 2 && Plan(HUGE).confidence == 51305
  {
    hide Plan, Scores, Has, MaskNonzero, MaskGe, Select16, Coherence, Meaning, Average;
    HugeMeaning();
    NoFlags(SMALL_CACHE);
    CacheScoreIs(HUGE);
    ScoresExact(HUGE);
    PlanIsBest(HUGE);
    assert Scores(HUGE)[2] == 51305;
    assert Scores(HUGE) == [44324, 43113, 51305, 12422];
  }

  // ----- Mitigation

  function KnownGood(k: u32): u32 {
    Select(MaskGe(3, k), k, 0)
  }

  function RouteBit(route: u32): u32 {
    var shift := And32(route, 3);
    And32(if shift == 0 then 1 else if shift == 1 then 2 else if shift == 2 then 4 else 8, MaskGe(3, route))
  }

  /** The risks in the order of their bits, and the fault flags of the signal. */
  function RiskWord(s: Signal, p: RiskPolicy, planned: Decision): u32 {
    var allowedBit := And32(RouteBit(planned.route), p.allowed);
    Or32(And32(MaskGe(p.minStability, s.stability + 1), UNSTABLE),
    Or32(And32(MaskGe(p.minAccuracy, s.accuracy + 1), INACCURATE),
    Or32(And32(MaskGe(s.friction, p.maxFriction + 1), FRICTION),
    Or32(And32(MaskGe(s.entropy, p.maxEntropy + 1), ENTROPY),
    Or32(And32(MaskGe(s.overhead, p.maxOverhead + 1), OVERHEAD),
    Or32(And32(MaskGe(p.minConfidence, planned.confidence + 1), LOW_CONFIDENCE),
    Or32(And32(Not(MaskNonzero(allowedBit)), DISALLOWED), s.faults)))))))
  }

  function Mitigate(s: Signal, p: RiskPolicy, previous: Decision): Mitigation {
    var planned := Plan(s);
    var risk := RiskWord(s, p, planned);
    var active := MaskNonzero(risk);
    var safe := KnownGood(p.knownGood);
    var token := Xor16(Xor16(previous.token, planned.token), Low16(Or32(0x5a00, safe % 256)));
    var flags := Or32(planned.flags, And32(active, FAILSAFE + FAILOVER + ROLLBACK));
    Mitigation(
      Decision(Select(active, safe, planned.route), flags,
               Select16(active, Smooth(planned.confidence, ONE, 2), planned.confidence),
               Select16(active, token, planned.token),
               Low16(Or32(planned.mitigation, Low16(risk)))),
      risk, And32(flags, FAILSAFE + FAILOVER + ROLLBACK))
  }

  /** Every limit of the policy holds, the planned route is allowed, and no fault is flagged. */
  predicate RiskFree(s: Signal, p: RiskPolicy) {
    && s.stability >= p.minStability && s.accuracy >= p.minAccuracy
    && s.friction <= p.maxFriction && s.entropy <= p.maxEntropy && s.overhead <= p.maxOverhead
    && Plan(s).confidence >= p.minConfidence
    && Bit(p.allowed, Plan(s).route)
    && s.faults == 0
  }

  lemma OverIs(x: q16, y: q16, bit: u32)
    ensures And32(MaskGe(x, y + 1), bit) == if x > y then bit else 0
  {
    hide MaskGe, And32;
    MaskGeIs(x, y + 1);
    AndMask(bit, x > y);
  }

  lemma RouteBitIs(route: u32, allowed: u32)
    requires route < 4
    ensures And32(RouteBit(route), allowed) != 0 <==> Bit(allowed, route)
  {
    hide MaskGe;
    assert And(1, 3) == 1 && And(2, 3) == 2 && And(3, 3) == 3;
    MaskGeIs(3, route);
    AndMask(RouteShift(route), true);
    AndPow2(route, allowed);
    assert RouteShift(route) == Pow2(route);
  }

  function RouteShift(route: u32): u32 {
    if route == 0 then 1 else if route == 1 then 2 else if route == 2 then 4 else 8
  }

  lemma DisallowedIs(route: u32, allowed: u32)
    requires route < 4
    ensures And32(Not(MaskNonzero(And32(RouteBit(route), allowed))), DISALLOWED) == if Bit(allowed, route) then 0 else DISALLOWED
  {
    hide And32, RouteBit, MaskNonzero;
    RouteBitIs(route, allowed);
    MaskNonzeroIs(And32(RouteBit(route), allowed));
    AndMask(DISALLOWED, !Bit(allowed, route));
  }

  function Flag(b: bool, bit: u32): u32 {
    if b then bit else 0
  }

  /** The risk word is the union of one flag for each broken limit and the fault flags. */
  lemma RiskWordIs(s: Signal, p: RiskPolicy, d: Decision)
    requires d.route < 4
    ensures RiskWord(s, p, d) ==
      Or32(Flag(s.stability < p.minStability, 1), Or32(Flag(s.accuracy < p.minAccuracy, 2),
      Or32(Flag(s.friction > p.maxFriction, 4), Or32(Flag(s.entropy > p.maxEntropy, 16),
      Or32(Flag(s.overhead > p.maxOverhead, 8), Or32(Flag(d.confidence < p.minConfidence, 32),
      Or32(Flag(!Bit(p.allowed, d.route), 64), s.faults)))))))
  {
    hide And32, Or32, MaskGe, MaskNonzero, RouteBit, Bit;
    OverIs(p.minStability, s.stability, 1);
    OverIs(p.minAccuracy, s.accuracy, 2);
    OverIs(s.friction, p.maxFriction, 4);
    OverIs(s.entropy, p.maxEntropy, 16);
    OverIs(s.overhead, p.maxOverhead, 8);
    OverIs(p.minConfidence, d.confidence, 32);
    DisallowedIs(d.route, p.allowed);
  }

  lemma NoRiskIsRiskFree(s: Signal, p: RiskPolicy)
    ensures RiskWord(s, p, Plan(s)) == 0 <==> RiskFree(s, p)
  {
    hide Plan, RiskWord, Bit, Or;
    PlanIsBest(s);
    RiskWordIs(s, p, Plan(s));
    OrNothing();
  }

  /** The known-good route is taken from the policy if it is a route, and is the generic one otherwise,
      unless it is beyond 0x80000003: then it is taken although it is none of the four routes. */
  lemma KnownGoodIs(k: u32)
    ensures KnownGood(k) == if k <= 3 || k > 0x8000_0003 then k else 0
    ensures KnownGood(k) < 4 <==> k <= 0x8000_0003
  {
    hide MaskGe, Select;
    MaskGeIs(3, k);
    SelectIs(k <= 3 || k > 0x8000_0003, k, 0);
  }

  /** Mitigation keeps the plan exactly when every limit holds, the route is allowed and no fault is
      flagged. Otherwise it takes the known-good route, raises all three flags and never lowers the
      confidence. */
  lemma MitigateExact(s: Signal, p: RiskPolicy, previous: Decision)
    ensures Mitigate(s, p, previous).decision == Plan(s) <==> RiskFree(s, p)
    ensures RiskFree(s, p) ==> Mitigate(s, p, previous).risk == 0
    ensures !RiskFree(s, p) ==>
              var m := Mitigate(s, p, previous);
              && m.risk != 0 && m.decision.route == KnownGood(p.knownGood)
              && m.applied == FAILSAFE + FAILOVER + ROLLBACK
              && Plan(s).confidence <= m.decision.confidence
    ensures !RiskFree(s, p) ==> (Mitigate(s, p, previous).decision.route < 4 <==> p.knownGood <= 0x8000_0003)
  {
    hide Plan, RiskWord, KnownGood, MaskNonzero, Select, Select16, Smooth, Xor16, And32, Or32, RiskFree;
    NoRiskIsRiskFree(s, p);
    KnownGoodIs(p.knownGood);
    var planned, risk, safe := Plan(s), RiskWord(s, p, Plan(s)), KnownGood(p.knownGood);
    var m := Mitigate(s, p, previous);
    MaskNonzeroIs(risk);
    SelectIs(risk != 0, safe, planned.route);
    SelectIs(risk != 0, Smooth(planned.confidence, ONE, 2), planned.confidence);
    SmoothBetween(planned.confidence, ONE, 2);
    var token := Xor16(Xor16(previous.token, planned.token), Low16(Or32(0x5a00, safe % 256)));
    SelectIs(risk != 0, token, planned.token);
    AndMask(7, risk != 0);
    AllFlags(planned.flags, s);
    if risk == 0 {
      NothingAdded(planned.flags);
      NothingAdded(planned.mitigation);
    }
  }

  lemma NothingAdded(x: u32)
    ensures Or32(x, 0) == x
  {
  }

  /** A plan never asks for a rollback, so raising the three flags always shows. */
  lemma AllFlags(flags: u32, s: Signal)
    requires flags == Plan(s).flags
    ensures Or32(flags, 7) != flags && And32(Or32(flags, 7), 7) == 7
  {
    hide Plan;
    PlanIsBest(s);
    assert flags in {0, 3, 8, 11};
    assert Or(0, 7) == 7 && Or(3, 7) == 7 && Or(8, 7) == 15 && Or(11, 7) == 15;
    assert And(7, 7) == 7 && And(15, 7) == 7;
  }

  // ----- Rollback and failover

  function Rollback(previous: Decision, knownGood: u32): Decision {
    var route := KnownGood(knownGood);
    previous.(route := route, flags := Or32(previous.flags, ROLLBACK),
              confidence := Smooth(previous.confidence, ONE, 2),
              token := Xor16(previous.token, Low16(Or32(0xa500, route % 256))))
  }

  function Failover(s: Signal, previous: Decision): Decision {
    var planned := Plan(s);
    var mask := MaskNonzero(And32(previous.flags, ROLLBACK));
    planned.(route := Select(mask, previous.route, planned.route), flags := Or32(planned.flags, FAILOVER),
             token := Xor16(planned.token, previous.token))
  }

  lemma RollbackFlag(flags: u32)
    ensures And32(flags, ROLLBACK) != 0 <==> Bit(flags, 2)
    ensures Bit(Or32(flags, ROLLBACK), 2) && Bit(Or32(flags, 7), 2)
  {
    AndPow2(2, flags);
    AndComm(4, flags);
    OrBit(flags, 4, 2);
    OrBit(flags, 7, 2);
    assert Pow2(2) == 4 && Bit(4, 2) && Bit(7, 2);
  }

  /** A failover plans anew, but stays on the previous route when that one was rolled back to. It adds the
      failover flag and no other, and its token carries the previous one: combining the two again gives
      the token of the plan. */
  lemma FailoverKeepsRollback(s: Signal, previous: Decision, knownGood: u32)
    ensures Failover(s, previous).route == if Bit(previous.flags, 2) then previous.route else Plan(s).route
    ensures Failover(s, Rollback(previous, knownGood)).route == KnownGood(knownGood)
    ensures forall k: nat :: Bit(Failover(s, previous).flags, k) <==> Bit(Plan(s).flags, k) || k == 1
    ensures Xor16(Failover(s, previous).token, previous.token) == Plan(s).token
    ensures Failover(s, previous).confidence == Plan(s).confidence && Failover(s, previous).mitigation == Plan(s).mitigation
  {
    hide Plan, KnownGood, MaskNonzero, And32, Or32, Select, Smooth, Xor16, Bit;
    var r := Rollback(previous, knownGood);
    RollbackFlag(previous.flags);
    RollbackFlag(r.flags);
    MaskNonzeroIs(And32(r.flags, ROLLBACK));
    MaskNonzeroIs(And32(previous.flags, ROLLBACK));
    SelectIs(true, r.route, Plan(s).route);
    SelectIs(true, previous.route, Plan(s).route);
    SelectIs(false, previous.route, Plan(s).route);
    forall k: nat ensures Bit(Failover(s, previous).flags, k) <==> Bit(Plan(s).flags, k) || k == 1 {
      FailoverFlag(Plan(s).flags, k);
    }
    TokenUndone(Plan(s).token, previous.token);
  }

  lemma FailoverFlag(flags: u32, k: nat)
    ensures Bit(Or32(flags, FAILOVER), k) <==> Bit(flags, k) || k == 1
  {
    hide Or;
    OrBit(flags, FAILOVER, k);
    BitOfTwo(k);
  }

  lemma BitOfTwo(k: nat)
    ensures Bit(2, k) <==> k == 1
  {
    if k >= 2 {
      ZeroBit(k - 2);
      assert Bit(2, k) == Bit(1, k - 1) == Bit(0, k - 2);
    }
  }

  lemma TokenUndone(token: u16, other: u16)
    ensures Xor16(Xor16(token, other), other) == token
  {
    hide Xor;
    XorUndone(token, other);
  }

  /** Rolling back twice to the same route gives back the token of the first decision; route and flags
      stay those of the first rollback, and the confidence never falls. */
  lemma RollbackTwice(previous: Decision, knownGood: u32)
    ensures var once, twice := Rollback(previous, knownGood), Rollback(Rollback(previous, knownGood), knownGood);
            && twice.token == previous.token
            && twice.route == once.route && twice.flags == once.flags
            && previous.confidence <= once.confidence <= twice.confidence
  {
    hide KnownGood, Smooth, Or, Xor;
    var mark := Low16(Or32(0xa500, KnownGood(knownGood) % 256));
    XorUndone(previous.token, mark);
    OrAbsorbs(previous.flags, ROLLBACK);
    SmoothBetween(previous.confidence, ONE, 2);
    SmoothBetween(Smooth(previous.confidence, ONE, 2), ONE, 2);
  }
}
