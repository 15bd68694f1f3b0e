/** Answers that the repository's own self-tests expect, and a few more of the kind. */
module SelfTests {
  import opened Bytes
  import Crc32c
  import Ratio
  import RecordChain
  import opened Bitwise
  import opened Q16
  import opened Planner
  import PlanFields

  // ----- CRC-32C

  function Digits(): (s: seq<byte>)
    ensures |s| == 9
  {
    [0x31, 0x32, 0x33, 0x34, 0x35, 0x36, 0x37, 0x38, 0x39]
  }

  lemma Fed(c: bv32, s: seq<byte>, c': bv32)
    requires s != [] && Crc32c.FeedByte(c, s[0]) == c'
    ensures Crc32c.Feed(c, s) == Crc32c.Feed(c', s[1..])
  {
    hide Crc32c.FeedByte;
  }

  lemma Bytes0To2()
    ensures Crc32c.FeedByte(0xffffffff, 0x31) == 0x6f0a661c
    ensures Crc32c.FeedByte(0x6f0a661c, 0x32) == 0x8caa3b9f
    ensures Crc32c.FeedByte(0x8caa3b9f, 0x33) == 0xef84d04d
  {
  }

  lemma Bytes3To5()
    ensures Crc32c.FeedByte(0xef84d04d, 0x34) == 0x09c50b11
    ensures Crc32c.FeedByte(0x09c50b11, 0x35) == 0xe72edcca
    ensures Crc32c.FeedByte(0xe72edcca, 0x36) == 0xbeca8e79
  {
  }

  lemma Bytes6To8()
    ensures Crc32c.FeedByte(0xbeca8e79, 0x37) == 0xedbd6815
    ensures Crc32c.FeedByte(0xedbd6815, 0x38) == 0x9f787f65
    ensures Crc32c.FeedByte(0x9f787f65, 0x39) == 0x1cf96d7c
  {
  }

  /** The check value of CRC-32C, for the nine digits. */
  lemma CheckValue()
    ensures Crc32c.Checksum(Digits()) == 0xe3069283
  {
    hide Crc32c.Feed, Crc32c.FeedByte;
    Bytes0To2();
    Bytes3To5();
    Bytes6To8();
    var s := Digits();
    Fed(0xffffffff, s, 0x6f0a661c);
    Fed(0x6f0a661c, s[1..], 0x8caa3b9f);
    Fed(0x8caa3b9f, s[2..], 0xef84d04d);
    Fed(0xef84d04d, s[3..], 0x09c50b11);
    Fed(0x09c50b11, s[4..], 0xe72edcca);
    Fed(0xe72edcca, s[5..], 0xbeca8e79);
    Fed(0xbeca8e79, s[6..], 0xedbd6815);
    Fed(0xedbd6815, s[7..], 0x9f787f65);
    Fed(0x9f787f65, s[8..], 0x1cf96d7c);
    Finished(s[9..]);
  }

  lemma Finished(s: seq<byte>)
    requires s == []
    ensures forall c :: Crc32c.Feed(c, s) == c
  {
    hide Crc32c.FeedByte;
  }

  // ----- Ratios

  /** The last one is close to one half of the largest number that fits the registers. */
  lemma RatioAnswers()
    ensures Ratio.Scaled(1, 4, 1_000_000) == 250_000
    ensures Ratio.Scaled(1, 3, 1_000_000) == 333_333
    ensures Ratio.Scaled(2, 3, 65535) == 43690
    ensures Ratio.Scaled(1, 1, 65535) == 65535
    ensures Ratio.Scaled(0xffff_ffff_ffff_fffe, 0xffff_ffff_ffff_ffff, 1_000_000) == 999_999
  {
  }

  // ----- The hash of a chain

  /** An empty chain starts from the offset basis, and a byte is combined before the multiplication. */
  lemma ChainAnswers()
    ensures RecordChain.Link(0, []) == 1469598103934665603
    ensures RecordChain.Link(1, [0]) == 1099511628211
    ensures RecordChain.Link(0x100, [1]) == 0x101 * 1099511628211 % 0x1_0000_0000_0000_0000
    ensures RecordChain.Link(3, [2]) == 1099511628211
  {
    ByteOfInverse(0);
    ByteOfInverse(1);
    ByteOfInverse(3);
  }

  // ----- Plans

  const STABLE: Signal := Signal(62000, 61000, 9000, 12000, 10000, 0, 3, 1600, 0)
  const FAULTY: Signal := Signal(18000, 24000, 62000, 58000, 60000, 1, 4, 320, 1)
  const STRICT: RiskPolicy := RiskPolicy(32768, 32768, 49152, 49152, 49152, 50000, 1, 0)

  lemma ScoresOf(s: Signal, c: q16, both: bool, small: bool)
    requires c == Coherence(s) && both == (Has(s.arch, ARM32) && Has(s.arch, NEON)) && small == Has(s.arch, SMALL_CACHE)
    requires s.budget <= LARGEST_BUDGET
    ensures Scores(s) ==
      [((c + (65535 - s.friction)) / 2 + (65535 - s.overhead)) / 2,
       Capped((c + (65535 - s.overhead)) / 2, if both then 12288 else 0),
       Capped((c + (65535 - s.friction)) / 2, if small || s.budget <= 700 then 8192 else 0),
       Capped(((65535 - s.entropy) + (65535 - c)) / 2, if s.faults != 0 then 24576 else 0)]
  {
    hide Scores, Coherence, Has, Average;
    ScoresExact(s);
    AverageIs(c, Inverse(s.friction));
    AverageIs(Average(c, Inverse(s.friction)), Inverse(s.overhead));
    AverageIs(c, Inverse(s.overhead));
    AverageIs(Inverse(s.entropy), Inverse(c));
  }

  lemma BestOf(scores: seq<q16>, values: seq<q16>, best: Best, planned: Best)
    requires |scores| == |values| == 4 && scores == values
    requires FirstBest(values, best) && FirstBest(scores, planned)
    ensures planned == best
  {
    FirstBestUnique(values, best, planned);
  }

  lemma StablePlan()
    ensures Plan(STABLE).route == 1 && Plan(STABLE).flags == 8 && Plan(STABLE).confidence == 65535
    ensures Plan(STABLE).mitigation == 0 && Plan(STABLE).token == 1
  {
    hide Plan, Coherence, Has, Scores, Or32;
    PlanFields.CoherenceIs(STABLE);
    PlanFields.ArchBits(3);
    ScoresOf(STABLE, 60816, true, false);
    PlanIsBest(STABLE);
    BestOf(Scores(STABLE), [57105, 65535, 58675, 29127], Best(1, 65535), Best(Plan(STABLE).route, Plan(STABLE).confidence));
    PlanFields.PlanToken(STABLE);
    PlanFields.PlanMitigates(STABLE);
    NothingFlagged();
  }

  lemma NothingFlagged()
    ensures Low16(Or32(Or32(Or32(Or32(0, 0), 0), 0), 0)) == 0
  {
  }

  lemma FaultyPlan()
    ensures Plan(FAULTY).route == 3 && Plan(FAULTY).confidence == 51640
  {
    hide Plan, Coherence, Has, Scores;
    PlanFields.CoherenceIs(FAULTY);
    PlanFields.ArchBits(4);
    ScoresOf(FAULTY, 18941, false, true);
    PlanIsBest(FAULTY);
    BestOf(Scores(FAULTY), [8386, 12238, 19430, 51640], Best(3, 51640), Best(Plan(FAULTY).route, Plan(FAULTY).confidence));
  }

  /** A stable signal on a processor with vectors is planned on the vector route, a change of route; a failover
      to a faulty signal goes to the rollback route, a rollback from there to the generic one; and mitigation of
      the faulty signal under a strict policy takes the generic route and names all six risks. */
  lemma PlanAnswers()
    ensures Plan(STABLE).route == 1 && Plan(STABLE).flags == 8
    ensures Failover(FAULTY, Plan(STABLE)).route == 3 && Bit(Failover(FAULTY, Plan(STABLE)).flags, 1)
    ensures Rollback(Failover(FAULTY, Plan(STABLE)), 0).route == 0 && Bit(Rollback(Failover(FAULTY, Plan(STABLE)), 0).flags, 2)
    ensures var m := Mitigate(FAULTY, STRICT, Plan(STABLE));
            m.decision.route == 0 && m.applied == 7 && m.risk == 0x5f
  {
    hide Plan, Failover, Rollback, Mitigate, RiskWord, RiskFree, KnownGood, Bit, Or;
    StablePlan();
    FaultyPlan();
    FlagsOfEight();
    FailoverKeepsRollback(FAULTY, Plan(STABLE), 0);
    RolledBack(Failover(FAULTY, Plan(STABLE)));
    KnownGoodIs(0);
    RisksOfFaulty();
    MitigateExact(FAULTY, STRICT, Plan(STABLE));
    PlanFields.MitigationAdds(FAULTY, STRICT, Plan(STABLE));
    NoRiskIsRiskFree(FAULTY, STRICT);
  }

  lemma FlagsOfEight()
    ensures !Bit(8, 2)
  {
  }

  lemma RolledBack(d: Decision)
    ensures Rollback(d, 0).route == 0 && Bit(Rollback(d, 0).flags, 2)
  {
    hide KnownGood, Smooth, Xor16, Or32, Bit;
    KnownGoodIs(0);
    RollbackFlag(d.flags);
  }

  lemma Unions()
    ensures Or32(64, 1) == 65 && Or32(0, 65) == 65 && Or32(8, 65) == 73
    ensures Or32(16, 73) == 89 && Or32(4, 89) == 93 && Or32(2, 93) == 95 && Or32(1, 95) == 95
  {
  }

  lemma SixRisks()
    ensures Or32(1, Or32(2, Or32(4, Or32(16, Or32(8, Or32(0, Or32(64, 1))))))) == 0x5f
  {
    hide Or32;
    Unions();
  }

  lemma RisksOfFaulty()
    ensures RiskWord(FAULTY, STRICT, Plan(FAULTY)) == 0x5f
  {
    hide Plan, RiskWord, Or32, Bit;
    FaultyPlan();
    RiskWordIs(FAULTY, STRICT, Plan(FAULTY));
    SixRisks();
    NotAllowed();
  }

  lemma NotAllowed()
    ensures !Bit(1, 3)
  {
  }
}
