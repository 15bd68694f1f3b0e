/** A run that leaves the slab full, and the observation that is lost then. */
module StoreExamples {
  import opened Bytes
  import opened RflFormat
  import opened LearningModel
  import opened StoreSpec
  import opened StoreProofs

  /** Nothing of the slab can be written. */
  const FAILING: Io := Io(0, false, 0, false)

  function Observations(config: Config, input: Input, n: nat): seq<Op> {
    [OpInit(config, true, 0, GOOD), OpSetMode(LEARN_SHADOW, GOOD)] + seq(n, _ => OpObserve(input, 0, FAILING))
  }

  predicate Small(input: Input) {
    input.memoryDelta == 0 && CostInRange(input)
  }

  lemma Counted(m: Model, mode: Mode, input: Input)
    requires Small(input) && m.tracked == 0 && m.nextSequence + 1 < U64
    ensures Observed(m, mode, input).tracked == 0 && Observed(m, mode, input).nextSequence == m.nextSequence + 1
    ensures InRange(m, input)
  {
  }

  /** One observation while there is room, whose flush, if it comes to one, fails. */
  lemma OneObservation(s: State, input: Input)
    requires Accepts(s) && |s.slab| < SLAB_RECORDS
    ensures var t := Observe(s, input, 0, FAILING).1;
            && Accepts(t) && |t.slab| == |s.slab| + 1 && t.model == Observed(s.model, s.mode, input)
  {
    hide Observed, RecordFor, Write, EncodeAll;
  }

  lemma {:induction false} SlabFills(config: Config, input: Input, n: nat)
    requires ConfigValid(config) && Small(input) && n <= SLAB_RECORDS
    ensures var s := Run(Closed([]), Observations(config, input, n));
            && RunAdmissible(Closed([]), Observations(config, input, n), true)
            && Accepts(s) && |s.slab| == n && s.model.tracked == 0 && s.model.nextSequence == n + 1
  {
    hide Run, RunAdmissible, Observed, RecordFor, Observe, Init, Reopened;
    var s0 := Closed([]);
    if n == 0 {
      var a, b := OpInit(config, true, 0, GOOD), OpSetMode(LEARN_SHADOW, GOOD);
      assert Observations(config, input, 0) == [a, b];
      OneMore(s0, [], a, true);
      OneMore(s0, [a], b, true);
      assert [] + [a] == [a] && [a] + [b] == [a, b];
      GoodStart(config);
    } else {
      var before, c := Observations(config, input, n - 1), OpObserve(input, 0, FAILING);
      assert Observations(config, input, n) == before + [c];
      SlabFills(config, input, n - 1);
      var s := Run(s0, before);
      OneMore(s0, before, c, true);
      Counted(s.model, s.mode, input);
      OneObservation(s, input);
    }
  }

  /** Sixty-four observations whose flush fails are an admissible run that leaves the slab full, and
      after one more observation no log agrees with the live model. */
  lemma FullSlabReached(config: Config, input: Input, io: Io, log: seq<Record>)
    requires ConfigValid(config) && Small(input)
    ensures var s := Run(Closed([]), Observations(config, input, SLAB_RECORDS));
            && RunAdmissible(Closed([]), Observations(config, input, SLAB_RECORDS), true)
            && Accepts(s) && |s.slab| == SLAB_RECORDS
            && Observe(s, input, 0, io).0 == ErrCapacity
            && !Inv(Observe(s, input, 0, io).1, log, true)
  {
    hide Run, RunAdmissible, Observed, RecordFor, Inv, Trained;
    SlabFills(config, input, SLAB_RECORDS);
    var s := Run(Closed([]), Observations(config, input, SLAB_RECORDS));
    var kept := RunKeeps(Closed([]), Observations(config, input, SLAB_RECORDS), true);
    Counted(s.model, s.mode, input);
    RoomIsNecessary(s, kept, true, input, 0, io);
  }
}
