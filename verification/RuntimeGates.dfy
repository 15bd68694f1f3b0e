/** Which calls the learning runtime takes in which mode, and what its thresholds come to. */
module RuntimeGates {
  import opened Bytes
  import opened RflFormat
  import opened LearningModel
  import opened StoreSpec
  import opened RuntimeSpec
  import opened LearningRuntime
  import Predictor

  /** Before opening every call but opening is refused, afterwards opening is; observations are refused in the
      modes 0 and 5, a reset in all others, and a mode beyond 5 always. A refusal changes nothing. */
  lemma CallsRefused(r: Runtime, call: Call)
    requires !r.initialized ==> !call.CallOpen? && !(call.CallSetMode? && call.mode > 5)
    requires r.initialized ==>
      || call.CallOpen?
      || (call.CallObserve? && r.mode in {0, 5})
      || (call.CallReset? && r.mode in {1, 2, 3, 4})
    ensures Apply(r, call) == (ErrState, r)
  {
    hide StoreSpec.Observe, StoreSpec.Init, StoreSpec.SetMode, FlushNow, StoreSpec.Close, StoreSpec.ResetVolatile, NoChecks;
  }

  lemma UnknownMode(r: Runtime, mode: nat, io: Io, again: Io)
    requires mode > 5
    ensures RuntimeSpec.SetMode(r, mode, io, again) == (ErrArg, r)
  {
    hide StoreSpec.SetMode, FlushNow, NoChecks;
  }

  /** A change of mode that succeeds sets the mode asked for, and behind it the store mode of the same number,
      or the frozen one for the two modes that do not learn. */
  lemma ModeReached(r: Runtime, mode: nat, io: Io, again: Io)
    requires Consistent(r) && RuntimeSpec.SetMode(r, mode, io, again).0 == Ok
    ensures var r' := RuntimeSpec.SetMode(r, mode, io, again).1;
            mode <= 5 && r'.mode == mode && r'.store.Open? && r'.store.mode == if mode < 4 then mode else 4
  {
    hide StoreSpec.SetMode, FlushNow, NoChecks, Consistent;
    SetModeKeepsConsistent(r, mode, io, again);
    StoreBehind(RuntimeSpec.SetMode(r, mode, io, again).1);
  }

  lemma StoreBehind(r: Runtime)
    requires Consistent(r) && r.initialized
    ensures r.store.Open? && r.store.mode == Image(r.mode)
  {
    hide TableOk, Occupied;
  }

  /** In the learning modes a call to observe is a call to the store; while validating it never reaches it. */
  lemma ObserveReaches(r: Runtime, input: Input, endedNs: nat, io: Io)
    requires r.initialized
    ensures r.mode in {1, 2, 3} ==>
      RuntimeSpec.Observe(r, input, endedNs, io) == (StoreSpec.Observe(r.store, input, endedNs, io).0,
                                                    r.(store := StoreSpec.Observe(r.store, input, endedNs, io).1))
    ensures r.mode == 4 ==> RuntimeSpec.Observe(r, input, endedNs, io).1.store == r.store
  {
    hide StoreSpec.Observe, PredictNow, Noted;
  }

  /** A reset of a runtime that is off or frozen succeeds and forgets the validation, all predictions and their
      counters; file, slab, sequence numbers and memory totals stay. */
  lemma ResetForgets(r: Runtime, context: bv64)
    requires Consistent(r) && r.initialized && r.mode in {0, 5}
    ensures var (rc, r') := RuntimeSpec.ResetVolatile(r);
      && rc == Ok && r'.mode == r.mode && r'.initialized && r'.store.Open?
      && (forall i :: 0 <= i < |r'.checks| ==> r'.checks[i] == UNCHECKED) && r'.contextsUsed == 0 && r'.tally == NO_TALLY
      && Predictor.Predict(r'.store.model.table, context) == Predictor.NoPrediction
      && r'.store.model.predictions == r'.store.model.correct == r'.store.model.incorrect == 0
      && r'.store.latency.count == 0 && r'.store.mode == r.store.mode
      && r'.store.file == r.store.file && r'.store.slab == r.store.slab && r'.store.committed == r.store.committed
      && r'.store.model.nextSequence == r.store.model.nextSequence
      && r'.store.model.observations == r.store.model.observations
      && r'.store.model.tracked == r.store.model.tracked && r'.store.model.highWater == r.store.model.highWater
  {
    hide NoChecks, Predictor.EmptyTable, Predictor.Predict;
    StoreBehind(r);
    NothingKnown(context);
  }

  lemma NothingKnown(context: bv64)
    ensures Predictor.Predict(Predictor.EmptyTable(), context) == Predictor.NoPrediction
  {
    hide Predictor.SetIndex;
    NoVotes(Predictor.WAYS * Predictor.SetIndex(context), context, Predictor.WAYS);
  }

  lemma {:induction false} NoVotes(base: nat, context: bv64, n: nat)
    requires base + Predictor.WAYS <= Predictor.ENTRIES && n <= Predictor.WAYS
    ensures Predictor.Count(Predictor.EmptyTable(), base, context, n).total == 0
  {
    if n > 0 {
      NoVotes(base, context, n - 1);
    }
  }

  // ----- The thresholds

  /** While no counter is full, the bound on the errors alone decides: at least 4096 predictions, and fewer than
      1001 wrong ones in a million. The bound on the successes follows. */
  lemma ErrorsDecide(c: Check)
    requires c.predictions == c.correct + c.incorrect
    ensures Qualifies(c) <==> c.used && c.predictions >= 4096 && c.incorrect * 1_000_000 < 1001 * c.predictions
  {
  }

  /** The bound on the successes, taken by itself, asks for 65469 of 65535. */
  lemma SuccessThreshold(c: Check)
    requires c.used && c.predictions == 65535 && c.incorrect == 0
    ensures Qualifies(c) <==> c.correct >= 65469
  {
  }

  /** The configuration that the runtime opens its store with is valid; the limits of a configuration are a
      support of at least one and an error rate of at most one. */
  lemma ConfigLimits(c: Config)
    ensures ConfigValid(DEFAULT_CONFIG) && DEFAULT_CONFIG == Config(1, 4096, 1000)
    ensures ConfigValid(c) <==> c.abiVersion == 1 && c.minSupport > 0 && c.maxErrorPpm <= 1_000_000
  {
  }
}
