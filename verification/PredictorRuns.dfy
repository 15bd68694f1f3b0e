/** The predictor of a store, over whole runs: its table is the one that the observations learned since
    the last reset build, and what it answers is measured against them. */
module PredictorRuns {
  import opened Bytes
  import opened Predictor
  import opened PredictorExact
  import opened RflFormat
  import opened LearningModel
  import opened StoreSpec

  /** What a record teaches when it is replayed. */
  function Lesson(r: Record): (events: seq<Event>)
    ensures |events| <= 1
  {
    if HasFlag(r, FLAG_LEARNING_UPDATE) then [Event(Pair(r.context, r.candidate), r.sequence, r.cost)] else []
  }

  function Lessons(records: seq<Record>): seq<Event>
    decreases |records|
  {
    if records == [] then [] else Lessons(records[..|records| - 1]) + Lesson(records[|records| - 1])
  }

  /** What an operation teaches: an accepted observation in a learning mode, whether or not its record
      is stored. */
  function Taught(s: State, op: Op): (events: seq<Event>)
    ensures |events| <= 1
  {
    match op
    case OpObserve(input, _, _) =>
      if Accepts(s) && Learns(s.mode) then [Event(Pair(input.context, input.candidate), s.model.nextSequence, input.cost)]
      else []
    case _ => []
  }

  predicate Opens(s: State, op: Op) {
    op.OpInit? && s.Closed? && Step(s, op).1.Open?
  }

  /** The lessons of a run: those of the file it opened, and of every call since, up to a reset. */
  function Learned(s: State, ops: seq<Op>): seq<Event>
    decreases |ops|
  {
    if ops == [] then []
    else
      var before, last := ops[..|ops| - 1], ops[|ops| - 1];
      var t := Run(s, before);
      if Opens(t, last) then if |t.file| < HEADER_BYTES then [] else Lessons(Recover(t.file[HEADER_BYTES..]))
      else if last.OpReset? && t.Open? && !Accepts(t) then []
      else Learned(s, before) + Taught(t, last)
  }

  lemma BuildMore(log: seq<Event>, more: seq<Event>)
    requires |more| <= 1
    ensures Build(log + more) == if more == [] then Build(log) else PredictorExact.Observe(Build(log), more[0])
  {
    hide Learn;
    if more == [] {
      assert log + more == log;
    } else {
      assert (log + more)[..|log + more| - 1] == log;
    }
  }

  lemma {:induction false} ReplayTable(records: seq<Record>)
    ensures Replay(records).table == Build(Lessons(records))
    decreases |records|
  {
    hide Learn, HasFlag;
    if records != [] {
      ReplayTable(records[..|records| - 1]);
      BuildMore(Lessons(records[..|records| - 1]), Lesson(records[|records| - 1]));
    }
  }

  lemma FlushKeepsModel(s: State, durable: bool, io: Io)
    requires s.Open?
    ensures Flush(s, durable, io).1.model == s.model
  {
    hide EncodeAll, EncodeHeader, Write, Resize;
  }

  lemma TrainedTable(m: Model, mode: Mode, input: Input)
    ensures Trained(m, mode, input).table == LearningModel.Observed(m, mode, input).table ==
              if Learns(mode) then Learn(m.table, input.context, input.candidate, m.nextSequence, input.cost) else m.table
  {
    hide Learn, Predict, LiveMemory;
  }

  /** One call on the table of a store that stays open. */
  lemma StepTable(s: State, op: Op)
    requires s.Open? && Step(s, op).1.Open?
    ensures Step(s, op).1.model.table ==
      if op.OpReset? && !Accepts(s) then EmptyTable()
      else if Taught(s, op) == [] then s.model.table
      else PredictorExact.Observe(s.model.table, Taught(s, op)[0])
  {
    hide Flush, Write, EncodeHeader, Trained, LearningModel.Observed, RecordFor, Learn;
    match op
    case OpSetMode(mode, io) => FlushKeepsModel(s, true, io);
    case OpObserve(input, endedNs, io) =>
      if Accepts(s) {
        ObserveTable(s, input, endedNs, io);
        TrainedTable(s.model, s.mode, input);
      }
    case OpFlush(io) => FlushKeepsModel(s, true, io);
    case OpFreeze(io, again) => FlushKeepsModel(s, true, io);
    case _ =>
  }

  lemma ObserveTable(s: State, input: Input, endedNs: nat, io: Io)
    requires Accepts(s)
    ensures StoreSpec.Observe(s, input, endedNs, io).1.Open?
    ensures StoreSpec.Observe(s, input, endedNs, io).1.model.table == Trained(s.model, s.mode, input).table
  {
    hide Flush, Trained, LearningModel.Observed, RecordFor, Learn;
    TrainedTable(s.model, s.mode, input);
    var s1 := s.(model := LearningModel.Observed(s.model, s.mode, input), slab := s.slab + [RecordFor(s.model, s.mode, input)]);
    FlushKeepsModel(s1, false, io);
  }

  /** Opening starts from the lessons of the records it finds. */
  lemma OpenedTable(s: State, op: Op)
    requires Opens(s, op)
    ensures Step(s, op).1.model.table ==
      Build(if |s.file| < HEADER_BYTES then [] else Lessons(Recover(s.file[HEADER_BYTES..])))
  {
    hide Write, EncodeHeader, HeaderStatus, DecodeHeader, Recover, Replay;
    ReplayTable([]);
    if |s.file| >= HEADER_BYTES {
      ReplayTable(Recover(s.file[HEADER_BYTES..]));
    }
  }

  /** After any run of operations, whatever system calls fail, the table of an open store is the one
      that the lessons of the run build. */
  lemma {:induction false} RunTable(s: State, ops: seq<Op>)
    requires s.Closed?
    ensures Run(s, ops).Open? ==> Run(s, ops).model.table == Build(Learned(s, ops))
    decreases |ops|
  {
    hide Step, Taught, Accepts, Build, Lessons, Recover;
    if ops != [] {
      var before, last := ops[..|ops| - 1], ops[|ops| - 1];
      var t := Run(s, before);
      RunTable(s, before);
      if Step(t, last).1.Open? {
        if t.Closed? {
          ClosedOpens(t, last);
          OpenedTable(t, last);
        } else {
          StepTable(t, last);
          NothingBuilt();
          BuildMore(Learned(s, before), Taught(t, last));
        }
      }
    }
  }

  lemma NothingBuilt()
    ensures Build([]) == EmptyTable()
  {
  }

  lemma ClosedOpens(s: State, op: Op)
    requires s.Closed? && Step(s, op).1.Open?
    ensures Opens(s, op)
  {
    hide Init;
  }

  /** So a prediction made after any run is measured against everything learned in it: while at most
      four different pairs fell into the set of the context, it is the most frequent candidate, with the
      exact support and share. */
  lemma RunPrediction(s: State, ops: seq<Op>, context: bv64)
    requires s.Closed? && Run(s, ops).Open? && |PairsIn(Learned(s, ops), SetIndex(context))| <= WAYS
    ensures var log, (rc, r) := Learned(s, ops), PredictNow(Run(s, ops), context);
      && (rc == Ok ==>
            && r.Predicted? && MostFrequent(log, context, r.candidate)
            && r.support == Min(Support(log, context), COUNT_MAX) && Support(log, context) > 0
            && r.confidence == SatFreq(log, Pair(context, r.candidate)) * 65535 / Support(log, context))
      && (rc == ErrCapacity ==> forall c: u32 :: Freq(log, Pair(context, c)) == 0)
  {
    hide Run, Learned, Build, Predict, PairsIn, SetIndex, Support, Freq, SatFreq;
    RunTable(s, ops);
    PredictionIsExact(Learned(s, ops), context);
  }

  /** And a set of the table holds the exact saturated frequencies of everything learned in it, exactly
      while at most four different pairs fell into it. */
  lemma RunExact(s: State, ops: seq<Op>, i: nat)
    requires s.Closed? && Run(s, ops).Open? && i < SETS
    ensures var log := Learned(s, ops);
      SetExact(Ways(Run(s, ops).model.table, i), log, i) <==> |PairsIn(log, i)| <= WAYS
  {
    hide Run, Learned, Build, PairsIn, Ways, SetExact;
    RunTable(s, ops);
    ExactIff(Learned(s, ops), i);
  }
}
