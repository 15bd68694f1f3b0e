/** The learning model: what observing an event does to it, and what replaying a record does. */
module LearningModel {
  import opened Bytes
  import opened Predictor
  import opened RflFormat

  const OFF: nat := 0
  const OBSERVE: nat := 1
  const LEARN_SHADOW: nat := 2
  const PREDICT_SHADOW: nat := 3
  const FROZEN: nat := 4

  const INT64_MAX: int := 0x7fff_ffff_ffff_ffff
  const INT64_MIN: int := -0x8000_0000_0000_0000

  type i64 = x: int | -0x8000_0000_0000_0000 <= x < 0x8000_0000_0000_0000
  type Mode = m: nat | m <= 4

  datatype Model = Model(
    table: Table, nextSequence: u64,
    observations: nat, predictions: nat, correct: nat, incorrect: nat,
    tracked: nat, highWater: nat)

  function FreshModel(): Model {
    Model(EmptyTable(), 0, 0, 0, 0, 0, 0, 0)
  }

  datatype Input = Input(
    context: bv64, candidate: u32, eventType: u32, cost: u64, memoryDelta: i64, aux: bv64, startedNs: u64)

  predicate Learns(mode: Mode) {
    mode == LEARN_SHADOW || mode == PREDICT_SHADOW
  }

  // ----- The live side

  function Forecast(m: Model, mode: Mode, input: Input): Prediction {
    if Learns(mode) then Predict(m.table, input.context) else NoPrediction
  }

  function Tally(m: Model, forecast: Prediction, candidate: u32): Model {
    if forecast == NoPrediction then m
    else if forecast.candidate == candidate then m.(predictions := m.predictions + 1, correct := m.correct + 1)
    else m.(predictions := m.predictions + 1, incorrect := m.incorrect + 1)
  }

  /** Predict, draw a sequence number, learn: this happens before the record is stored. */
  function Trained(m: Model, mode: Mode, input: Input): Model {
    Tally(m, Forecast(m, mode, input), input.candidate).(
      nextSequence := (m.nextSequence + 1) % U64,
      table := if Learns(mode) then Learn(m.table, input.context, input.candidate, m.nextSequence, input.cost)
               else m.table)
  }

  function LiveMemory(tracked: nat, delta: i64): nat {
    if delta > 0 && tracked > INT64_MAX - delta then INT64_MAX
    else if delta == INT64_MIN then 0
    else if delta < 0 && tracked < -delta then 0
    else tracked + delta
  }

  function Remembered(m: Model, tracked: nat): Model {
    m.(tracked := tracked, highWater := if tracked > m.highWater then tracked else m.highWater)
  }

  /** The model after an observation whose record was stored. */
  function Observed(m: Model, mode: Mode, input: Input): Model {
    var t := Trained(m, mode, input);
    Remembered(t.(observations := t.observations + 1), LiveMemory(m.tracked, input.memoryDelta))
  }

  function ClampCost(cost: u64): u32 {
    if cost > 0xffff_ffff then 0xffff_ffff else cost
  }

  function ClampDelta(delta: i64): i32 {
    if delta > 0x7fff_ffff then 0x7fff_ffff else if delta < -0x8000_0000 then -0x8000_0000 else delta
  }

  function ModeBits(mode: Mode): bv32 {
    if mode == OFF then 0 else if mode == OBSERVE then 0x100 else if mode == LEARN_SHADOW then 0x200
    else if mode == PREDICT_SHADOW then 0x300 else 0x400
  }

  function FlagsOf(mode: Mode, forecast: Prediction, candidate: u32): bv32 {
    ModeBits(mode)
    | (if forecast == NoPrediction then 0
       else if forecast.candidate == candidate then FLAG_PREDICTION_VALID | FLAG_PREDICTION_CORRECT
       else FLAG_PREDICTION_VALID)
    | (if Learns(mode) then FLAG_LEARNING_UPDATE else 0)
  }

  function FoldAux(aux: bv64): bv32 {
    ((aux ^ (aux >> 32)) & 0xffff_ffff) as bv32
  }

  function RecordFor(m: Model, mode: Mode, input: Input): Record {
    var f := Forecast(m, mode, input);
    Record(m.nextSequence, input.startedNs, input.context, input.eventType, input.candidate,
           if f == NoPrediction then 0 else f.candidate,
           if f == NoPrediction then 0 else f.support,
           ClampCost(input.cost), ClampDelta(input.memoryDelta), FoldAux(input.aux),
           if f == NoPrediction then 0 else f.confidence,
           if f == NoPrediction then 65535 else 65535 - f.confidence,
           FlagsOf(mode, f, input.candidate))
  }

  // ----- The replaying side

  predicate HasFlag(r: Record, flag: bv32) {
    r.flags & flag != 0
  }

  function ReplayRecord(m: Model, r: Record): Model {
    var counted := m.(observations := m.observations + 1);
    var tallied :=
      if !HasFlag(r, FLAG_PREDICTION_VALID) then counted
      else if HasFlag(r, FLAG_PREDICTION_CORRECT) then
        counted.(predictions := m.predictions + 1, correct := m.correct + 1)
      else counted.(predictions := m.predictions + 1, incorrect := m.incorrect + 1);
    var learned := tallied.(
      table := if HasFlag(r, FLAG_LEARNING_UPDATE) then Learn(m.table, r.context, r.candidate, r.sequence, r.cost)
               else m.table,
      nextSequence := if r.sequence >= m.nextSequence then (r.sequence + 1) % U64 else m.nextSequence);
    Remembered(learned, if m.tracked + r.memoryDelta < 0 then 0 else m.tracked + r.memoryDelta)
  }

  function Replay(records: seq<Record>): Model {
    if records == [] then FreshModel()
    else ReplayRecord(Replay(records[..|records| - 1]), records[|records| - 1])
  }

  /** The model after opening a store that holds `records`. */
  function Reopened(records: seq<Record>): Model {
    var m := Replay(records);
    if m.nextSequence == 0 then m.(nextSequence := (|records| + 1) % U64) else m
  }

  // ----- Agreement

  function Costless(e: Entry): Entry {
    e.(ewmaCost := 0)
  }

  /** The tables differ at most in their cost averages. */
  predicate SameButCost(a: Table, b: Table) {
    forall i :: 0 <= i < ENTRIES ==> Costless(a[i]) == Costless(b[i])
  }

  /** Everything the two models report is equal; with `exact`, the cost averages are equal too. */
  predicate Agree(a: Model, b: Model, exact: bool) {
    && SameButCost(a.table, b.table)
    && a.(table := b.table) == b
    && (exact ==> a.table == b.table)
  }

  lemma SameWay(a: Table, b: Table, base: nat, w: nat)
    requires SameButCost(a, b) && base + WAYS <= ENTRIES && w < WAYS
    ensures Costless(Way(a, base, w)) == Costless(Way(b, base, w))
  {
  }

  lemma {:induction false} SameHit(a: Table, b: Table, base: nat, context: bv64, candidate: u32, w: nat)
    requires SameButCost(a, b) && base + WAYS <= ENTRIES && w <= WAYS
    ensures HitWay(a, base, context, candidate, w) == HitWay(b, base, context, candidate, w)
    decreases WAYS - w
  {
    hide SameButCost, Way;
    if w < WAYS {
      SameWay(a, b, base, w);
      SameHit(a, b, base, context, candidate, w + 1);
    }
  }

  lemma {:induction false} SameUnused(a: Table, b: Table, base: nat, w: nat)
    requires SameButCost(a, b) && base + WAYS <= ENTRIES && w <= WAYS
    ensures UnusedWay(a, base, w) == UnusedWay(b, base, w)
    decreases WAYS - w
  {
    hide SameButCost, Way;
    if w < WAYS {
      SameWay(a, b, base, w);
      SameUnused(a, b, base, w + 1);
    }
  }

  lemma {:induction false} SameVictim(a: Table, b: Table, base: nat, n: nat)
    requires SameButCost(a, b) && base + WAYS <= ENTRIES && 0 < n <= WAYS
    ensures VictimWay(a, base, n) == VictimWay(b, base, n)
  {
    assert Costless(a[base + n - 1]) == Costless(b[base + n - 1]);
    if n > 1 {
      SameVictim(a, b, base, n - 1);
      var v := VictimWay(a, base, n - 1);
      assert Costless(a[base + v]) == Costless(b[base + v]);
    }
  }

  lemma {:induction false} SameCount(a: Table, b: Table, base: nat, context: bv64, n: nat)
    requires SameButCost(a, b) && base + WAYS <= ENTRIES && n <= WAYS
    ensures Count(a, base, context, n) == Count(b, base, context, n)
  {
    if n > 0 {
      assert Costless(a[base + n - 1]) == Costless(b[base + n - 1]);
      SameCount(a, b, base, context, n - 1);
    }
  }

  /** Neither prediction nor the choice of what to evict looks at the cost averages. */
  lemma SameDecisions(a: Table, b: Table, context: bv64, candidate: u32)
    requires SameButCost(a, b)
    ensures Predict(a, context) == Predict(b, context)
    ensures Target(a, context, candidate) == Target(b, context, candidate)
  {
    hide SetIndex, SameButCost, HitWay, UnusedWay, VictimWay, Count;
    SameCount(a, b, Base(context), context, WAYS);
    SameHit(a, b, Base(context), context, candidate, 0);
    SameUnused(a, b, Base(context), 0);
    SameVictim(a, b, Base(context), WAYS);
  }

  lemma SameLearn(a: Table, b: Table, context: bv64, candidate: u32, sequence: nat, cost: u64, cost': u64)
    requires SameButCost(a, b)
    ensures SameButCost(Learn(a, context, candidate, sequence, cost), Learn(b, context, candidate, sequence, cost'))
  {
    hide SetIndex, Target, Reinforced, SameButCost;
    SameDecisions(a, b, context, candidate);
    var i := Base(context) + Target(a, context, candidate);
    Touched(a, b, i, context, candidate, sequence, cost, cost');
  }

  lemma Touched(a: Table, b: Table, i: nat, context: bv64, candidate: u32, sequence: nat, cost: u64, cost': u64)
    requires SameButCost(a, b) && i < ENTRIES
    ensures Holds(a[i], context, candidate) == Holds(b[i], context, candidate)
    ensures SameButCost(a[i := Reinforced(a[i], sequence, cost)], b[i := Reinforced(b[i], sequence, cost')])
    ensures SameButCost(a[i := Entry(true, context, candidate, 1, sequence, cost)],
                        b[i := Entry(true, context, candidate, 1, sequence, cost')])
  {
    assert Costless(a[i]) == Costless(b[i]);
  }

  // ----- One observation, live and replayed

  /** Replay counts a memory change as it was counted live: it fits 32 bits and the total does not saturate, or
      both totals end at zero, or what the record lost is what the live total lost by saturating. */
  predicate MemoryReplays(tracked: nat, delta: i64) {
    || (-0x8000_0000 <= delta <= 0x7fff_ffff && tracked + delta <= INT64_MAX)
    || (delta < -0x8000_0000 && tracked <= 0x8000_0000)
    || (delta > 0x7fff_ffff && tracked == INT64_MAX - 0x7fff_ffff)
  }

  /** What the log can represent: the memory change, and a next sequence number. */
  predicate InRange(m: Model, input: Input) {
    MemoryReplays(m.tracked, input.memoryDelta) && m.nextSequence + 1 < U64
  }

  predicate CostInRange(input: Input) {
    input.cost <= 0xffff_ffff
  }

  lemma FlagsMeaning(mode: Mode, f: Prediction, candidate: u32)
    ensures var flags := FlagsOf(mode, f, candidate);
      && (flags & FLAG_PREDICTION_VALID != 0 <==> f.Predicted?)
      && (flags & FLAG_PREDICTION_CORRECT != 0 <==> f.Predicted? && f.candidate == candidate)
      && (flags & FLAG_LEARNING_UPDATE != 0 <==> Learns(mode))
  {
  }

  /** Replaying the record of an observation has the effect the observation had. The cost averages
      follow the clamped cost, so they are the same when the cost was not clamped. */
  lemma ReplayMatchesLive(live: Model, replayed: Model, exact: bool, mode: Mode, input: Input)
    requires Agree(live, replayed, exact)
    requires InRange(live, input) && (exact ==> CostInRange(input))
    ensures Agree(Observed(live, mode, input), ReplayRecord(replayed, RecordFor(live, mode, input)), exact)
  {
    hide SameButCost, Learn, Predict, FlagsOf, FoldAux;
    var f := Forecast(live, mode, input);
    FlagsMeaning(mode, f, input.candidate);
    SameLearn(live.table, replayed.table, input.context, input.candidate, live.nextSequence,
              input.cost, ClampCost(input.cost));
  }

  /** Appending the record that the live model produced to the log keeps the agreement. */
  lemma AppendAgrees(live: Model, records: seq<Record>, exact: bool, mode: Mode, input: Input)
    requires Agree(live, Reopened(records), exact)
    requires InRange(live, input) && (exact ==> CostInRange(input))
    ensures Agree(Observed(live, mode, input), Reopened(records + [RecordFor(live, mode, input)]), exact)
  {
    hide SameButCost, Learn, Predict, FlagsOf, FoldAux, Observed, EmptyTable;
    var r := RecordFor(live, mode, input);
    assert (records + [r])[..|records|] == records;
    ReplayMatchesLive(live, Reopened(records), exact, mode, input);
    assert r.sequence == Reopened(records).nextSequence;
    assert ReplayRecord(Replay(records), r) == ReplayRecord(Reopened(records), r);
  }

  /** Apart from the cost averages, replaying a record has the effect of its observation exactly under that
      condition, whatever else the observation was. */
  lemma ReplayExact(live: Model, replayed: Model, mode: Mode, input: Input)
    requires Agree(live, replayed, false) && live.tracked <= INT64_MAX
    ensures Agree(Observed(live, mode, input), ReplayRecord(replayed, RecordFor(live, mode, input)), false)
       <==> MemoryReplays(live.tracked, input.memoryDelta)
  {
    hide SameButCost, Learn, Predict, FlagsOf, FoldAux;
    var f := Forecast(live, mode, input);
    FlagsMeaning(mode, f, input.candidate);
    SameLearn(live.table, replayed.table, input.context, input.candidate, live.nextSequence,
              input.cost, ClampCost(input.cost));
  }

  lemma NextSequences(live: Model, replay: Model, replayed: Model, mode: Mode, input: Input)
    requires replayed == replay || (replay.nextSequence == 0 && replayed == replay.(nextSequence := live.nextSequence))
    requires live.nextSequence == replayed.nextSequence
    ensures Observed(live, mode, input).nextSequence == (live.nextSequence + 1) % U64
    ensures ReplayRecord(replay, RecordFor(live, mode, input)) == ReplayRecord(replayed, RecordFor(live, mode, input))
    ensures ReplayRecord(replayed, RecordFor(live, mode, input)).nextSequence == (live.nextSequence + 1) % U64
  {
    hide Learn, Predict, FlagsOf, FoldAux;
  }

  /** A log that agrees with the live model agrees again after an observation and its record exactly under that
      condition, and if the sequence numbers have not run out or restart where the log does. */
  lemma AppendExact(live: Model, records: seq<Record>, mode: Mode, input: Input)
    requires Agree(live, Reopened(records), false) && live.tracked <= INT64_MAX
    ensures Agree(Observed(live, mode, input), Reopened(records + [RecordFor(live, mode, input)]), false)
       <==> MemoryReplays(live.tracked, input.memoryDelta)
            && (live.nextSequence + 1 < U64 || (|records| + 2) % U64 == 0)
  {
    hide SameButCost, Observed, ReplayRecord, RecordFor, EmptyTable, MemoryReplays;
    var r := RecordFor(live, mode, input);
    assert (records + [r])[..|records|] == records;
    ReplayExact(live, Reopened(records), mode, input);
    NextSequences(live, Replay(records), Reopened(records), mode, input);
  }

  /** An observation whose record is dropped still consumes its sequence number, so a later replay
      cannot agree with the live model. */
  lemma DroppedDisagrees(live: Model, records: seq<Record>, exact: bool, mode: Mode, input: Input)
    requires Agree(live, Reopened(records), exact)
    ensures !Agree(Trained(live, mode, input), Reopened(records), exact)
  {
    hide SameButCost, Learn, Predict;
  }
}
