/** The learning runtime: a mode machine over the store, and the validation table it keeps while the
    model is frozen. */
module RuntimeSpec {
  import opened Bytes
  import opened Predictor
  import opened RflFormat
  import opened LearningModel
  import opened StoreSpec
  import opened StoreProofs
  import Latency

  const VALIDATE: nat := 4
  const RUNTIME_FROZEN: nat := 5

  type RuntimeMode = m: nat | m <= 5

  /** The store mode behind a runtime mode. */
  function Image(mode: RuntimeMode): Mode {
    if mode < VALIDATE then mode else FROZEN
  }

  // ----- The validation table

  datatype Check = Check(used: bool, context: bv64, lastObservation: nat, predictions: u32, correct: u32, incorrect: u32)

  const UNCHECKED: Check := Check(false, 0, 0, 0, 0, 0)

  type Checks = t: seq<Check> | |t| == ENTRIES witness seq(ENTRIES, _ => UNCHECKED)

  function NoChecks(): (t: Checks)
    ensures forall i :: 0 <= i < ENTRIES ==> t[i] == UNCHECKED
  {
    seq(ENTRIES, _ => UNCHECKED)
  }

  function At(t: Checks, base: nat, w: nat): Check
    requires base + WAYS <= ENTRIES && w < WAYS
  {
    t[base + w]
  }

  predicate Of(c: Check, context: bv64) {
    c.used && c.context == context
  }

  function KnownWay(t: Checks, base: nat, context: bv64, w: nat): (hit: nat)
    requires base + WAYS <= ENTRIES && w <= WAYS
    ensures w <= hit <= WAYS
    ensures hit < WAYS ==> Of(At(t, base, hit), context)
    ensures forall k :: w <= k < hit ==> !Of(At(t, base, k), context)
    decreases WAYS - w
  {
    if w == WAYS || Of(At(t, base, w), context) then w else KnownWay(t, base, context, w + 1)
  }

  function VacantWay(t: Checks, base: nat, w: nat): (free: nat)
    requires base + WAYS <= ENTRIES && w <= WAYS
    ensures w <= free <= WAYS
    ensures free < WAYS ==> !At(t, base, free).used
    ensures forall k :: w <= k < free ==> At(t, base, k).used
    decreases WAYS - w
  {
    if w == WAYS || !At(t, base, w).used then w else VacantWay(t, base, w + 1)
  }

  predicate Lesser(a: Check, b: Check) {
    a.predictions < b.predictions || (a.predictions == b.predictions && a.lastObservation < b.lastObservation)
  }

  function LeastWay(t: Checks, base: nat, n: nat): (v: nat)
    requires base + WAYS <= ENTRIES && 0 < n <= WAYS
    ensures v < n
    ensures forall k :: 0 <= k < n ==> !Lesser(At(t, base, k), At(t, base, v))
  {
    if n == 1 then 0
    else
      var v := LeastWay(t, base, n - 1);
      if Lesser(At(t, base, n - 1), At(t, base, v)) then n - 1 else v
  }

  function Slot(t: Checks, context: bv64): (i: nat)
    ensures Base(context) <= i < Base(context) + WAYS <= ENTRIES
  {
    var base := Base(context);
    var hit := KnownWay(t, base, context, 0);
    var free := VacantWay(t, base, 0);
    base + if hit < WAYS then hit else if free < WAYS then free else LeastWay(t, base, WAYS)
  }

  function Saturate(x: u32): u32 {
    if x == 0xffff_ffff then x else x + 1
  }

  function Scored(c: Check, now: nat, right: bool): Check {
    c.(lastObservation := now, predictions := Saturate(c.predictions),
       correct := if right then Saturate(c.correct) else c.correct,
       incorrect := if right then c.incorrect else Saturate(c.incorrect))
  }

  function Claimed(c: Check, context: bv64): Check {
    if Of(c, context) then c else Check(true, context, 0, 0, 0, 0)
  }

  function Noted(t: Checks, context: bv64, now: nat, right: bool): Checks {
    var i := Slot(t, context);
    t[i := Scored(Claimed(t[i], context), now, right)]
  }

  function Occupied(t: seq<Check>): nat {
    if t == [] then 0 else Occupied(t[..|t| - 1]) + (if t[|t| - 1].used then 1 else 0)
  }

  // ----- The runtime

  datatype Tally = Tally(observations: nat, predictions: nat, correct: nat, incorrect: nat, misses: nat)

  const NO_TALLY: Tally := Tally(0, 0, 0, 0, 0)

  datatype Runtime = Runtime(
    initialized: bool, mode: RuntimeMode, checks: Checks, contextsUsed: nat, tally: Tally, store: State)

  function Unvalidated(r: Runtime): Runtime {
    r.(checks := NoChecks(), contextsUsed := 0, tally := NO_TALLY)
  }

  const DEFAULT_CONFIG: Config := Config(1, 4096, 1000)

  /** `probed`: the self-test of the page kernel passed. */
  function Open(r: Runtime, canOpen: bool, nowNs: u64, io: Io, probed: bool, closing: Io): (Status, Runtime) {
    if r.initialized then (ErrState, r)
    else
      var (rc, s) := StoreSpec.Init(r.store, DEFAULT_CONFIG, canOpen, nowNs, io);
      if rc != Ok then (rc, Blank(s))
      else if !probed then (ErrState, Blank(StoreSpec.Close(s, closing, true).1))
      else (Ok, Blank(s).(initialized := true))
  }

  function Blank(store: State): Runtime {
    Runtime(false, OFF, NoChecks(), 0, NO_TALLY, store)
  }

  function SetMode(r: Runtime, mode: nat, io: Io, again: Io): (Status, Runtime) {
    if mode > RUNTIME_FROZEN then (ErrArg, r)
    else if !r.initialized then (ErrState, r)
    else if mode == VALIDATE then
      var (rc, s1) := FlushNow(r.store, io);
      if rc != Ok then (rc, r.(store := s1))
      else
        var (rc', s2) := StoreSpec.SetMode(s1, FROZEN, again);
        if rc' != Ok then (rc', r.(store := s2))
        else
          var cleared := if r.mode != VALIDATE then Unvalidated(r) else r;
          (Ok, cleared.(store := s2, mode := VALIDATE))
    else
      var (rc, s1) := StoreSpec.SetMode(r.store, Image(mode), io);
      (rc, if rc == Ok then r.(store := s1, mode := mode) else r.(store := s1))
  }

  function ValidateOne(r: Runtime, context: bv64, candidate: u32): (Status, Runtime) {
    var seen := r.(tally := r.tally.(observations := r.tally.observations + 1));
    var (rc, p) := PredictNow(r.store, context);
    if rc == ErrCapacity then (Ok, seen.(tally := seen.tally.(misses := seen.tally.misses + 1)))
    else if rc != Ok || p == NoPrediction then (rc, seen)
    else
      var right := p.candidate == candidate;
      var t := seen.tally;
      (Ok, seen.(
        checks := Noted(r.checks, context, t.observations, right),
        contextsUsed := r.contextsUsed + (if r.checks[Slot(r.checks, context)].used then 0 else 1),
        tally := t.(predictions := t.predictions + 1,
                    correct := if right then t.correct + 1 else t.correct,
                    incorrect := if right then t.incorrect else t.incorrect + 1)))
  }

  function Observe(r: Runtime, input: Input, endedNs: nat, io: Io): (Status, Runtime) {
    if !r.initialized || r.mode == OFF || r.mode == RUNTIME_FROZEN then (ErrState, r)
    else if r.mode != VALIDATE then
      var (rc, s) := StoreSpec.Observe(r.store, input, endedNs, io);
      (rc, r.(store := s))
    else ValidateOne(r, input.context, input.candidate)
  }

  function Flush(r: Runtime, io: Io): (Status, Runtime) {
    if !r.initialized then (ErrState, r)
    else
      var (rc, s) := FlushNow(r.store, io);
      (rc, r.(store := s))
  }

  function ResetVolatile(r: Runtime): (Status, Runtime) {
    if !r.initialized || (r.mode != OFF && r.mode != RUNTIME_FROZEN) then (ErrState, r)
    else
      var (rc, s) := StoreSpec.ResetVolatile(r.store);
      (rc, if rc == Ok then Unvalidated(r).(store := s) else r.(store := s))
  }

  function Close(r: Runtime, io: Io, closed: bool): (Status, Runtime) {
    if !r.initialized then (ErrState, r)
    else
      var (rc, s) := StoreSpec.Close(r.store, io, closed);
      (rc, Blank(s))
  }

  datatype Call =
    | CallOpen(canOpen: bool, nowNs: u64, io: Io, probed: bool, closing: Io)
    | CallSetMode(mode: nat, io: Io, again: Io)
    | CallObserve(input: Input, endedNs: nat, io: Io)
    | CallFlush(io: Io)
    | CallReset
    | CallClose(io: Io, closed: bool)

  function Apply(r: Runtime, call: Call): (Status, Runtime) {
    match call
    case CallOpen(canOpen, nowNs, io, probed, closing) => Open(r, canOpen, nowNs, io, probed, closing)
    case CallSetMode(mode, io, again) => SetMode(r, mode, io, again)
    case CallObserve(input, endedNs, io) => Observe(r, input, endedNs, io)
    case CallFlush(io) => Flush(r, io)
    case CallReset => ResetVolatile(r)
    case CallClose(io, closed) => Close(r, io, closed)
  }

  function ApplyAll(r: Runtime, calls: seq<Call>): Runtime {
    if calls == [] then r else Apply(ApplyAll(r, calls[..|calls| - 1]), calls[|calls| - 1]).1
  }

  // ----- The table invariant

  /** Every occupied entry lies in the set of its context, no context is stored twice, and an entry
      whose counter is not full splits its predictions into right and wrong ones. */
  predicate TableOk(t: Checks) {
    && (forall i :: 0 <= i < ENTRIES && t[i].used ==> Base(t[i].context) <= i < Base(t[i].context) + WAYS)
    && (forall i, j :: 0 <= i < j < ENTRIES && t[i].used && t[j].used ==> t[i].context != t[j].context)
    && (forall i :: 0 <= i < ENTRIES && t[i].used && t[i].predictions < COUNT_MAX ==>
          t[i].predictions == t[i].correct + t[i].incorrect)
  }

  lemma {:induction false} OccupiedAfter(t: seq<Check>, i: nat, c: Check)
    requires i < |t| && c.used
    ensures Occupied(t[i := c]) == Occupied(t) + (if t[i].used then 0 else 1)
    decreases |t|
  {
    var last := |t| - 1;
    if i == last {
      assert t[i := c][..last] == t[..last];
    } else {
      assert t[i := c][..last] == t[..last][i := c];
      OccupiedAfter(t[..last], i, c);
    }
  }

  lemma {:induction false} NothingOccupied(t: seq<Check>)
    requires forall i :: 0 <= i < |t| ==> t[i] == UNCHECKED
    ensures Occupied(t) == 0
  {
    if t != [] {
      NothingOccupied(t[..|t| - 1]);
    }
  }

  /** The slot of a context is the one that holds it, if any entry does. */
  lemma SlotFindsContext(t: Checks, context: bv64, j: nat)
    requires TableOk(t) && j < ENTRIES && Of(t[j], context)
    ensures Slot(t, context) == j
  {
    hide SetIndex, LeastWay, Lesser;
    var base := Base(context);
    assert Of(At(t, base, j - base), context);
    assert KnownWay(t, base, context, 0) < WAYS;
  }

  lemma RecordKeepsTable(t: Checks, context: bv64, now: nat, right: bool)
    requires TableOk(t)
    ensures TableOk(Noted(t, context, now, right))
    ensures Occupied(Noted(t, context, now, right)) == Occupied(t) + (if t[Slot(t, context)].used then 0 else 1)
  {
    hide SetIndex, Slot, Occupied;
    var i := Slot(t, context);
    OccupiedAfter(t, i, Scored(Claimed(t[i], context), now, right));
    forall j | 0 <= j < ENTRIES && Of(t[j], context) ensures j == i {
      SlotFindsContext(t, context, j);
    }
  }

  // ----- Invariants of the runtime

  predicate TallyOk(t: Tally) {
    t.observations == t.predictions + t.misses && t.predictions == t.correct + t.incorrect
  }

  /** The store mode is the image of the logical mode; the validation counters add up; the number of
      contexts is the number of occupied entries, which hold pairwise different contexts. */
  predicate Consistent(r: Runtime) {
    && (if r.initialized then r.store.Open? && r.store.mode == Image(r.mode) else r.store.Closed?)
    && TallyOk(r.tally) && TableOk(r.checks) && r.contextsUsed == Occupied(r.checks)
  }

  lemma BlankConsistent(store: State)
    ensures TableOk(NoChecks()) && Occupied(NoChecks()) == 0
    ensures store.Closed? ==> Consistent(Blank(store))
  {
    hide SetIndex;
    NothingOccupied(NoChecks());
  }

  lemma FlushKeepsOpen(s: State, io: Io)
    requires s.Open?
    ensures FlushNow(s, io).1.Open? && FlushNow(s, io).1.mode == s.mode
  {
    hide StoreSpec.Flush;
    FlushKeepsMode(s, true, io);
  }

  /** A store operation changes the mode only when it reports success. */
  lemma StoreSetMode(s: State, mode: Mode, io: Io)
    requires s.Open?
    ensures var (rc, s') := StoreSpec.SetMode(s, mode, io);
            s'.Open? && s'.mode == if rc == Ok then mode else s.mode
  {
    hide StoreSpec.Flush;
    FlushKeepsMode(s, true, io);
  }

  lemma StoreObserve(s: State, input: Input, endedNs: nat, io: Io)
    requires s.Open?
    ensures var s' := StoreSpec.Observe(s, input, endedNs, io).1; s'.Open? && s'.mode == s.mode
  {
    hide StoreSpec.Flush, Trained, Observed, RecordFor, Latency.Push;
    if Accepts(s) && |s.slab| < SLAB_RECORDS {
      var s1 := s.(model := Observed(s.model, s.mode, input), slab := s.slab + [RecordFor(s.model, s.mode, input)]);
      FlushKeepsMode(s1, false, io);
    }
  }

  lemma StoreInit(s: State, canOpen: bool, nowNs: u64, io: Io)
    requires s.Closed?
    ensures var (rc, s') := StoreSpec.Init(s, DEFAULT_CONFIG, canOpen, nowNs, io);
            if rc == Ok then s'.Open? && s'.mode == OFF else s'.Closed?
  {
    hide HeaderStatus, Recover, Reopened, EncodeHeader, Write;
  }

  lemma SetModeKeepsConsistent(r: Runtime, mode: nat, io: Io, again: Io)
    requires Consistent(r)
    ensures Consistent(SetMode(r, mode, io, again).1)
  {
    hide FlushNow, StoreSpec.SetMode, TableOk, Occupied, NoChecks;
    if r.initialized && mode <= RUNTIME_FROZEN {
      BlankConsistent(r.store);
      if mode == VALIDATE {
        FlushKeepsOpen(r.store, io);
        StoreSetMode(FlushNow(r.store, io).1, FROZEN, again);
      } else {
        StoreSetMode(r.store, Image(mode), io);
      }
    }
  }

  lemma ObserveKeepsConsistent(r: Runtime, input: Input, endedNs: nat, io: Io)
    requires Consistent(r)
    ensures Consistent(Observe(r, input, endedNs, io).1)
  {
    hide StoreSpec.Observe, TableOk, Occupied, Noted, Slot, Predict;
    if r.initialized {
      StoreObserve(r.store, input, endedNs, io);
      RecordKeepsTable(r.checks, input.context, r.tally.observations + 1, true);
      RecordKeepsTable(r.checks, input.context, r.tally.observations + 1, false);
    }
  }

  lemma OpenedConsistent(store: State)
    requires store.Open? && store.mode == OFF
    ensures Consistent(Blank(store).(initialized := true))
  {
    hide TableOk, Occupied, NoChecks;
    BlankConsistent(store);
  }

  lemma ClosedStore(r: Runtime)
    requires Consistent(r)
    ensures r.initialized <==> r.store.Open?
  {
    hide TableOk, Occupied;
  }

  lemma OpenKeepsConsistent(r: Runtime, canOpen: bool, nowNs: u64, io: Io, probed: bool, closing: Io)
    requires Consistent(r)
    ensures Consistent(Open(r, canOpen, nowNs, io, probed, closing).1)
  {
    hide StoreSpec.Init, StoreSpec.Close, Consistent, Blank;
    ClosedStore(r);
    if !r.initialized {
      StoreInit(r.store, canOpen, nowNs, io);
      var (rc, s) := StoreSpec.Init(r.store, DEFAULT_CONFIG, canOpen, nowNs, io);
      if rc != Ok {
        BlankConsistent(s);
      } else if probed {
        OpenedConsistent(s);
      } else {
        StoreClose(s, closing, true);
        BlankConsistent(StoreSpec.Close(s, closing, true).1);
      }
    }
  }

  lemma StoreClose(s: State, io: Io, closed: bool)
    ensures StoreSpec.Close(s, io, closed).1.Closed?
  {
    hide StoreSpec.Flush;
  }

  lemma ResetKeepsConsistent(r: Runtime)
    requires Consistent(r)
    ensures Consistent(ResetVolatile(r).1)
  {
    hide TableOk, Occupied, NoChecks, EmptyTable;
    BlankConsistent(r.store);
  }

  lemma FlushKeepsConsistent(r: Runtime, io: Io)
    requires Consistent(r)
    ensures Consistent(Flush(r, io).1)
  {
    hide FlushNow, TableOk, Occupied;
    if r.initialized {
      FlushKeepsOpen(r.store, io);
    }
  }

  lemma CloseKeepsConsistent(r: Runtime, io: Io, closed: bool)
    requires Consistent(r)
    ensures Consistent(Close(r, io, closed).1)
  {
    hide StoreSpec.Close, Consistent, Blank;
    StoreClose(r.store, io, closed);
    BlankConsistent(StoreSpec.Close(r.store, io, closed).1);
  }

  /** Every call keeps the runtime consistent, whatever fails in it. */
  lemma ApplyKeepsConsistent(r: Runtime, call: Call)
    requires Consistent(r)
    ensures Consistent(Apply(r, call).1)
  {
    hide Open, SetMode, Observe, ResetVolatile, Flush, Close, Consistent;
    match call {
      case CallOpen(canOpen, nowNs, io, probed, closing) =>
        OpenKeepsConsistent(r, canOpen, nowNs, io, probed, closing);
      case CallSetMode(mode, io, again) => SetModeKeepsConsistent(r, mode, io, again);
      case CallObserve(input, endedNs, io) => ObserveKeepsConsistent(r, input, endedNs, io);
      case CallFlush(io) => FlushKeepsConsistent(r, io);
      case CallReset => ResetKeepsConsistent(r);
      case CallClose(io, closed) => CloseKeepsConsistent(r, io, closed);
    }
  }

  lemma {:induction false} AlwaysConsistent(store: State, calls: seq<Call>)
    requires store.Closed?
    ensures Consistent(ApplyAll(Blank(store), calls))
  {
    hide Apply, Consistent;
    if calls == [] {
      BlankConsistent(store);
    } else {
      AlwaysConsistent(store, calls[..|calls| - 1]);
      ApplyKeepsConsistent(ApplyAll(Blank(store), calls[..|calls| - 1]), calls[|calls| - 1]);
    }
  }

  // ----- The model is frozen while it is validated

  /** The records of the log, committed or buffered, and the model are the same. */
  predicate SameKnowledge(s: State, t: State, log: seq<RflFormat.Record>, log': seq<RflFormat.Record>) {
    && OnDisk(s, log) && OnDisk(t, log') && s.Open? && t.Open?
    && log + s.slab == log' + t.slab && s.model == t.model
  }

  lemma FlushKeepsKnowledge(s: State, io: Io, log: seq<RflFormat.Record>) returns (log': seq<RflFormat.Record>)
    requires OnDisk(s, log)
    ensures SameKnowledge(s, FlushNow(s, io).1, log, log')
  {
    hide OnDisk, StoreSpec.Flush;
    FlushKeepsLog(s, log, true, io);
    log' := LogAfter(s, log, io);
  }

  lemma StoreSetModeKeepsKnowledge(s: State, io: Io, log: seq<RflFormat.Record>) returns (log': seq<RflFormat.Record>)
    requires OnDisk(s, log)
    ensures SameKnowledge(s, StoreSpec.SetMode(s, FROZEN, io).1, log, log')
  {
    hide OnDisk, StoreSpec.Flush;
    FlushKeepsLog(s, log, true, io);
    log' := LogAfter(s, log, io);
    SameDisk(StoreSpec.Flush(s, true, io).1, StoreSpec.SetMode(s, FROZEN, io).1, log');
  }

  /** A call that is made in the validating mode and ends in it changes neither the model nor the
      logged records, whatever system calls fail in it. */
  lemma FrozenStep(r: Runtime, call: Call, log: seq<RflFormat.Record>) returns (log': seq<RflFormat.Record>)
    requires Consistent(r) && r.initialized && r.mode == VALIDATE && OnDisk(r.store, log)
    requires Apply(r, call).1.initialized && Apply(r, call).1.mode == VALIDATE
    ensures SameKnowledge(r.store, Apply(r, call).1.store, log, log')
  {
    hide Recover, FlushNow, StoreSpec.SetMode, PredictNow, Noted, TableOk, Occupied;
    log' := log;
    match call {
      case CallSetMode(mode, io, again) =>
        if mode == VALIDATE {
          log' := FlushKeepsKnowledge(r.store, io, log);
          if FlushNow(r.store, io).0 == Ok {
            log' := StoreSetModeKeepsKnowledge(FlushNow(r.store, io).1, again, log');
          }
        } else if mode <= RUNTIME_FROZEN {
          log' := RefusedSetMode(r, mode, io, again, log);
        }
      case CallFlush(io) => log' := FlushKeepsKnowledge(r.store, io, log);
      case _ =>
    }
  }

  /** Asking for another mode and not getting it: the flush before the change failed. */
  lemma RefusedSetMode(r: Runtime, mode: nat, io: Io, again: Io, log: seq<RflFormat.Record>)
    returns (log': seq<RflFormat.Record>)
    requires r.initialized && mode != VALIDATE && mode <= RUNTIME_FROZEN && OnDisk(r.store, log)
    requires SetMode(r, mode, io, again).1.mode == VALIDATE
    ensures SameKnowledge(r.store, SetMode(r, mode, io, again).1.store, log, log')
  {
    hide Recover, StoreSpec.Flush;
    FlushKeepsLog(r.store, log, true, io);
    log' := LogAfter(r.store, log, io);
  }

  predicate Validating(r: Runtime) {
    r.initialized && r.mode == VALIDATE
  }

  predicate StaysValidating(r: Runtime, calls: seq<Call>) {
    Validating(ApplyAll(r, calls)) && (calls == [] || StaysValidating(r, calls[..|calls| - 1]))
  }

  /** Frozen validation: however long the runtime stays in the validating mode, and whatever is
      called, the model and the log are those it entered the mode with. */
  lemma {:induction false} FrozenValidation(r: Runtime, calls: seq<Call>, log: seq<RflFormat.Record>)
    returns (log': seq<RflFormat.Record>)
    requires Consistent(r) && StaysValidating(r, calls) && OnDisk(r.store, log)
    ensures SameKnowledge(r.store, ApplyAll(r, calls).store, log, log')
    ensures Consistent(ApplyAll(r, calls))
    decreases |calls|
  {
    hide OnDisk, Apply, Consistent;
    if calls == [] {
      log' := log;
      ConsistentOpen(r);
    } else {
      var before := calls[..|calls| - 1];
      log' := FrozenValidation(r, before, log);
      ApplyKeepsConsistent(ApplyAll(r, before), calls[|calls| - 1]);
      log' := FrozenStep(ApplyAll(r, before), calls[|calls| - 1], log');
    }
  }

  lemma ConsistentOpen(r: Runtime)
    requires Consistent(r) && r.initialized
    ensures r.store.Open?
  {
    hide TableOk, Occupied;
  }

  // ----- What the validation counters count

  datatype Sample = Sample(context: bv64, candidate: u32)

  function Samples(calls: seq<Call>): seq<Sample> {
    if calls == [] then []
    else
      var last := calls[|calls| - 1];
      Samples(calls[..|calls| - 1])
      + (if last.CallObserve? then [Sample(last.input.context, last.input.candidate)] else [])
  }

  /** The score of a fixed model on a list of samples. */
  function Score(t: Table, samples: seq<Sample>): Tally {
    if samples == [] then NO_TALLY
    else
      var before, last := Score(t, samples[..|samples| - 1]), samples[|samples| - 1];
      ScoreOne(t, before, last)
  }

  function ScoreOne(t: Table, tally: Tally, x: Sample): Tally {
    var p := Predict(t, x.context);
    if p == NoPrediction then tally.(observations := tally.observations + 1, misses := tally.misses + 1)
    else if p.candidate == x.candidate then
      tally.(observations := tally.observations + 1, predictions := tally.predictions + 1, correct := tally.correct + 1)
    else
      tally.(observations := tally.observations + 1, predictions := tally.predictions + 1, incorrect := tally.incorrect + 1)
  }

  lemma ValidatingCallScores(r: Runtime, call: Call)
    requires Consistent(r) && Validating(r) && Validating(Apply(r, call).1)
    ensures Apply(r, call).1.tally
         == if call.CallObserve? then ScoreOne(r.store.model.table, r.tally, Sample(call.input.context, call.input.candidate))
            else r.tally
  {
    hide FlushNow, StoreSpec.SetMode, Predict, Noted, TableOk, Occupied;
  }

  /** The counters after a stay in the validating mode are the score of the model, as it was on
      entering the mode, on the samples observed, added to the counters at the beginning: zero when
      the mode was entered from another one. */
  lemma {:induction false} ValidationScores(r: Runtime, calls: seq<Call>, log: seq<RflFormat.Record>)
    requires Consistent(r) && StaysValidating(r, calls) && OnDisk(r.store, log)
    requires r.tally == NO_TALLY
    ensures ApplyAll(r, calls).tally == Score(r.store.model.table, Samples(calls))
    decreases |calls|
  {
    hide OnDisk, Apply, Consistent, Predict, ScoreOne;
    if calls != [] {
      var before, call := calls[..|calls| - 1], calls[|calls| - 1];
      ValidationScores(r, before, log);
      var log' := FrozenValidation(r, before, log);
      ValidatingCallScores(ApplyAll(r, before), call);
      if call.CallObserve? {
        var x := Sample(call.input.context, call.input.candidate);
        assert (Samples(before) + [x])[..|Samples(before)|] == Samples(before);
      } else {
        assert Samples(calls) == Samples(before);
      }
    }
  }

  lemma EnteringClears(r: Runtime, io: Io, again: Io)
    requires Consistent(r) && r.initialized && r.mode != VALIDATE
    ensures var (rc, r') := SetMode(r, VALIDATE, io, again);
            rc == Ok ==> r'.tally == NO_TALLY && r'.checks == NoChecks() && r'.contextsUsed == 0
  {
    hide FlushNow, StoreSpec.SetMode, TableOk, Occupied, NoChecks;
  }
}
