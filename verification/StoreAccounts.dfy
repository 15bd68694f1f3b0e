/** What the counters, the header and the log of a store say, over whole runs. */
module StoreAccounts {
  import opened Bytes
  import opened Predictor
  import opened RflFormat
  import opened LearningModel
  import opened StoreSpec
  import opened StoreProofs
  import Latency

  // ----- Which mode allows what

  /** Observations are refused in the modes 0 and 4, predictions in 0 and 1, a reset in 1, 2 and 3; only
      the modes 2 and 3 learn. A refusal changes nothing. */
  lemma ModesDecide(s: State, input: Input, endedNs: nat, io: Io, context: bv64)
    requires s.Open?
    ensures StoreSpec.Observe(s, input, endedNs, io).0 == ErrState <==> s.mode in {0, 4}
    ensures s.mode in {0, 4} ==> StoreSpec.Observe(s, input, endedNs, io).1 == s
    ensures PredictNow(s, context).0 == ErrState <==> s.mode in {0, 1}
    ensures ResetVolatile(s).0 == ErrState <==> s.mode in {1, 2, 3}
    ensures s.mode in {1, 2, 3} ==> ResetVolatile(s).1 == s
    ensures Learns(s.mode) <==> s.mode in {2, 3}
  {
    hide Flush, Predict, Trained, LearningModel.Observed, RecordFor, EmptyTable;
    if Accepts(s) && |s.slab| < SLAB_RECORDS {
      var s1 := s.(model := LearningModel.Observed(s.model, s.mode, input), slab := s.slab + [RecordFor(s.model, s.mode, input)]);
      FlushStatus(s1, false, io);
    }
  }

  lemma FlushStatus(s: State, durable: bool, io: Io)
    requires s.Open?
    ensures Flush(s, durable, io).0 in {Ok, ErrIo}
  {
    hide EncodeAll, EncodeHeader, Write, Resize;
  }

  // ----- The account of a run

  /** `history`: the records recovered or stored since opening; `header`: what was read or made then, with
      the epoch raised; `lost`: accepted observations that were not answered with success; `verdicts`: for
      every prediction since the last reset, whether it was right. */
  datatype Account = Account(history: seq<Record>, header: Header, lost: nat, verdicts: seq<bool>)

  function Raised(h: Header, times: nat): Header {
    h.(epoch := (h.epoch + times) % U64)
  }

  function VerdictOf(r: Record): (v: seq<bool>)
    ensures |v| <= 1
  {
    if HasFlag(r, FLAG_PREDICTION_VALID) then [HasFlag(r, FLAG_PREDICTION_CORRECT)] else []
  }

  function VerdictsOf(records: seq<Record>): seq<bool>
    decreases |records|
  {
    if records == [] then [] else VerdictsOf(records[..|records| - 1]) + VerdictOf(records[|records| - 1])
  }

  /** What a model that learns says about an observation it is about to learn. */
  function Verdict(m: Model, mode: Mode, input: Input): (v: seq<bool>)
    ensures |v| <= 1
  {
    if Learns(mode) && Predict(m.table, input.context).Predicted? then
      [Predict(m.table, input.context).candidate == input.candidate]
    else []
  }

  function Right(verdicts: seq<bool>): (n: nat)
    ensures n <= |verdicts|
  {
    if verdicts == [] then 0
    else Right(verdicts[..|verdicts| - 1]) + (if verdicts[|verdicts| - 1] then 1 else 0)
  }

  function Opening(file: seq<byte>, nowNs: u64): Account {
    if |file| < HEADER_BYTES then Account([], Header(0, nowNs, 1, 0, 0, 0), 0, [])
    else
      var records := Recover(file[HEADER_BYTES..]);
      Account(records, DecodeHeader(file[..HEADER_BYTES]), 0, VerdictsOf(records))
  }

  function Next(a: Account, s: State, op: Op): Account
    requires s.Open?
  {
    match op
    case OpSetMode(mode, io) =>
      if SetMode(s, mode, io).0 == Ok && mode != s.mode then a.(header := Raised(a.header, 1)) else a
    case OpObserve(input, endedNs, io) =>
      if s.mode in {0, 4} then a
      else
        a.(history := if |s.slab| < SLAB_RECORDS then a.history + [RecordFor(s.model, s.mode, input)] else a.history,
           lost := if StoreSpec.Observe(s, input, endedNs, io).0 == Ok then a.lost else a.lost + 1,
           verdicts := a.verdicts + Verdict(s.model, s.mode, input))
    case OpFreeze(io, again) =>
      if Flush(s, true, io).0 == Ok then a.(header := Raised(a.header, 1)) else a
    case OpReset => if s.mode in {0, 4} then a.(header := Raised(a.header, 1), verdicts := []) else a
    case _ => a
  }

  function AccountOf(s: State, ops: seq<Op>): Account
    decreases |ops|
  {
    if ops == [] then Account([], Header(0, 0, 0, 0, 0, 0), 0, [])
    else
      var before, last := ops[..|ops| - 1], ops[|ops| - 1];
      var t := Run(s, before);
      if t.Open? then Next(AccountOf(s, before), t, last)
      else if last.OpInit? then Opening(t.file, last.nowNs)
      else AccountOf(s, before)
  }

  predicate Counts(m: Model, observations: nat, v: seq<bool>) {
    && m.observations == observations && m.predictions == |v|
    && m.correct == Right(v) && m.incorrect == |v| - Right(v)
  }

  /** The store says what the account says. */
  predicate Reports(s: State, log: seq<Record>, a: Account) {
    && OnDisk(s, log) && log + s.slab == a.history
    && s.header == a.header && s.dropped == a.lost
    && Counts(s.model, |a.history|, a.verdicts)
  }

  lemma RightMore(v: seq<bool>, more: seq<bool>)
    requires |more| <= 1
    ensures Right(v + more) == Right(v) + (if more == [true] then 1 else 0)
  {
    if more == [] {
      assert v + more == v;
    } else {
      assert (v + more)[..|v + more| - 1] == v;
    }
  }

  /** An observation counts its own prediction, stored or not; it is counted itself when it is stored. */
  lemma TrainedCounts(m: Model, mode: Mode, input: Input)
    ensures var v, t, o := Verdict(m, mode, input), Trained(m, mode, input), LearningModel.Observed(m, mode, input);
      && t.observations == m.observations && o.observations == m.observations + 1
      && o.predictions == t.predictions == m.predictions + |v|
      && o.correct == t.correct == m.correct + (if v == [true] then 1 else 0)
      && o.incorrect == t.incorrect == m.incorrect + (if v == [false] then 1 else 0)
  {
    hide Learn, Predict, LiveMemory;
  }

  lemma {:induction false} ReplayCounts(records: seq<Record>)
    ensures Counts(Replay(records), |records|, VerdictsOf(records))
    decreases |records|
  {
    hide ReplayRecord, VerdictOf;
    if records == [] {
      NothingCounted();
    } else {
      var front, last := records[..|records| - 1], records[|records| - 1];
      ReplayCounts(front);
      RightMore(VerdictsOf(front), VerdictOf(last));
      OneReplayed(Replay(front), last);
    }
  }

  lemma NothingCounted()
    ensures Counts(FreshModel(), 0, [])
  {
    hide EmptyTable;
  }

  lemma ReopenedCounts(records: seq<Record>)
    ensures Counts(Reopened(records), |records|, VerdictsOf(records))
  {
    hide Replay, VerdictsOf, Right;
    ReplayCounts(records);
  }

  lemma OneReplayed(m: Model, r: Record)
    ensures var v, t := VerdictOf(r), ReplayRecord(m, r);
      && t.observations == m.observations + 1 && t.predictions == m.predictions + |v|
      && t.correct == m.correct + (if v == [true] then 1 else 0)
      && t.incorrect == m.incorrect + (if v == [false] then 1 else 0)
  {
    hide Learn, HasFlag;
  }

  // ----- Every operation keeps the account

  /** A flush, whatever fails in it, leaves the account as it was. */
  lemma FlushReports(s: State, log: seq<Record>, a: Account, durable: bool, io: Io) returns (log': seq<Record>)
    requires Reports(s, log, a)
    ensures Reports(Flush(s, durable, io).1, log', a)
  {
    hide OnDisk, Flush, Counts, Recover;
    ReportsOpen(s, log, a);
    FlushKeepsLog(s, log, durable, io);
    log' := LogAfter(s, log, io);
  }

  lemma ReportsOpen(s: State, log: seq<Record>, a: Account)
    requires Reports(s, log, a)
    ensures s.Open?
  {
    hide Recover, Counts;
  }

  lemma SetModeReports(s: State, log: seq<Record>, a: Account, mode: nat, io: Io) returns (log': seq<Record>)
    requires Reports(s, log, a)
    ensures s.Open? && Reports(SetMode(s, mode, io).1, log', Next(a, s, OpSetMode(mode, io)))
  {
    hide OnDisk, Flush, Counts, Recover;
    ReportsOpen(s, log, a);
    log' := log;
    if mode <= FROZEN {
      var s1 := s;
      if mode == OFF || mode == FROZEN {
        log' := FlushReports(s, log, a, true, io);
        s1 := Flush(s, true, io).1;
      }
      SameDisk(s1, SetMode(s, mode, io).1, log');
    }
  }

  lemma FreezeReports(s: State, log: seq<Record>, a: Account, io: Io, again: Io) returns (log': seq<Record>)
    requires Reports(s, log, a)
    ensures s.Open? && Reports(Freeze(s, io, again).1, log', Next(a, s, OpFreeze(io, again)))
  {
    hide OnDisk, Flush, Counts, Recover, WriteHeader;
    ReportsOpen(s, log, a);
    log' := FlushReports(s, log, a, true, io);
    var (rc, s1) := Flush(s, true, io);
    if rc == Ok {
      var s2 := s1.(mode := FROZEN, header := Bumped(s1.header));
      SameDisk(s1, s2, log');
      HeaderWritten(s2, log', again);
    }
  }

  lemma ResetReports(s: State, log: seq<Record>, a: Account)
    requires Reports(s, log, a)
    ensures s.Open? && Reports(ResetVolatile(s).1, log, Next(a, s, OpReset))
  {
    hide OnDisk, Recover, EmptyTable;
    ReportsOpen(s, log, a);
    SameDisk(s, ResetVolatile(s).1, log);
  }

  lemma VerdictsMore(a: seq<bool>, v: seq<bool>, m: Model, t: Model, n: nat, more: nat)
    requires |v| <= 1 && Counts(m, n, a) && t.observations == m.observations + more
    requires t.predictions == m.predictions + |v|
    requires t.correct == m.correct + (if v == [true] then 1 else 0)
    requires t.incorrect == m.incorrect + (if v == [false] then 1 else 0)
    ensures Counts(t, n + more, a + v)
  {
    RightMore(a, v);
    assert v == [] || v == [true] || v == [false];
  }

  lemma ObserveReports(s: State, log: seq<Record>, a: Account, input: Input, endedNs: nat, io: Io) returns (log': seq<Record>)
    requires Reports(s, log, a)
    ensures s.Open? && Reports(StoreSpec.Observe(s, input, endedNs, io).1, log', Next(a, s, OpObserve(input, endedNs, io)))
  {
    hide OnDisk, Flush, Counts, Recover, Trained, LearningModel.Observed, RecordFor, Verdict, Latency.Push;
    ReportsOpen(s, log, a);
    log' := log;
    if Accepts(s) {
      var v := Verdict(s.model, s.mode, input);
      TrainedCounts(s.model, s.mode, input);
      if |s.slab| >= SLAB_RECORDS {
        VerdictsMore(a.verdicts, v, s.model, Trained(s.model, s.mode, input), |a.history|, 0);
        SameDisk(s, StoreSpec.Observe(s, input, endedNs, io).1, log);
      } else {
        VerdictsMore(a.verdicts, v, s.model, LearningModel.Observed(s.model, s.mode, input), |a.history|, 1);
        log' := StoredReports(s, log, a, input, endedNs, io);
      }
    }
  }

  lemma SettleKeeps(s: State, log: seq<Record>, io: Io) returns (log': seq<Record>)
    requires OnDisk(s, log)
    ensures s.Open?
    ensures var (rc, t) := Settle(s, io);
      && OnDisk(t, log') && log' + t.slab == log + s.slab
      && t.header == s.header && t.model == s.model && t.dropped == s.dropped + (if rc == Ok then 0 else 1)
  {
    hide Flush, Recover;
    log' := log;
    if |s.slab| == SLAB_RECORDS {
      FlushKeepsLog(s, log, false, io);
      log' := LogAfter(s, log, io);
      SameDisk(Flush(s, false, io).1, Settle(s, io).1, log');
    }
  }

  lemma StoredReports(s: State, log: seq<Record>, a: Account, input: Input, endedNs: nat, io: Io) returns (log': seq<Record>)
    requires Reports(s, log, a) && Accepts(s) && |s.slab| < SLAB_RECORDS
    requires Counts(LearningModel.Observed(s.model, s.mode, input), |a.history| + 1, a.verdicts + Verdict(s.model, s.mode, input))
    ensures Reports(StoreSpec.Observe(s, input, endedNs, io).1, log', Next(a, s, OpObserve(input, endedNs, io)))
  {
    hide OnDisk, Settle, Counts, Recover, LearningModel.Observed, RecordFor, Verdict, Latency.Push;
    ReportsOpen(s, log, a);
    var r := RecordFor(s.model, s.mode, input);
    var s1 := s.(model := LearningModel.Observed(s.model, s.mode, input), slab := s.slab + [r]);
    SameDisk(s, s1, log);
    assert log + s1.slab == (log + s.slab) + [r];
    log' := SettleKeeps(s1, log, io);
    SameDisk(Settle(s1, io).1, StoreSpec.Observe(s, input, endedNs, io).1, log');
  }

  lemma StepReports(s: State, log: seq<Record>, a: Account, op: Op) returns (log': seq<Record>)
    requires s.Open? && Reports(s, log, a) && Step(s, op).1.Open?
    ensures Reports(Step(s, op).1, log', Next(a, s, op))
  {
    hide Reports, SetMode, StoreSpec.Observe, Flush, Freeze, ResetVolatile, Init, Verdict;
    log' := log;
    match op
    case OpInit(config, canOpen, nowNs, io) => OpenStays(s, config, canOpen, nowNs, io);
    case OpSetMode(mode, io) => log' := SetModeReports(s, log, a, mode, io);
    case OpObserve(input, endedNs, io) => log' := ObserveReports(s, log, a, input, endedNs, io);
    case OpFlush(io) => log' := FlushReports(s, log, a, true, io);
    case OpFreeze(io, again) => log' := FreezeReports(s, log, a, io, again);
    case OpReset => ResetReports(s, log, a);
    case _ =>
  }

  lemma OpeningReports(s: State, op: Op) returns (log: seq<Record>)
    requires s.Closed? && Step(s, op).1.Open?
    ensures op.OpInit? && Reports(Step(s, op).1, log, Opening(s.file, op.nowNs))
  {
    hide OnDisk, Recover, Counts, HeaderStatus, DecodeHeader, EncodeHeader, Write, Reopened, Right;
    log := if |s.file| < HEADER_BYTES then [] else Recover(s.file[HEADER_BYTES..]);
    assert log + [] == log;
    ReopenedCounts(log);
    if s.file == [] {
      NewFile(op.config, op.nowNs, op.io);
    } else {
      ExistingFile(s.file, op.config, op.nowNs, op.io);
    }
  }

  /** After any run of operations, whatever system calls fail, an open store reports the account of the
      run: its records are those recovered and stored, in order; its header is the one it opened with and
      the epoch raised once for every change of mode, freeze and reset; every accepted observation that was
      not answered with success is counted as dropped; and the counters of predictions, right and wrong
      ones are those of the verdicts. */
  lemma {:induction false} RunReports(s: State, ops: seq<Op>) returns (log: seq<Record>)
    requires s.Closed?
    ensures Run(s, ops).Open? ==> Reports(Run(s, ops), log, AccountOf(s, ops))
    decreases |ops|
  {
    hide Step, Reports, Next, Opening;
    log := [];
    if ops != [] {
      var before, last := ops[..|ops| - 1], ops[|ops| - 1];
      var t := Run(s, before);
      log := RunReports(s, before);
      if Step(t, last).1.Open? {
        if t.Open? {
          log := StepReports(t, log, AccountOf(s, before), last);
        } else {
          log := OpeningReports(t, last);
        }
      }
    }
  }
}
