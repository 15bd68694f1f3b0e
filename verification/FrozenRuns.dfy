/** What freezing a store means: nothing is learned and nothing is logged afterwards, over whole runs. */
module FrozenRuns {
  import opened Bytes
  import opened RflFormat
  import opened LearningModel
  import opened StoreSpec
  import opened StoreProofs
  import RuntimeSpec
  import Predictor

  /** Every operation but a change to another mode, a reset and a close. */
  predicate Quiet(op: Op) {
    !op.OpReset? && !op.OpClose? && (op.OpSetMode? ==> op.mode >= FROZEN)
  }

  predicate Frozen(s: State) {
    s.Open? && s.mode == FROZEN
  }

  /** The same records, committed or buffered, the same model, and nothing else counted. */
  predicate Untouched(s: State, t: State, log: seq<Record>, log': seq<Record>) {
    RuntimeSpec.SameKnowledge(s, t, log, log') && t.dropped == s.dropped && t.latency == s.latency
  }

  lemma FrozenRefuses(s: State, input: Input, endedNs: nat, io: Io)
    requires Frozen(s)
    ensures StoreSpec.Observe(s, input, endedNs, io) == (ErrState, s)
  {
  }

  /** A flush that succeeds leaves every record on disk and nothing behind them. */
  lemma Flushed(s: State, io: Io, log: seq<Record>) returns (s1: State)
    requires OnDisk(s, log) && Flush(s, true, io).0 == Ok
    ensures s1 == Flush(s, true, io).1 && SameButFile(s, s1)
    ensures Settled(s1, log + s.slab)
  {
    hide Flush, Recover, Tail;
    s1 := Flush(s, true, io).1;
    FlushKeepsLog(s, log, true, io);
    assert LogAfter(s, log, io) + s1.slab == LogAfter(s, log, io);
  }

  /** The file begins with a good header, which is `h`. */
  predicate HeaderIs(file: seq<byte>, h: Header) {
    |file| >= HEADER_BYTES && HeaderStatus(file[..HEADER_BYTES]) == Ok && DecodeHeader(file[..HEADER_BYTES]) == h
  }

  lemma HeaderInFile(s: State, t: State)
    requires s.Open? && t.Open? && |t.file| >= HEADER_BYTES
    requires t.file[..HEADER_BYTES] == EncodeHeader(HeaderNow(s))
    ensures HeaderIs(t.file, HeaderNow(s))
  {
    hide HeaderStatus, EncodeHeader, DecodeHeader, HeaderNow;
    HeaderRoundTrip(HeaderNow(s));
  }

  /** The second header write of a freeze, on a store that has just been flushed. */
  lemma FrozenHeader(s: State, s1: State, io: Io, again: Io, log: seq<Record>) returns (t: State)
    requires s.Open? && (Ok, s1) == Flush(s, true, io) && OnDisk(s1, log) && Freeze(s, io, again).0 == Ok
    ensures t == Freeze(s, io, again).1 && t.Open?
    ensures t == s1.(mode := FROZEN, header := Bumped(s1.header), file := t.file)
    ensures OnDisk(t, log) && Tail(t) == Tail(s1)
    ensures HeaderIs(t.file, Bumped(s1.header).(committed := s1.committed % U64))
  {
    hide Flush, WriteHeader, OnDisk, Tail, HeaderStatus, EncodeHeader, DecodeHeader;
    var s2 := s1.(mode := FROZEN, header := Bumped(s1.header));
    SameDisk(s1, s2, log);
    HeaderWritten(s2, log, again);
    t := Freeze(s, io, again).1;
    FileHasHeader(s1, log);
    FileHasHeader(t, log);
    SameTails(s1, s2, t);
    HeaderInFile(s2, t);
  }

  function RaisedHeader(h: Header, records: nat): Header {
    h.(committed := records % U64, epoch := (h.epoch + 1) % U64)
  }

  /** The file holds exactly these records, and nothing is buffered. */
  predicate Settled(s: State, log: seq<Record>) {
    OnDisk(s, log) && s.slab == [] && Tail(s) == []
  }

  /** Everything `s` knew is on disk in `t`, under a header with the raised epoch; nothing else changed. */
  predicate FrozenAt(s: State, t: State, log: seq<Record>)
    requires s.Open?
  {
    && Frozen(t) && Settled(t, log + s.slab)
    && Untouched(s, t, log, log + s.slab)
    && HeaderIs(t.file, RaisedHeader(s.header, |log| + |s.slab|))
  }

  /** A freeze that succeeds has written every record and the raised epoch, and keeps the model; from
      then on an observation is refused and changes nothing. */
  lemma FreezeFreezes(s: State, io: Io, again: Io, log: seq<Record>)
    requires s.Open? && OnDisk(s, log) && Freeze(s, io, again).0 == Ok
    ensures FrozenAt(s, Freeze(s, io, again).1, log)
    ensures forall input, endedNs, io' ::
              StoreSpec.Observe(Freeze(s, io, again).1, input, endedNs, io') == (ErrState, Freeze(s, io, again).1)
  {
    hide Freeze, Flush, WriteHeader, Recover, Tail, HeaderIs;
    FreezeFlushes(s, io, again);
    var s1 := Flushed(s, io, log);
    var t := FrozenHeader(s, s1, io, again, log + s.slab);
    assert (log + s.slab) + t.slab == log + s.slab;
    forall input, endedNs, io' ensures StoreSpec.Observe(t, input, endedNs, io') == (ErrState, t) {
      FrozenRefuses(t, input, endedNs, io');
    }
  }

  lemma FreezeFlushes(s: State, io: Io, again: Io)
    requires s.Open? && Freeze(s, io, again).0 == Ok
    ensures Flush(s, true, io).0 == Ok
  {
    hide Flush, WriteHeader;
  }

  lemma SameTails(s1: State, s2: State, t: State)
    requires s1.Open? && s2.Open? && t.Open? && DataEnd(s1.committed) <= |s1.file|
    requires s2.file == s1.file && s2.committed == s1.committed == t.committed
    requires |t.file| == |s1.file| && t.file[HEADER_BYTES..] == s1.file[HEADER_BYTES..]
    ensures Tail(t) == Tail(s1)
  {
    var n := RECORD_BYTES * s1.committed;
    assert Tail(t) == t.file[HEADER_BYTES..][n..] && Tail(s1) == s1.file[HEADER_BYTES..][n..];
  }

  /** Every system call of a flush that is made goes through. */
  predicate Completes(s: State, io: Io)
    requires s.Open?
  {
    && (s.slab == [] || io.dataBytes >= |EncodeAll(s.slab)|)
    && io.truncated && io.headerBytes >= HEADER_BYTES && io.synced
  }

  /** A freeze freezes exactly when its flush completes, or the store was frozen before; its answer also
      depends on the second header write. So a freeze that fails in that write has frozen the store. */
  lemma FreezeDecides(s: State, io: Io, again: Io)
    requires s.Open?
    ensures Frozen(Freeze(s, io, again).1) <==> s.mode == FROZEN || Completes(s, io)
    ensures Freeze(s, io, again).0 == Ok <==> Completes(s, io) && again.headerBytes >= HEADER_BYTES && again.synced
  {
    hide EncodeAll, EncodeHeader, Write, Resize;
    FlushKeepsMode(s, true, io);
    assert Flush(s, true, io).0 == Ok <==> Completes(s, io);
  }

  /** One such operation on a frozen store, whatever system calls fail in it. */
  lemma QuietStep(s: State, op: Op, log: seq<Record>) returns (log': seq<Record>)
    requires Frozen(s) && OnDisk(s, log) && Quiet(op)
    ensures Frozen(Step(s, op).1) && Untouched(s, Step(s, op).1, log, log')
  {
    hide Flush, WriteHeader, Recover, Init;
    log' := log;
    match op
    case OpInit(config, canOpen, nowNs, io) => OpenStays(s, config, canOpen, nowNs, io);
    case OpSetMode(mode, io) =>
      if mode == FROZEN {
        FlushKeepsLog(s, log, true, io);
        log' := LogAfter(s, log, io);
        SameDisk(Flush(s, true, io).1, SetMode(s, FROZEN, io).1, log');
      }
    case OpObserve(input, endedNs, io) => FrozenRefuses(s, input, endedNs, io);
    case OpFlush(io) =>
      FlushKeepsLog(s, log, true, io);
      log' := LogAfter(s, log, io);
    case OpFreeze(io, again) =>
      FlushKeepsLog(s, log, true, io);
      log' := LogAfter(s, log, io);
      var (rc, s1) := Flush(s, true, io);
      if rc == Ok {
        var s2 := s1.(mode := FROZEN, header := Bumped(s1.header));
        SameDisk(s1, s2, log');
        HeaderWritten(s2, log', again);
      }
    case _ =>
  }

  lemma {:induction false} QuietRun(s: State, ops: seq<Op>, log: seq<Record>) returns (log': seq<Record>)
    requires Frozen(s) && OnDisk(s, log)
    requires forall op :: op in ops ==> Quiet(op)
    ensures Frozen(Run(s, ops)) && Untouched(s, Run(s, ops), log, log')
    decreases |ops|
  {
    hide Step, Recover, Quiet;
    log' := log;
    if ops != [] {
      log' := QuietRun(s, ops[..|ops| - 1], log);
      log' := QuietStep(Run(s, ops[..|ops| - 1]), ops[|ops| - 1], log');
    }
  }

  /** After a freeze that succeeds, however many observations, flushes and further freezes follow and
      whatever system calls fail in them: model and records are those of the moment of the freeze,
      every prediction is the one of that model, and every observation is refused. */
  lemma FreezeHolds(s: State, io: Io, again: Io, ops: seq<Op>, log: seq<Record>) returns (log': seq<Record>)
    requires OnDisk(s, log) && Freeze(s, io, again).0 == Ok
    requires forall op :: op in ops ==> Quiet(op)
    ensures var t := Run(Freeze(s, io, again).1, ops);
      && Frozen(t) && Untouched(s, t, log, log')
      && (forall context :: PredictNow(t, context).1 == Predictor.Predict(s.model.table, context))
      && (forall context :: PredictNow(t, context).0
            == if Predictor.Predict(s.model.table, context) == Predictor.NoPrediction then ErrCapacity else Ok)
      && forall input, endedNs, io' :: StoreSpec.Observe(t, input, endedNs, io') == (ErrState, t)
  {
    hide Freeze, Recover, Quiet, Predictor.Predict, HeaderIs;
    FreezeFreezes(s, io, again, log);
    var frozen := Freeze(s, io, again).1;
    log' := QuietRun(frozen, ops, log + s.slab);
    var t := Run(frozen, ops);
    forall input, endedNs, io' ensures StoreSpec.Observe(t, input, endedNs, io') == (ErrState, t) {
      FrozenRefuses(t, input, endedNs, io');
    }
  }
}
