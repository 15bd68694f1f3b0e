/** Replay equals live, and what a crash leaves behind. */
module StoreProofs {
  import opened Bytes
  import opened Predictor
  import opened RflFormat
  import opened LearningModel
  import opened StoreSpec
  import Latency

  // ----- Recovery of concatenated bytes

  lemma {:induction false} RecoverConcat(a: seq<byte>, b: seq<byte>)
    requires !TailLost(a)
    ensures Recover(a + b) == Recover(a) + Recover(b)
    decreases |a|
  {
    hide RecordOk, DecodeRecord;
    if a == [] {
      assert a + b == b;
    } else {
      assert (a + b)[..RECORD_BYTES] == a[..RECORD_BYTES];
      assert (a + b)[RECORD_BYTES..] == a[RECORD_BYTES..] + b;
      RecoverConcat(a[RECORD_BYTES..], b);
    }
  }

  /** The bytes replay accepted, taken alone, are accepted again. */
  lemma {:induction false} RecoverAccepted(p: seq<byte>)
    ensures Recover(p[..RECORD_BYTES * |Recover(p)|]) == Recover(p)
    decreases |p|
  {
    hide RecordOk, DecodeRecord;
    if Recover(p) != [] {
      var q, n := p[RECORD_BYTES..], |Recover(p)|;
      RecoverAccepted(q);
      var accepted := p[..RECORD_BYTES * n];
      assert accepted[..RECORD_BYTES] == p[..RECORD_BYTES];
      assert accepted[RECORD_BYTES..] == q[..RECORD_BYTES * (n - 1)];
    }
  }

  /** Whole records written behind accepted bytes. */
  lemma RecoverBehind(region: seq<byte>, records: seq<Record>, n: nat)
    requires !TailLost(region) && n <= RECORD_BYTES * |records|
    ensures Recover(region + EncodeAll(records)[..n]) == Recover(region) + records[..n / RECORD_BYTES]
    ensures TailLost(region + EncodeAll(records)[..n]) <==> n % RECORD_BYTES != 0
  {
    hide EncodeAll, Recover;
    RecoverPrefix(records, n);
    RecoverConcat(region, EncodeAll(records)[..n]);
  }

  // ----- What the file of an open store holds

  /** The bytes of the committed records. */
  function Region(s: State): seq<byte>
    requires s.Open? && DataEnd(s.committed) <= |s.file|
  {
    s.file[HEADER_BYTES..DataEnd(s.committed)]
  }

  function Tail(s: State): seq<byte>
    requires s.Open? && DataEnd(s.committed) <= |s.file|
  {
    s.file[DataEnd(s.committed)..]
  }

  /** The committed records are in the file, right behind the header. */
  predicate OnDisk(s: State, log: seq<Record>) {
    && s.Open? && DataEnd(s.committed) <= |s.file|
    && |log| == s.committed && Recover(Region(s)) == log
  }

  /** Behind the committed records there is nothing, or the beginning of what the slab holds. */
  predicate CleanTail(s: State) {
    s.Open? && DataEnd(s.committed) <= |s.file| && Tail(s) <= EncodeAll(s.slab)
  }

  predicate HeaderGood(file: seq<byte>) {
    |file| >= HEADER_BYTES && HeaderStatus(file[..HEADER_BYTES]) == Ok
  }

  // ----- The stages of a flush

  /** The records on disk once the slab write of a flush is over. */
  function LogAfter(s: State, log: seq<Record>, io: Io): seq<Record>
    requires s.Open?
  {
    if s.slab != [] && io.dataBytes < RECORD_BYTES * |s.slab| then log else log + s.slab
  }

  predicate SameButFile(s: State, t: State) {
    && s.Open? && t.Open?
    && t == s.(file := t.file, committed := t.committed, slab := t.slab)
  }

  lemma WriteParts(file: seq<byte>, at: nat, data: seq<byte>, n: nat)
    requires at <= |file| && n <= |data|
    ensures var f := Write(file, at, data, n);
      && |f| == (if |file| < at + n then at + n else |file|)
      && f[..at] == file[..at]
      && f[at..at + n] == data[..n]
      && (at + n <= |file| ==> f[at + n..] == file[at + n..])
  {
  }

  lemma SlabWritten(s: State, log: seq<Record>, io: Io)
    requires OnDisk(s, log)
    ensures var (rc, s') := WriteSlab(s, io);
      && SameButFile(s, s')
      && OnDisk(s', LogAfter(s, log, io))
      && s'.file[..HEADER_BYTES] == s.file[..HEADER_BYTES]
      && (rc == Ok <==> !(s.slab != [] && io.dataBytes < RECORD_BYTES * |s.slab|))
      && s'.slab == (if rc == Ok then [] else s.slab)
  {
    hide EncodeAll, Recover, Write;
    var data, at := EncodeAll(s.slab), DataEnd(s.committed);
    if s.slab == [] {
      assert log + [] == log;
    } else {
      var n := if io.dataBytes < |data| then io.dataBytes else |data|;
      WriteParts(s.file, at, data, n);
      var f := Write(s.file, at, data, n);
      assert f[..HEADER_BYTES] == f[..at][..HEADER_BYTES] && s.file[..HEADER_BYTES] == s.file[..at][..HEADER_BYTES];
      assert f[HEADER_BYTES..at] == f[..at][HEADER_BYTES..] && Region(s) == s.file[..at][HEADER_BYTES..];
      if n == |data| {
        RecoverBehind(Region(s), s.slab, n);
        assert data[..n] == data && s.slab[..n / RECORD_BYTES] == s.slab;
        assert f[HEADER_BYTES..at + n] == f[HEADER_BYTES..at] + f[at..at + n];
      }
    }
  }

  lemma HeaderWritten(s: State, log: seq<Record>, io: Io)
    requires OnDisk(s, log)
    ensures var (rc, s') := WriteHeader(s, io);
      && s' == s.(file := s'.file) && |s'.file| == |s.file|
      && OnDisk(s', log)
      && s'.file[HEADER_BYTES..] == s.file[HEADER_BYTES..]
      && (rc == Ok <==> io.headerBytes >= HEADER_BYTES)
      && (rc == Ok ==> s'.file[..HEADER_BYTES] == EncodeHeader(HeaderNow(s)) && HeaderGood(s'.file))
      && (io.headerBytes == 0 ==> s'.file == s.file)
  {
    hide EncodeHeader, HeaderStatus, Recover, Write, OnDisk, HeaderNow;
    FileHasHeader(s, log);
    var bytes := EncodeHeader(HeaderNow(s));
    var n := if io.headerBytes < HEADER_BYTES then io.headerBytes else HEADER_BYTES;
    var f := Write(s.file, 0, bytes, n);
    Overwritten(s.file, bytes, n);
    SameRegion(s, log, f);
    GoodHeader(s, f);
    assert WriteHeader(s, io) == (if io.headerBytes < HEADER_BYTES then ErrIo else Ok, s.(file := f));
  }

  lemma GoodHeader(s: State, f: seq<byte>)
    requires s.Open? && |f| >= HEADER_BYTES
    ensures f[..HEADER_BYTES] == EncodeHeader(HeaderNow(s)) ==> HeaderGood(f)
  {
    hide EncodeHeader, HeaderStatus;
    HeaderRoundTrip(HeaderNow(s));
  }

  lemma FileHasHeader(s: State, log: seq<Record>)
    requires OnDisk(s, log)
    ensures s.Open? && HEADER_BYTES <= DataEnd(s.committed) <= |s.file|
  {
    hide Recover;
  }

  lemma Overwritten(file: seq<byte>, bytes: seq<byte>, n: nat)
    requires |bytes| == HEADER_BYTES <= |file| && n <= HEADER_BYTES
    ensures var f := Write(file, 0, bytes, n);
      && |f| == |file| && f[HEADER_BYTES..] == file[HEADER_BYTES..]
      && (n == HEADER_BYTES ==> f[..HEADER_BYTES] == bytes)
      && (n == 0 ==> f == file)
  {
    hide Write;
    WriteParts(file, 0, bytes, n);
    var f := Write(file, 0, bytes, n);
    assert f[HEADER_BYTES..] == f[n..][HEADER_BYTES - n..] && file[HEADER_BYTES..] == file[n..][HEADER_BYTES - n..];
    assert n == 0 ==> f == f[n..] && file == file[n..];
  }

  lemma SameRegion(s: State, log: seq<Record>, f: seq<byte>)
    requires OnDisk(s, log) && |f| == |s.file| && f[HEADER_BYTES..] == s.file[HEADER_BYTES..]
    ensures OnDisk(s.(file := f), log)
  {
    hide Recover;
    assert f[HEADER_BYTES..DataEnd(s.committed)] == f[HEADER_BYTES..][..RECORD_BYTES * s.committed];
    assert Region(s) == s.file[HEADER_BYTES..][..RECORD_BYTES * s.committed];
  }

  lemma Truncated(s: State, log: seq<Record>)
    requires OnDisk(s, log)
    ensures var s' := s.(file := Resize(s.file, DataEnd(s.committed)));
      OnDisk(s', log) && Tail(s') == [] && s'.file[HEADER_BYTES..] == Region(s')
      && s'.file[..HEADER_BYTES] == s.file[..HEADER_BYTES]
  {
    hide Recover;
    var f := Resize(s.file, DataEnd(s.committed));
    assert f[HEADER_BYTES..] == f[HEADER_BYTES..DataEnd(s.committed)] == s.file[HEADER_BYTES..DataEnd(s.committed)];
  }

  /** Whatever goes wrong during a flush, the committed records stay, and committed and buffered
      records together stay the same. A flush that succeeds leaves the file ready to reopen. */
  lemma FlushKeepsLog(s: State, log: seq<Record>, durable: bool, io: Io)
    requires OnDisk(s, log)
    ensures var (rc, s') := Flush(s, durable, io);
      && SameButFile(s, s')
      && OnDisk(s', LogAfter(s, log, io))
      && LogAfter(s, log, io) + s'.slab == log + s.slab
      && |s'.slab| <= |s.slab|
      && (rc == Ok ==> s'.slab == [] && Tail(s') == [] && HeaderGood(s'.file))
  {
    hide OnDisk, WriteSlab, WriteHeader, Recover, HeaderStatus, EncodeHeader, Write;
    SlabWritten(s, log, io);
    var (rc, s1) := WriteSlab(s, io);
    if rc == Ok {
      assert LogAfter(s, log, io) == log + s.slab;
      assert LogAfter(s, log, io) + [] == log + s.slab;
      if io.truncated {
        Truncated(s1, log + s.slab);
        HeaderWritten(s1.(file := Resize(s1.file, DataEnd(s1.committed))), log + s.slab, io);
      }
    }
  }

  /** Closing and reopening recovers every record, committed or buffered, whatever the model was. */
  lemma ReopenRecovers(s: State, log: seq<Record>, io: Io, closed: bool, config: Config, nowNs: u64, io': Io)
    requires OnDisk(s, log) && ConfigValid(config)
    requires Close(s, io, closed).0 == Ok
    ensures var (rc, s') := Init(Close(s, io, closed).1, config, true, nowNs, io');
      && rc == Ok && s'.Open?
      && s'.model == Reopened(log + s.slab)
      && s'.committed == |log| + |s.slab| && s'.slab == [] && !s'.recoveredTail
  {
    hide OnDisk, Flush, Recover, HeaderStatus, EncodeHeader, Reopened;
    FlushKeepsLog(s, log, true, io);
    var s1 := Flush(s, true, io).1;
    WholeFile(s1, LogAfter(s, log, io));
    assert LogAfter(s, log, io) == log + s.slab;
  }

  lemma WholeFile(s: State, log: seq<Record>)
    requires OnDisk(s, log) && Tail(s) == []
    ensures HEADER_BYTES <= |s.file|
    ensures Recover(s.file[HEADER_BYTES..]) == log && !TailLost(s.file[HEADER_BYTES..])
  {
    hide Recover;
    assert s.file[HEADER_BYTES..] == Region(s);
  }

  // ----- Replay equals live

  predicate Inv(s: State, log: seq<Record>, exact: bool) {
    s.Open? ==> OnDisk(s, log) && Agree(s.model, Reopened(log + s.slab), exact)
  }

  /** An accepted observation finds room in the slab and is in the range of the log; the volatile
      state is not reset. No system call has to succeed. */
  predicate Admissible(s: State, op: Op, exact: bool) {
    match op
    case OpObserve(input, endedNs, io) =>
      Accepts(s) ==> |s.slab| < SLAB_RECORDS && InRange(s.model, input) && (exact ==> CostInRange(input))
    case OpReset => s.Closed? || Accepts(s)
    case _ => true
  }

  lemma NewFile(config: Config, nowNs: u64, io: Io)
    requires ConfigValid(config)
    ensures var (rc, s) := Init(Closed([]), config, true, nowNs, io);
      rc == Ok ==> OnDisk(s, []) && HeaderGood(s.file) && CleanTail(s) && !s.recoveredTail
                   && s.slab == [] && s.model == Reopened([])
  {
    hide Reopened, HeaderStatus, EncodeHeader, Recover, Latency.Blank, Write, EncodeAll, Tail, Region;
    var blank := Loaded([], Header(0, nowNs, 1, 0, 0, 0), [], false);
    HeaderRoundTrip(HeaderNow(blank));
    var (rc, s) := Init(Closed([]), config, true, nowNs, io);
    if rc == Ok {
      WriteNew(EncodeHeader(HeaderNow(blank)));
      assert s.file == EncodeHeader(HeaderNow(blank));
      assert s.file[..HEADER_BYTES] == s.file;
      EmptyEncoding(s);
    }
  }

  lemma WriteNew(bytes: seq<byte>)
    ensures Write([], 0, bytes, |bytes|) == bytes
  {
  }

  lemma ExistingFile(file: seq<byte>, config: Config, nowNs: u64, io: Io)
    requires ConfigValid(config) && file != []
    ensures var (rc, s) := Init(Closed(file), config, true, nowNs, io);
      && (rc == Ok <==> HeaderGood(file))
      && (rc == Ok ==>
            && s.Open? && s.file == file && OnDisk(s, Recover(file[HEADER_BYTES..]))
            && (CleanTail(s) <==> !s.recoveredTail)
            && s.recoveredTail == TailLost(file[HEADER_BYTES..])
            && s.slab == [] && s.model == Reopened(Recover(file[HEADER_BYTES..])))
  {
    hide Reopened, HeaderStatus, DecodeHeader, Recover;
    var (rc, s) := Init(Closed(file), config, true, nowNs, io);
    if rc == Ok {
      var payload := file[HEADER_BYTES..];
      RecoverAccepted(payload);
      assert Region(s) == payload[..RECORD_BYTES * |Recover(payload)|];
      EmptyEncoding(s);
    }
  }

  lemma InitEstablishes(s: State, config: Config, canOpen: bool, nowNs: u64, io: Io) returns (log: seq<Record>)
    requires s.Closed?
    ensures Inv(Init(s, config, canOpen, nowNs, io).1, log, true)
    ensures var s' := Init(s, config, canOpen, nowNs, io).1;
      s'.Open? ==> HeaderGood(s'.file) && (CleanTail(s') <==> !s'.recoveredTail)
  {
    hide Reopened, HeaderGood, OnDisk, Recover, CleanTail, HeaderStatus, LearningModel.Agree;
    log := if |s.file| < HEADER_BYTES then [] else Recover(s.file[HEADER_BYTES..]);
    assert log + [] == log;
    if ConfigValid(config) && canOpen {
      if s.file == [] {
        NewFile(config, nowNs, io);
      } else {
        ExistingFile(s.file, config, nowNs, io);
      }
      SelfAgreement(Reopened(log));
    }
  }

  lemma EmptyEncoding(s: State)
    requires s.Open? && s.slab == [] && DataEnd(s.committed) <= |s.file|
    ensures CleanTail(s) <==> |s.file| == DataEnd(s.committed)
    ensures s.committed == 0 ==> Region(s) == [] && Recover([]) == []
  {
    assert EncodeAll([]) == [];
  }

  lemma SelfAgreement(m: Model)
    ensures Agree(m, m, true)
  {
  }

  /** With room in the slab, a record is stored: on disk or in the slab, behind all others. */
  lemma Stored(s: State, input: Input, endedNs: nat, io: Io, log: seq<Record>) returns (log': seq<Record>)
    requires Accepts(s) && OnDisk(s, log) && |s.slab| < SLAB_RECORDS
    ensures var s' := Observe(s, input, endedNs, io).1;
      && s'.Open? && OnDisk(s', log') && s'.model == Observed(s.model, s.mode, input)
      && log' + s'.slab == log + s.slab + [RecordFor(s.model, s.mode, input)]
  {
    hide OnDisk, Flush, Observed, RecordFor;
    log' := log;
    var s1 := s.(model := Observed(s.model, s.mode, input), slab := s.slab + [RecordFor(s.model, s.mode, input)]);
    assert log + s1.slab == log + s.slab + [RecordFor(s.model, s.mode, input)];
    SameDisk(s, s1, log);
    if |s1.slab| == SLAB_RECORDS {
      FlushKeepsLog(s1, log, false, io);
      log' := LogAfter(s1, log, io);
      SameDisk(Flush(s1, false, io).1, Observe(s, input, endedNs, io).1, log');
    } else {
      SameDisk(s1, Observe(s, input, endedNs, io).1, log);
    }
  }

  lemma ObserveKeeps(s: State, input: Input, endedNs: nat, io: Io, log: seq<Record>, exact: bool) returns (log': seq<Record>)
    requires Inv(s, log, exact) && Admissible(s, OpObserve(input, endedNs, io), exact)
    ensures Inv(Observe(s, input, endedNs, io).1, log', exact)
  {
    hide OnDisk, Agree, Reopened, Observe, Observed, RecordFor, InRange;
    if Accepts(s) {
      log' := Stored(s, input, endedNs, io, log);
      AppendAgrees(s.model, log + s.slab, exact, s.mode, input);
    } else {
      log' := log;
      NotObserved(s, input, endedNs, io);
    }
  }

  lemma NotObserved(s: State, input: Input, endedNs: nat, io: Io)
    requires !Accepts(s)
    ensures Observe(s, input, endedNs, io).1 == s
  {
  }

  /** What is on disk depends on the file and the committed count only. */
  lemma SameDisk(s: State, t: State, log: seq<Record>)
    requires OnDisk(s, log) && t.Open? && t.file == s.file && t.committed == s.committed
    ensures OnDisk(t, log)
  {
    hide Recover;
  }

  lemma StepKeeps(s: State, op: Op, log: seq<Record>, exact: bool) returns (log': seq<Record>)
    requires Inv(s, log, exact) && Admissible(s, op, exact)
    ensures Inv(Step(s, op).1, log', exact)
  {
    hide OnDisk, Agree, Reopened, Flush, Observe, Init, WriteHeader;
    log' := log;
    match op {
      case OpInit(config, canOpen, nowNs, io) =>
        if s.Closed? {
          log' := InitEstablishes(s, config, canOpen, nowNs, io);
          ExactIsEnough(Init(s, config, canOpen, nowNs, io).1, log', exact);
        } else {
          OpenStays(s, config, canOpen, nowNs, io);
        }
      case OpObserve(input, endedNs, io) => log' := ObserveKeeps(s, input, endedNs, io, log, exact);
      case OpSetMode(mode, io) =>
        if s.Open? && (mode == OFF || mode == FROZEN) {
          FlushKeepsLog(s, log, true, io);
          log' := LogAfter(s, log, io);
          SameDisk(Flush(s, true, io).1, SetMode(s, mode, io).1, log');
        } else if s.Open? {
          SameDisk(s, SetMode(s, mode, io).1, log');
        }
      case OpFlush(io) =>
        if s.Open? {
          FlushKeepsLog(s, log, true, io);
          log' := LogAfter(s, log, io);
        }
      case OpFreeze(io, again) =>
        if s.Open? {
          log' := FreezeKeeps(s, io, again, log, exact);
        }
      case OpReset =>
      case OpClose(io, closed) =>
    }
  }

  lemma OpenStays(s: State, config: Config, canOpen: bool, nowNs: u64, io: Io)
    requires s.Open?
    ensures Init(s, config, canOpen, nowNs, io) == (ErrState, s)
  {
  }

  lemma ExactIsEnough(s: State, log: seq<Record>, exact: bool)
    requires Inv(s, log, true)
    ensures Inv(s, log, exact)
  {
    hide OnDisk, Reopened, SameButCost;
  }

  lemma FreezeKeeps(s: State, io: Io, again: Io, log: seq<Record>, exact: bool) returns (log': seq<Record>)
    requires s.Open? && Inv(s, log, exact)
    ensures Inv(Freeze(s, io, again).1, log', exact)
  {
    hide OnDisk, Agree, Reopened, Flush, WriteHeader;
    FlushKeepsLog(s, log, true, io);
    log' := LogAfter(s, log, io);
    var (rc, s1) := Flush(s, true, io);
    if rc == Ok {
      var s2 := s1.(mode := FROZEN, header := Bumped(s1.header));
      SameDisk(s1, s2, log');
      HeaderWritten(s2, log', again);
    }
  }

  predicate RunAdmissible(s: State, ops: seq<Op>, exact: bool) {
    ops == [] || (RunAdmissible(s, ops[..|ops| - 1], exact)
                  && Admissible(Run(s, ops[..|ops| - 1]), ops[|ops| - 1], exact))
  }

  lemma {:induction false} RunKeeps(s: State, ops: seq<Op>, exact: bool) returns (log: seq<Record>)
    requires s.Closed? && RunAdmissible(s, ops, exact)
    ensures Inv(Run(s, ops), log, exact)
    decreases |ops|
  {
    hide Inv, Step, Admissible;
    if ops == [] {
      log := [];
      ClosedKeeps(s, exact);
    } else {
      var before := RunKeeps(s, ops[..|ops| - 1], exact);
      log := StepKeeps(Run(s, ops[..|ops| - 1]), ops[|ops| - 1], before, exact);
    }
  }

  lemma ClosedKeeps(s: State, exact: bool)
    requires s.Closed?
    ensures Inv(s, [], exact)
  {
  }

  /** Replay equals live. Start from any closed store, whatever its file, and take any run of
      admissible operations, with any system call failing in it. If the store is then closed without
      error, reopening it rebuilds the live model: the predictor table, every counter, the next
      sequence number and the memory high-water mark; the cost averages too when no cost was clamped. */
  lemma ReplayEqualsLive(s: State, ops: seq<Op>, exact: bool,
                         io: Io, closed: bool, config: Config, nowNs: u64, io': Io)
    requires s.Closed? && RunAdmissible(s, ops, exact)
    requires Close(Run(s, ops), io, closed).0 == Ok && ConfigValid(config)
    ensures var live := Run(s, ops);
            var (rc, reopened) := Init(Close(live, io, closed).1, config, true, nowNs, io');
      && rc == Ok && reopened.Open?
      && Agree(live.model, reopened.model, exact)
      && reopened.committed == live.committed + |live.slab| && !reopened.recoveredTail
  {
    hide Recover, Agree, Reopened, Flush, Init, Run;
    var log := RunKeeps(s, ops, exact);
    ReopenRecovers(Run(s, ops), log, io, closed, config, nowNs, io');
  }

  /** The outcome of system calls that all succeed. */
  const GOOD: Io := Io(RECORD_BYTES * SLAB_RECORDS, true, HEADER_BYTES, true)

  lemma GoodFlush(s: State, durable: bool)
    requires s.Open? && |s.slab| <= SLAB_RECORDS
    ensures Flush(s, durable, GOOD).0 == Ok
  {
    hide EncodeHeader, Write, Resize;
  }

  /** Runs of the kind that replay is about exist: open a new file, start learning, observe, close. */
  lemma AdmissibleRunExists(config: Config, input: Input, exact: bool)
    requires ConfigValid(config) && -0x8000_0000 <= input.memoryDelta <= 0x7fff_ffff && CostInRange(input)
    ensures var ops := [OpInit(config, true, 0, GOOD), OpSetMode(LEARN_SHADOW, GOOD), OpObserve(input, 0, GOOD)];
            && RunAdmissible(Closed([]), ops, exact)
            && Close(Run(Closed([]), ops), GOOD, true).0 == Ok
            && Run(Closed([]), ops).Open? && |Run(Closed([]), ops).slab| == 1
  {
    hide EncodeHeader, Write, Resize, Reopened, Observed, RecordFor, Flush, WriteHeader, Run, RunAdmissible, Init;
    var a, b, c := OpInit(config, true, 0, GOOD), OpSetMode(LEARN_SHADOW, GOOD), OpObserve(input, 0, GOOD);
    var s0 := Closed([]);
    OneMore(s0, [], a, exact);
    OneMore(s0, [a], b, exact);
    OneMore(s0, [a, b], c, exact);
    assert [] + [a] == [a] && [a] + [b] == [a, b] && [a, b] + [c] == [a, b, c];
    GoodStart(config);
    GoodFlush(Run(s0, [a, b, c]), true);
  }

  lemma OneMore(s: State, ops: seq<Op>, op: Op, exact: bool)
    ensures Run(s, ops + [op]) == Step(Run(s, ops), op).1
    ensures RunAdmissible(s, ops + [op], exact) <==> RunAdmissible(s, ops, exact) && Admissible(Run(s, ops), op, exact)
    ensures Run(s, []) == s && RunAdmissible(s, [], exact)
  {
    hide Step, Admissible;
    assert (ops + [op])[..|ops|] == ops;
  }

  lemma GoodStart(config: Config)
    requires ConfigValid(config)
    ensures var (rc, s) := Init(Closed([]), config, true, 0, GOOD);
            rc == Ok && s.Open? && s.slab == [] && s.mode == OFF && s.model == Reopened([])
    ensures Reopened([]).tracked == 0 && Reopened([]).nextSequence == 1
  {
    hide EncodeHeader, Write, Resize;
  }

  /** Where the guard on the slab comes from: starting from agreement, an accepted observation in
      range leaves a store that agrees with its log if and only if there was room in the slab. */
  lemma RoomIsNecessary(s: State, log: seq<Record>, exact: bool, input: Input, endedNs: nat, io: Io)
    requires Accepts(s) && Inv(s, log, exact)
    requires InRange(s.model, input) && (exact ==> CostInRange(input))
    ensures (exists log' :: Inv(Observe(s, input, endedNs, io).1, log', exact)) <==> |s.slab| < SLAB_RECORDS
  {
    hide Agree, Reopened, Flush, Observed, RecordFor, Recover;
    if |s.slab| < SLAB_RECORDS {
      var log' := ObserveKeeps(s, input, endedNs, io, log, exact);
    } else {
      var s' := Observe(s, input, endedNs, io).1;
      DroppedDisagrees(s.model, log + s.slab, exact, s.mode, input);
      forall log' ensures !Inv(s', log', exact) {
        assert Region(s') == Region(s);
      }
    }
  }

  /** Exactly which accepted observations, of whatever content, keep the agreement: the slab has room, the
      memory change replays as it was counted, and the sequence numbers go on. */
  lemma KeptExactly(s: State, log: seq<Record>, input: Input, endedNs: nat, io: Io)
    requires Accepts(s) && Inv(s, log, false) && s.model.tracked <= INT64_MAX
    ensures (exists log' :: Inv(Observe(s, input, endedNs, io).1, log', false))
       <==> && |s.slab| < SLAB_RECORDS && MemoryReplays(s.model.tracked, input.memoryDelta)
            && (s.model.nextSequence + 1 < U64 || (|log| + |s.slab| + 2) % U64 == 0)
  {
    hide OnDisk, Agree, Reopened, Observe, Observed, RecordFor, MemoryReplays;
    var s' := Observe(s, input, endedNs, io).1;
    if |s.slab| < SLAB_RECORDS {
      var now := Stored(s, input, endedNs, io, log);
      AppendExact(s.model, log + s.slab, s.mode, input);
      if Agree(s'.model, Reopened(now + s'.slab), false) {
        assert Inv(s', now, false);
      }
      forall log' | Inv(s', log', false) ensures log' == now {
        SameLog(s', log', now);
      }
    } else {
      Dropped(s, input, endedNs, io);
      DroppedDisagrees(s.model, log + s.slab, false, s.mode, input);
      forall log' | Inv(s', log', false) ensures log' == log {
        SameDisk(s, s', log);
        SameLog(s', log', log);
      }
    }
  }

  lemma Dropped(s: State, input: Input, endedNs: nat, io: Io)
    requires Accepts(s) && |s.slab| >= SLAB_RECORDS
    ensures Observe(s, input, endedNs, io)
         == (ErrCapacity, s.(model := Trained(s.model, s.mode, input), dropped := s.dropped + 1))
  {
  }

  /** The records on disk are determined by the state. */
  lemma SameLog(s: State, log: seq<Record>, log': seq<Record>)
    requires OnDisk(s, log) && OnDisk(s, log')
    ensures log == log'
  {
    hide Recover;
  }

  // ----- Crashes

  /** The slab bytes that are in the file when a flush stops: at least those an earlier, failed
      attempt left there. */
  function Reached(s: State, io: Io): nat
    requires s.Open? && DataEnd(s.committed) <= |s.file|
  {
    var now := if io.dataBytes < RECORD_BYTES * |s.slab| then io.dataBytes else RECORD_BYTES * |s.slab|;
    if |Tail(s)| < now then now else |Tail(s)|
  }

  /** The slab records whose bytes are all in the file. */
  function Survivors(s: State, io: Io): seq<Record>
    requires s.Open? && CleanTail(s)
  {
    s.slab[..Reached(s, io) / RECORD_BYTES]
  }

  lemma PrefixWritten(s: State, io: Io)
    requires s.Open? && CleanTail(s)
    ensures var f := WriteSlab(s, io).1.file;
      && |f| >= DataEnd(s.committed)
      && f[DataEnd(s.committed)..] == EncodeAll(s.slab)[..Reached(s, io)]
      && f[HEADER_BYTES..] == Region(s) + EncodeAll(s.slab)[..Reached(s, io)]
  {
    hide EncodeAll;
    var data, at := EncodeAll(s.slab), DataEnd(s.committed);
    var n := if io.dataBytes < |data| then io.dataBytes else |data|;
    var f := WriteSlab(s, io).1.file;
    if s.slab == [] {
      assert f[HEADER_BYTES..] == Region(s) + Tail(s);
    } else {
      assert f == Write(s.file, at, data, n);
      assert f[HEADER_BYTES..at] == Region(s);
      assert f[at..] == data[..n] + (if n < |Tail(s)| then Tail(s)[n..] else []);
      assert Tail(s) == data[..|Tail(s)|];
      assert f[at..] == data[..Reached(s, io)];
      assert f[HEADER_BYTES..] == f[HEADER_BYTES..at] + f[at..];
    }
  }

  /** Crash recovery. Stop a flush anywhere: after any byte of the slab, before or after the
      truncation, before, in or after the header. The records found by replay are exactly the
      committed ones followed by the slab records that are complete in the bytes that were written,
      and a tail is reported exactly when the last of them is incomplete. */
  lemma CrashDuringFlush(s: State, log: seq<Record>, durable: bool, io: Io, f: seq<byte>)
    requires OnDisk(s, log) && CleanTail(s)
    requires f == Flush(s, durable, io).1.file
    ensures |f| >= HEADER_BYTES
    ensures Recover(f[HEADER_BYTES..]) == log + Survivors(s, io)
    ensures TailLost(f[HEADER_BYTES..]) <==> Reached(s, io) % RECORD_BYTES != 0
  {
    hide Recover, EncodeAll, WriteSlab, WriteHeader;
    var (rc, s1) := WriteSlab(s, io);
    PrefixWritten(s, io);
    RecoverBehind(Region(s), s.slab, Reached(s, io));
    SlabWritten(s, log, io);
    if rc == Ok && io.truncated {
      CompleteData(s, io);
      Truncated(s1, log + s.slab);
      var s2 := s1.(file := Resize(s1.file, DataEnd(s1.committed)));
      HeaderWritten(s2, log + s.slab, io);
      WholeFile(s2, log + s.slab);
    }
  }

  lemma CompleteData(s: State, io: Io)
    requires s.Open? && CleanTail(s)
    requires !(s.slab != [] && io.dataBytes < RECORD_BYTES * |s.slab|)
    ensures Reached(s, io) == RECORD_BYTES * |s.slab|
    ensures Survivors(s, io) == s.slab
  {
  }

  /** No flush, however it fails, leaves anything behind the committed records but the beginning of
      what is still buffered. */
  lemma FlushKeepsClean(s: State, log: seq<Record>, durable: bool, io: Io)
    requires OnDisk(s, log) && CleanTail(s)
    ensures CleanTail(Flush(s, durable, io).1)
  {
    hide Recover, EncodeAll, WriteSlab, WriteHeader;
    var (rc, s1) := WriteSlab(s, io);
    SlabWritten(s, log, io);
    PrefixWritten(s, io);
    SlabTail(s, log, io);
    if rc == Ok && io.truncated {
      Truncated(s1, log + s.slab);
      HeaderWritten(s1.(file := Resize(s1.file, DataEnd(s1.committed))), log + s.slab, io);
    }
  }

  lemma SlabTail(s: State, log: seq<Record>, io: Io)
    requires OnDisk(s, log) && CleanTail(s)
    ensures CleanTail(WriteSlab(s, io).1)
  {
    hide Recover, Write, EncodeAll;
    PrefixWritten(s, io);
    SlabWritten(s, log, io);
    var (rc, s1) := WriteSlab(s, io);
    var written := s1.file[DataEnd(s.committed)..];
    if rc == Ok && s.slab != [] {
      CompleteData(s, io);
      assert Tail(s1) == written[RECORD_BYTES * |s.slab|..] == [];
    } else if rc != Ok {
      assert Tail(s1) == written == EncodeAll(s.slab)[..Reached(s, io)];
    }
  }

  /** While the store stays open, the condition of the crash theorem is kept by every operation,
      with any system call failing in it. */
  lemma StepKeepsClean(s: State, log: seq<Record>, op: Op)
    requires OnDisk(s, log) && CleanTail(s) && !op.OpClose?
    ensures CleanTail(Step(s, op).1)
  {
    hide Recover, CleanTail, Flush, Observe, Freeze;
    match op {
      case OpInit(config, canOpen, nowNs, io) =>
      case OpObserve(input, endedNs, io) => ObserveKeepsClean(s, log, input, endedNs, io);
      case OpSetMode(mode, io) =>
        FlushKeepsClean(s, log, true, io);
        SameTail(s, SetMode(s, mode, io).1);
        SameTail(Flush(s, true, io).1, SetMode(s, mode, io).1);
      case OpFlush(io) => FlushKeepsClean(s, log, true, io);
      case OpFreeze(io, again) => FreezeKeepsClean(s, log, io, again);
      case OpReset => SameTail(s, ResetVolatile(s).1);
    }
  }

  lemma SameTail(s: State, t: State)
    ensures s.Open? && t.Open? && CleanTail(s) && t.file == s.file && t.committed == s.committed && s.slab <= t.slab
            ==> CleanTail(t)
  {
    hide EncodeAll;
    if s.Open? && t.Open? && s.slab <= t.slab {
      EncodeConcat(s.slab, t.slab[|s.slab|..]);
      assert t.slab == s.slab + t.slab[|s.slab|..];
    }
  }

  lemma ObserveKeepsClean(s: State, log: seq<Record>, input: Input, endedNs: nat, io: Io)
    requires OnDisk(s, log) && CleanTail(s)
    ensures CleanTail(Observe(s, input, endedNs, io).1)
  {
    hide Recover, CleanTail, Flush, Trained, Observed, RecordFor;
    var s' := Observe(s, input, endedNs, io).1;
    if Accepts(s) && |s.slab| < SLAB_RECORDS {
      var s1 := s.(model := Observed(s.model, s.mode, input),
                   slab := s.slab + [RecordFor(s.model, s.mode, input)]);
      SameDisk(s, s1, log);
      SameTail(s, s1);
      FlushKeepsClean(s1, log, false, io);
      SameTail(s1, s');
      SameTail(Flush(s1, false, io).1, s');
    } else {
      SameTail(s, s');
    }
  }

  lemma FreezeKeepsClean(s: State, log: seq<Record>, io: Io, again: Io)
    requires OnDisk(s, log) && CleanTail(s)
    ensures CleanTail(Freeze(s, io, again).1)
  {
    hide Recover, CleanTail, Flush, WriteHeader;
    FlushKeepsClean(s, log, true, io);
    FlushKeepsLog(s, log, true, io);
    var (rc, s1) := Flush(s, true, io);
    if rc == Ok {
      var s2 := s1.(mode := FROZEN, header := Bumped(s1.header));
      SameDisk(s1, s2, LogAfter(s, log, io));
      SameTail(s1, s2);
      HeaderWritten(s2, LogAfter(s, log, io), again);
      TailBehindHeader(s2, WriteHeader(s2, again).1);
    }
  }

  lemma TailBehindHeader(s: State, t: State)
    requires s.Open? && CleanTail(s) && |t.file| == |s.file| && t == s.(file := t.file)
    requires t.file[HEADER_BYTES..] == s.file[HEADER_BYTES..]
    ensures CleanTail(t)
  {
    hide EncodeAll;
    var n := RECORD_BYTES * s.committed;
    assert Tail(t) == t.file[HEADER_BYTES..][n..] == s.file[HEADER_BYTES..][n..] == Tail(s);
  }

  /** A flush that does not stop inside the header write leaves a readable header. */
  lemma HeaderSurvives(s: State, log: seq<Record>, durable: bool, io: Io)
    requires OnDisk(s, log) && HeaderGood(s.file)
    requires io.headerBytes == 0 || io.headerBytes >= HEADER_BYTES
    ensures HeaderGood(Flush(s, durable, io).1.file)
  {
    hide Recover, HeaderStatus, WriteSlab, WriteHeader;
    var (rc, s1) := WriteSlab(s, io);
    SlabWritten(s, log, io);
    if rc == Ok && io.truncated {
      Truncated(s1, LogAfter(s, log, io));
      HeaderWritten(s1.(file := Resize(s1.file, DataEnd(s1.committed))), LogAfter(s, log, io), io);
    }
  }

  /** Reopening after a crash: it succeeds if and only if the header can be read, and then the model
      is the replay of the surviving prefix of the history. */
  lemma ReopenAfterCrash(s: State, log: seq<Record>, durable: bool, io: Io, f: seq<byte>,
                         config: Config, nowNs: u64, io': Io, rc: Status, s': State)
    requires OnDisk(s, log) && CleanTail(s) && ConfigValid(config)
    requires f == Flush(s, durable, io).1.file
    requires (rc, s') == Init(Closed(f), config, true, nowNs, io')
    ensures rc == Ok <==> HeaderGood(f)
    ensures rc == Ok ==>
      && OnDisk(s', log + Survivors(s, io))
      && s'.model == Reopened(log + Survivors(s, io))
      && s'.recoveredTail == (Reached(s, io) % RECORD_BYTES != 0)
  {
    hide Recover, Flush, Init, Reopened, HeaderGood, Survivors, Reached;
    CrashDuringFlush(s, log, durable, io, f);
    ExistingFile(f, config, nowNs, io');
  }
}
