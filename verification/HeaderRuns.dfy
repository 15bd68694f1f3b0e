/** The header of the store file over a session: which header a write finds on disk, and what it leaves
    when it is stopped. */
module HeaderRuns {
  import opened Bytes
  import opened HeaderFlush
  import opened HeaderTear
  import opened RflFormat
  import opened LearningModel
  import opened StoreSpec
  import opened StoreProofs

  // ----- One header write

  /** The file shows the header `h`; what the store holds differs from it in epoch and count only. */
  predicate Shows(s: State, h: Header) {
    && s.Open? && |s.file| >= HEADER_BYTES && s.file[..HEADER_BYTES] == EncodeHeader(h)
    && h == s.header.(committed := h.committed, epoch := h.epoch)
  }

  function Reached(io: Io): (n: nat)
    ensures n <= HEADER_BYTES
  {
    if io.headerBytes < HEADER_BYTES then io.headerBytes else HEADER_BYTES
  }

  lemma WholeTorn(before: seq<byte>, next: seq<byte>)
    requires |before| == |next| == HEADER_BYTES
    ensures Torn(before, next, HEADER_BYTES) == next && Torn(before, next, 0) == before
  {
  }

  /** A header write that is stopped tears the header that was there. */
  lemma WriteTears(s: State, h: Header, io: Io)
    requires Shows(s, h)
    ensures var f := WriteHeader(s, io).1.file;
      && |f| == |s.file| && f[..HEADER_BYTES] == Torn(EncodeHeader(h), EncodeHeader(HeaderNow(s)), Reached(io))
  {
    hide EncodeHeader, Write, HeaderNow;
    var bytes, n := EncodeHeader(HeaderNow(s)), Reached(io);
    var f := Write(s.file, 0, bytes, n);
    WriteParts(s.file, 0, bytes, n);
    assert f[..n] == f[0..n] == bytes[..n];
    assert f[..HEADER_BYTES] == f[..n] + f[n..][..HEADER_BYTES - n];
    assert s.file[..HEADER_BYTES][n..] == s.file[n..][..HEADER_BYTES - n];
  }

  /** The state when a flush comes to its header write, and whether it does. */
  function BeforeHeader(s: State, io: Io): (t: State)
    requires s.Open?
    ensures t.Open?
  {
    var t := WriteSlab(s, io).1;
    if WritesHeader(s, io) then t.(file := Resize(t.file, DataEnd(t.committed))) else t
  }

  predicate WritesHeader(s: State, io: Io)
    requires s.Open?
  {
    !(s.slab != [] && io.dataBytes < RECORD_BYTES * |s.slab|) && io.truncated
  }

  lemma StagesKeepHeader(s: State, h: Header, io: Io)
    requires Shows(s, h)
    ensures var t := BeforeHeader(s, io);
      && Shows(t, h) && t.header == s.header && t.mode == s.mode
      && s.committed <= t.committed <= s.committed + |s.slab| && |t.slab| <= |s.slab|
      && (!WritesHeader(s, io) && io.truncated ==> t.committed == s.committed)
  {
    hide EncodeHeader, EncodeAll, Write, Resize;
    var data, at := EncodeAll(s.slab), DataEnd(s.committed);
    var n := if io.dataBytes < |data| then io.dataBytes else |data|;
    WriteKeepsFront(s.file, at, data, n);
    var t := WriteSlab(s, io).1;
    assert t.file[..HEADER_BYTES] == s.file[..HEADER_BYTES] && |t.file| >= HEADER_BYTES;
    ResizeKeepsFront(t.file, DataEnd(t.committed));
  }

  lemma WriteKeepsFront(file: seq<byte>, at: nat, data: seq<byte>, n: nat)
    requires n <= |data| && HEADER_BYTES <= at && HEADER_BYTES <= |file|
    ensures var f := Write(file, at, data, n); |f| >= HEADER_BYTES && f[..HEADER_BYTES] == file[..HEADER_BYTES]
  {
  }

  lemma ResizeKeepsFront(file: seq<byte>, size: nat)
    requires HEADER_BYTES <= |file| && HEADER_BYTES <= size
    ensures Resize(file, size)[..HEADER_BYTES] == file[..HEADER_BYTES]
  {
  }

  lemma FlushStages(s: State, durable: bool, io: Io)
    requires s.Open?
    ensures Flush(s, durable, io).1 == if WritesHeader(s, io) then WriteHeader(BeforeHeader(s, io), io).1 else BeforeHeader(s, io)
  {
    hide EncodeAll, EncodeHeader, Write, Resize, WriteHeader;
  }

  /** A flush leaves the old header, or tears it when its header write is stopped. */
  lemma FlushTears(s: State, h: Header, durable: bool, io: Io)
    requires Shows(s, h)
    ensures var f, t := Flush(s, durable, io).1.file, BeforeHeader(s, io);
      && |f| >= HEADER_BYTES
      && f[..HEADER_BYTES] == if WritesHeader(s, io) then Torn(EncodeHeader(h), EncodeHeader(HeaderNow(t)), Reached(io)) else EncodeHeader(h)
  {
    hide EncodeHeader, WriteHeader, BeforeHeader, HeaderNow;
    FlushStages(s, durable, io);
    StagesKeepHeader(s, h, io);
    if WritesHeader(s, io) {
      WriteTears(BeforeHeader(s, io), h, io);
    }
  }

  // ----- A session

  /** The header on disk has the count of the store, and an epoch at most `n` behind. */
  predicate Level(s: State, h: Header, n: nat) {
    && Shows(s, h) && s.committed == h.committed && |s.slab| <= SLAB_RECORDS
    && h.epoch <= s.header.epoch <= h.epoch + n
  }

  /** Truncations do not fail and header writes are not stopped; everything else may be. */
  predicate Tame(io: Io) {
    io.truncated && io.headerBytes >= HEADER_BYTES
  }

  predicate TameOp(op: Op) {
    match op
    case OpSetMode(_, io) => Tame(io)
    case OpObserve(_, _, io) => Tame(io)
    case OpFlush(io) => Tame(io)
    case OpFreeze(io, again) => Tame(io) && Tame(again)
    case OpClose(_, _) => false
    case _ => true
  }

  /** Count and epoch stay far enough below 2^32. */
  predicate Roomy(s: State, n: nat) {
    s.Open? ==> s.committed + SLAB_RECORDS * (n + 1) < U32 && s.header.epoch + n < U32
  }

  /** A flush that goes through to its header levels the header on disk. */
  lemma TameFlush(s: State, h: Header, n: nat, durable: bool, io: Io) returns (g: Header)
    requires Level(s, h, n) && Tame(io) && s.committed + SLAB_RECORDS < U64
    ensures var t := Flush(s, durable, io).1;
      && Level(t, g, n) && t.header == s.header && t.committed <= s.committed + SLAB_RECORDS && t.mode == s.mode
      && |t.slab| <= |s.slab| && t.latency == s.latency && t.dropped == s.dropped
      && (Flush(s, durable, io).0 == Ok ==> g.epoch == s.header.epoch)
  {
    hide EncodeHeader, WriteHeader, BeforeHeader, Resize, Write, EncodeAll;
    FlushTears(s, h, durable, io);
    FlushStages(s, durable, io);
    StagesKeepHeader(s, h, io);
    FlushKeepsRest(s, durable, io);
    var t := BeforeHeader(s, io);
    if WritesHeader(s, io) {
      g := HeaderNow(t);
      WholeTorn(EncodeHeader(h), EncodeHeader(g));
      HeaderOnly(t, io);
    } else {
      g := h;
      NoHeaderNoOk(s, durable, io);
    }
  }

  lemma HeaderOnly(s: State, io: Io)
    requires s.Open?
    ensures WriteHeader(s, io).1 == s.(file := WriteHeader(s, io).1.file)
  {
    hide EncodeHeader, Write;
  }

  lemma NoHeaderNoOk(s: State, durable: bool, io: Io)
    requires s.Open? && !WritesHeader(s, io)
    ensures Flush(s, durable, io).0 != Ok
  {
    hide EncodeAll, EncodeHeader, Write, Resize, WriteHeader;
  }

  lemma FlushKeepsRest(s: State, durable: bool, io: Io)
    requires s.Open?
    ensures var t := Flush(s, durable, io).1;
      t.header == s.header && t.mode == s.mode && t.latency == s.latency && t.dropped == s.dropped && |t.slab| <= |s.slab|
  {
    hide EncodeAll, EncodeHeader, Write, Resize;
  }

  lemma StepLevel(s: State, h: Header, n: nat, op: Op) returns (g: Header)
    requires Level(s, h, n) && TameOp(op) && Roomy(s, 1)
    ensures var t := Step(s, op).1;
      && Level(t, g, n + 1) && t.committed <= s.committed + SLAB_RECORDS && t.header.epoch <= s.header.epoch + 1
  {
    hide EncodeHeader, Flush, Observed, RecordFor, Trained, Write;
    g := h;
    match op
    case OpInit(_, _, _, _) =>
    case OpReset =>
    case OpSetMode(mode, io) =>
      if mode == OFF || mode == FROZEN {
        g := TameFlush(s, h, n, true, io);
      }
    case OpObserve(input, endedNs, io) =>
      if Accepts(s) && |s.slab| < SLAB_RECORDS {
        var s1 := s.(model := Observed(s.model, s.mode, input), slab := s.slab + [RecordFor(s.model, s.mode, input)]);
        if |s1.slab| == SLAB_RECORDS {
          g := TameFlush(s1, h, n, false, io);
        }
      }
    case OpFlush(io) =>
      g := TameFlush(s, h, n, true, io);
    case OpFreeze(io, again) =>
      g := TameFlush(s, h, n, true, io);
      var (rc, s1) := Flush(s, true, io);
      if rc == Ok {
        var s2 := s1.(mode := FROZEN, header := Bumped(s1.header));
        WriteTears(s2, g, again);
        HeaderOnly(s2, again);
        g := HeaderNow(s2);
        WholeTorn(EncodeHeader(h), EncodeHeader(g));
        WholeTorn(s2.file[..HEADER_BYTES], EncodeHeader(g));
      }
  }

  lemma {:induction false} RunLevel(s: State, h: Header, ops: seq<Op>) returns (g: Header)
    requires Level(s, h, 0) && (forall i :: 0 <= i < |ops| ==> TameOp(ops[i])) && Roomy(s, |ops|)
    ensures var t := Run(s, ops);
      && Level(t, g, |ops|) && t.committed <= s.committed + SLAB_RECORDS * |ops| && t.header.epoch <= s.header.epoch + |ops|
    decreases |ops|
  {
    hide Step, EncodeHeader;
    if ops == [] {
      g := h;
    } else {
      var front, last := ops[..|ops| - 1], ops[|ops| - 1];
      var f := RunLevel(s, h, front);
      g := StepLevel(Run(s, front), f, |ops| - 1, last);
    }
  }

  /** The file shows a header write from `a` to `b` that may have been stopped. */
  predicate ShowsTorn(file: seq<byte>, a: Header, b: Header, at: nat) {
    && |file| >= HEADER_BYTES && at <= HEADER_BYTES && file[..HEADER_BYTES] == Torn(EncodeHeader(a), EncodeHeader(b), at)
  }

  /** The last flush of a session, wherever it is stopped. */
  lemma FlushLeaves(s: State, h: Header, n: nat, durable: bool, io: Io) returns (b: Header, at: nat)
    requires Level(s, h, n) && n < LIMIT && Roomy(s, 0) && h.epoch < U32
    ensures ShowsTorn(Flush(s, durable, io).1.file, h, b, at) && Flushed(h, b) && b.epoch < h.epoch + LIMIT
    ensures Flush(s, durable, io).0 == Ok ==> at == HEADER_BYTES && b.epoch == s.header.epoch
    ensures Flush(s, durable, io).0 == Ok ==> Shows(Flush(s, durable, io).1, b) && b.committed == Flush(s, durable, io).1.committed
  {
    hide EncodeHeader, WriteHeader, BeforeHeader, Flush, Torn;
    FlushTears(s, h, durable, io);
    FlushStages(s, durable, io);
    StagesKeepHeader(s, h, io);
    var t := BeforeHeader(s, io);
    WholeTorn(EncodeHeader(h), EncodeHeader(HeaderNow(t)));
    WholeTorn(EncodeHeader(h), EncodeHeader(h));
    if WritesHeader(s, io) {
      b, at := HeaderNow(t), Reached(io);
      HeaderOnly(t, io);
      if io.headerBytes < HEADER_BYTES {
        StoppedIsNotOk(s, durable, io);
      }
    } else {
      b, at := h, 0;
      NoHeaderNoOk(s, durable, io);
    }
  }

  lemma StoppedIsNotOk(s: State, durable: bool, io: Io)
    requires s.Open? && io.headerBytes < HEADER_BYTES
    ensures Flush(s, durable, io).0 != Ok
  {
    hide EncodeAll, EncodeHeader, Write, Resize;
  }

  lemma LastStep(s: State, h: Header, n: nat, op: Op) returns (a: Header, b: Header, at: nat)
    requires Level(s, h, n) && n + 1 < LIMIT && Roomy(s, 1) && h.epoch < U32
    ensures ShowsTorn(Step(s, op).1.file, a, b, at) && Flushed(a, b) && b.epoch < a.epoch + LIMIT
  {
    hide EncodeHeader, Flush, Observed, RecordFor, Trained, Write, Torn;
    a, b, at := h, h, 0;
    WholeTorn(EncodeHeader(h), EncodeHeader(h));
    match op
    case OpInit(_, _, _, _) =>
    case OpReset =>
    case OpSetMode(mode, io) =>
      if mode == OFF || mode == FROZEN {
        b, at := FlushLeaves(s, h, n, true, io);
      }
    case OpObserve(input, endedNs, io) =>
      if Accepts(s) && |s.slab| < SLAB_RECORDS {
        var s1 := s.(model := Observed(s.model, s.mode, input), slab := s.slab + [RecordFor(s.model, s.mode, input)]);
        if |s1.slab| == SLAB_RECORDS {
          b, at := FlushLeaves(s1, h, n, false, io);
        }
      }
    case OpFlush(io) =>
      b, at := FlushLeaves(s, h, n, true, io);
    case OpClose(io, _) =>
      b, at := FlushLeaves(s, h, n, true, io);
    case OpFreeze(io, again) =>
      b, at := FlushLeaves(s, h, n, true, io);
      var (rc, s1) := Flush(s, true, io);
      if rc == Ok {
        FlushKeepsRest(s, true, io);
        var s2 := s1.(mode := FROZEN, header := Bumped(s1.header));
        WriteTears(s2, b, again);
        a, b, at := b, HeaderNow(s2), Reached(again);
      }
  }

  /** In any session of fewer than 7298688 calls, with truncations that do not fail and header writes
      that are not stopped before the last call, the header that the last call leaves, wherever it is
      stopped, is accepted exactly when it is the whole header that was there before the last header
      write or the whole one it wrote. */
  lemma SessionHeader(s: State, h: Header, ops: seq<Op>, last: Op) returns (a: Header, b: Header, at: nat)
    requires Level(s, h, 0) && (forall i :: 0 <= i < |ops| ==> TameOp(ops[i]))
    requires |ops| + 1 < LIMIT && Roomy(s, |ops| + 1)
    ensures var f := Step(Run(s, ops), last).1.file;
      && ShowsTorn(f, a, b, at) && Flushed(a, b)
      && (HeaderGood(f) <==> f[..HEADER_BYTES] == EncodeHeader(a) || f[..HEADER_BYTES] == EncodeHeader(b))
  {
    hide Step, Run, EncodeHeader, HeaderStatus, Torn;
    var g := RunLevel(s, h, ops);
    a, b, at := LastStep(Run(s, ops), g, |ops|, last);
    TornHeaderFlush(a, b, at);
  }

  // ----- Where sessions start

  /** A new file shows the header it was made with. */
  lemma NewFileLevel(config: Config, nowNs: u64, io: Io)
    requires Init(Closed([]), config, true, nowNs, io).0 == Ok
    ensures Level(Init(Closed([]), config, true, nowNs, io).1, Header(0, nowNs, 1, 0, 0, 0), 0)
  {
    hide EncodeHeader, Reopened, Write;
    var h := Header(0, nowNs, 1, 0, 0, 0);
    WriteParts([], 0, EncodeHeader(h), HEADER_BYTES);
  }

  /** So does a file that holds a header and as many records as it says. */
  lemma ExistingFileLevel(h: Header, log: seq<Record>, config: Config, nowNs: u64, io: Io)
    requires ConfigValid(config) && |log| == h.committed
    ensures var (rc, s) := Init(Closed(EncodeHeader(h) + EncodeAll(log)), config, true, nowNs, io);
      rc == Ok && s.Open? && Level(s, h, 0) && s.header == h && s.committed == |log| && s.slab == [] && s.mode == OFF
  {
    hide EncodeHeader, DecodeHeader, HeaderStatus, Reopened, EncodeAll, Recover, TailLost;
    var file := EncodeHeader(h) + EncodeAll(log);
    assert file[..HEADER_BYTES] == EncodeHeader(h) && file[HEADER_BYTES..] == EncodeAll(log);
    HeaderRoundTrip(h);
    RecoverPrefix(log, RECORD_BYTES * |log|);
    assert EncodeAll(log)[..RECORD_BYTES * |log|] == EncodeAll(log) && log[..|log|] == log;
  }

  // ----- The limit is reached

  /** Changing between the two learning modes, over and over. */
  function Switches(n: nat): (ops: seq<Op>)
    ensures |ops| == n
  {
    seq(n, i => OpSetMode(if i % 2 == 0 then LEARN_SHADOW else PREDICT_SHADOW, GOOD))
  }

  lemma {:induction false} Switched(s: State, n: nat)
    requires s.Open? && s.mode == OFF && s.header.epoch + n < U64
    ensures Run(s, Switches(n)) ==
      s.(header := s.header.(epoch := s.header.epoch + n),
         mode := if n == 0 then OFF else if n % 2 == 1 then LEARN_SHADOW else PREDICT_SHADOW)
    decreases n
  {
    if n > 0 {
      Switched(s, n - 1);
      assert Switches(n)[..n - 1] == Switches(n - 1);
    }
  }

  function Observes(input: Input, n: nat): (ops: seq<Op>)
    ensures |ops| == n
  {
    seq(n, _ => OpObserve(input, 0, GOOD))
  }

  lemma ObserveFills(s: State, input: Input)
    requires Accepts(s) && |s.slab| + 1 < SLAB_RECORDS
    ensures var t := Step(s, OpObserve(input, 0, GOOD)).1;
      t.Open? && Accepts(t) && t.file == s.file && t.header == s.header && t.committed == s.committed
      && |t.slab| == |s.slab| + 1
  {
    hide Observed, RecordFor;
  }

  lemma {:induction false} ObservesFill(s: State, input: Input, n: nat)
    requires Accepts(s) && s.slab == [] && n < SLAB_RECORDS
    ensures var t := Run(s, Observes(input, n));
      t.Open? && Accepts(t) && t.file == s.file && t.header == s.header && t.committed == s.committed && |t.slab| == n
    decreases n
  {
    hide Step;
    if n > 0 {
      ObservesFill(s, input, n - 1);
      assert Observes(input, n)[..n - 1] == Observes(input, n - 1);
      ObserveFills(Run(s, Observes(input, n - 1)), input);
    }
  }

  lemma {:induction false} RunConcat(s: State, a: seq<Op>, b: seq<Op>)
    ensures Run(s, a + b) == Run(Run(s, a), b)
    decreases |b|
  {
    hide Step;
    if b == [] {
      assert a + b == a;
    } else {
      var n := |a + b| - 1;
      assert (a + b)[n] == b[|b| - 1] && (a + b)[..n] == a + b[..|b| - 1];
      RunConcat(s, a, b[..|b| - 1]);
    }
  }

  /** The slab is written, the file truncated, and the header write stops inside the count. */
  const HALFWAY: Io := Io(RECORD_BYTES * SLAB_RECORDS, true, 41, false)

  /** A run that reaches the limit: a file with 255 records is opened, the mode changes 7298688 times,
      seven observations follow, and their flush is stopped. The header that is left is accepted, and it
      is neither the old one nor the new one. */
  lemma TornHeaderReached(h: Header, log: seq<Record>, config: Config, nowNs: u64, input: Input)
    requires ConfigValid(config) && h.epoch == EPOCH && h.committed == |log| == 255
    ensures var ops := [OpInit(config, true, nowNs, GOOD)] + Switches(LIMIT) + Observes(input, 7) + [OpFlush(HALFWAY)];
      var f := Run(Closed(EncodeHeader(h) + EncodeAll(log)), ops).file;
      && HeaderGood(f) && f[..HEADER_BYTES] != EncodeHeader(h)
      && f[..HEADER_BYTES] != EncodeHeader(h.(epoch := EPOCH + LIMIT, committed := 262))
  {
    hide EncodeHeader, EncodeAll, HeaderStatus, Init, Accepts, Step, Run, Torn, Level, Switches, Observes;
    var s0 := Closed(EncodeHeader(h) + EncodeAll(log));
    var a, d := OpInit(config, true, nowNs, GOOD), OpFlush(HALFWAY);
    ExistingFileLevel(h, log, config, nowNs, GOOD);
    InitStep(s0, config, nowNs);
    var s1 := Step(s0, a).1;
    Switched(s1, LIMIT);
    var s2 := Run(s1, Switches(LIMIT));
    LearningAccepts(s2);
    ObservesFill(s2, input, 7);
    FourParts(s0, a, Switches(LIMIT), Observes(input, 7), d);
    HalfwayTears(s1, Run(s2, Observes(input, 7)), h);
    TornHeaderAccepted(h);
    assert h == h.(epoch := EPOCH, committed := 255);
  }

  lemma InitStep(s: State, config: Config, nowNs: u64)
    ensures Step(s, OpInit(config, true, nowNs, GOOD)) == Init(s, config, true, nowNs, GOOD)
  {
    hide Init;
  }

  lemma FourParts(s: State, a: Op, b: seq<Op>, c: seq<Op>, d: Op)
    ensures Run(s, [a] + b + c + [d]) == Step(Run(Run(Step(s, a).1, b), c), d).1
  {
    hide Step, Run;
    OneOp(s, a);
    OneOp(Run(Run(Step(s, a).1, b), c), d);
    RunConcat(s, [a], b);
    RunConcat(s, [a] + b, c);
    RunConcat(s, [a] + b + c, [d]);
  }

  lemma OneOp(s: State, op: Op)
    ensures Run(s, [op]) == Step(s, op).1
  {
    hide Step;
    assert [op][..0] == [] && Run(s, []) == s;
  }

  lemma LearningAccepts(s: State)
    requires s.Open? && (s.mode == LEARN_SHADOW || s.mode == PREDICT_SHADOW)
    ensures Accepts(s)
  {
  }

  lemma HalfwayTears(s1: State, s: State, h: Header)
    requires Level(s1, h, 0) && h.committed == 255 && s1.header == h
    requires s.Open? && s.file == s1.file && s.committed == 255 && |s.slab| == 7
    requires s.header == h.(epoch := EPOCH + LIMIT) && h.epoch == EPOCH
    ensures var f := Step(s, OpFlush(HALFWAY)).1.file;
      && |f| >= HEADER_BYTES
      && f[..HEADER_BYTES] == Torn(EncodeHeader(h), EncodeHeader(h.(epoch := EPOCH + LIMIT, committed := 262)), 41)
  {
    hide EncodeHeader, EncodeAll, Flush, Write, Resize, Torn;
    FlushTears(s, h, true, HALFWAY);
    var t := BeforeHeader(s, HALFWAY);
    assert t.committed == 262 && t.header == s.header;
    assert HeaderNow(t) == h.(epoch := EPOCH + LIMIT, committed := 262);
  }
}
